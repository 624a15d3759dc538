/** The device host range shared by both stores' address allocators. */
module HostPool {
  import opened Common

  const DEVICE_HOST_MIN: nat := 100
  const DEVICE_HOST_MAX: nat := 249

  /** Lowest host of `lo..=hi` that is not in `used`. */
  function LeastFree(used: set<nat>, lo: nat, hi: nat): (r: Option<nat>)
    ensures r.None? <==> forall h: nat | lo <= h <= hi :: h in used
    ensures r.Some? ==> lo <= r.value <= hi && r.value !in used && forall h: nat | lo <= h < r.value :: h in used
    decreases hi + 1 - lo
  {
    if lo > hi then None
    else if lo !in used then Some(lo)
    else LeastFree(used, lo + 1, hi)
  }

  function LeastFreeHost(used: set<nat>): Option<nat> {
    LeastFree(used, DEVICE_HOST_MIN, DEVICE_HOST_MAX)
  }
}
