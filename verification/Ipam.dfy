/** The per-network address allocator of `control-server/src/ipam.rs`. */
module Ipam {
  import opened Common
  import opened HostPool

  type Key = string

  /** The allocator's table: which hosts are marked, and the host each key leases. */
  datatype Leases = Leases(used: seq<bool>, byKey: map<Key, nat>)

  predicate Shaped(l: Leases) {
    |l.used| == 256 && forall k | k in l.byKey :: l.byKey[k] < 256
  }

  /** The marks are an exact cache of the lease map: a host is marked when exactly one key leases it. */
  ghost predicate Exact(l: Leases) {
    && Shaped(l)
    && (forall k, k' | k in l.byKey && k' in l.byKey && l.byKey[k] == l.byKey[k'] :: k == k')
    && (forall h | 0 <= h < 256 :: l.used[h] <==> Leased(l, h))
  }

  ghost predicate Leased(l: Leases, h: int) {
    exists k | k in l.byKey :: l.byKey[k] == h
  }

  function Empty(): (r: Leases)
    ensures Shaped(r)
  {
    Leases(seq(256, _ => false), map[])
  }

  function Marked(l: Leases): set<nat>
    requires Shaped(l)
  {
    set h: nat | h < 256 && l.used[h]
  }

  function Take(l: Leases, key: Key, host: nat): (r: Leases)
    requires Shaped(l) && host < 256
    ensures Shaped(r)
  {
    Leases(l.used[host := true], l.byKey[key := host])
  }

  /** The host and the table after an allocation; None when the range is full. */
  function Allocate(l: Leases, key: Key): (r: Option<(nat, Leases)>)
    requires Shaped(l)
    ensures r.Some? ==> Shaped(r.value.1)
  {
    if key in l.byKey then Some((l.byKey[key], l))
    else
      match LeastFreeHost(Marked(l))
      case None => None
      case Some(h) => Some((h, Take(l, key, h)))
  }

  function Reserve(l: Leases, key: Key, host: nat): (r: Option<Leases>)
    requires Shaped(l) && host < 256
    ensures r.Some? ==> Shaped(r.value)
  {
    if key in l.byKey && l.byKey[key] == host then Some(l)
    else if l.used[host] then None
    else Some(Take(l, key, host))
  }

  function Recycle(l: Leases, key: Key): (r: Leases)
    requires Shaped(l)
    ensures Shaped(r)
  {
    if key in l.byKey then Leases(l.used[l.byKey[key] := false], l.byKey - {key}) else l
  }

  // ---- The cache stays exact ---------------------------------------------------------

  lemma TakeExact(l: Leases, key: Key, host: nat)
    requires Exact(l) && host < 256 && !l.used[host] && key !in l.byKey
    ensures Exact(Take(l, key, host))
  {
    var l' := Take(l, key, host);
    forall h | 0 <= h < 256
      ensures l'.used[h] <==> Leased(l', h)
    {
      if h == host {
        assert key in l'.byKey && l'.byKey[key] == h;
      } else if Leased(l, h) {
        var k :| k in l.byKey && l.byKey[k] == h;
        assert k in l'.byKey && l'.byKey[k] == h;
      }
    }
    assert !Leased(l, host);
  }

  lemma RecycleExact(l: Leases, key: Key)
    requires Exact(l)
    ensures Exact(Recycle(l, key))
  {
    if key in l.byKey {
      var l' := Recycle(l, key);
      forall h | 0 <= h < 256
        ensures l'.used[h] <==> Leased(l', h)
      {
        if h != l.byKey[key] && Leased(l, h) {
          var k :| k in l.byKey && l.byKey[k] == h;
          assert k in l'.byKey && l'.byKey[k] == h;
        }
      }
    }
  }

  /** A key without a lease gets the least unleased host of the range, and is refused exactly
      when all 150 of them are leased; a key with a lease keeps it. */
  lemma AllocateExact(l: Leases, key: Key)
    requires Exact(l)
    ensures Allocate(l, key).None? <==>
              key !in l.byKey && forall h: nat | DEVICE_HOST_MIN <= h <= DEVICE_HOST_MAX :: Leased(l, h)
    ensures Allocate(l, key).Some? && key !in l.byKey ==>
              var (host, l') := Allocate(l, key).value;
              && Exact(l') && l' == Take(l, key, host)
              && DEVICE_HOST_MIN <= host <= DEVICE_HOST_MAX && !Leased(l, host)
              && forall h: nat | DEVICE_HOST_MIN <= h < host :: Leased(l, h)
    ensures key in l.byKey ==> Allocate(l, key) == Some((l.byKey[key], l))
  {
    if key !in l.byKey {
      assert forall h: nat | h < 256 :: h in Marked(l) <==> Leased(l, h);
      match Allocate(l, key) {
        case None =>
          forall h: nat | DEVICE_HOST_MIN <= h <= DEVICE_HOST_MAX
            ensures Leased(l, h)
          {
            assert h in Marked(l);
          }
        case Some((host, l')) =>
          assert host !in Marked(l);
          TakeExact(l, key, host);
          forall h: nat | DEVICE_HOST_MIN <= h < host
            ensures Leased(l, h)
          {
            assert h in Marked(l);
          }
      }
    }
  }

  /** Reserving keeps the cache exact except when the key already leases a different host and the
      requested one is free: the old host then stays marked with nobody leasing it. */
  lemma ReserveExactIff(l: Leases, key: Key, host: nat)
    requires Exact(l) && host < 256 && Reserve(l, key, host).Some?
    ensures Exact(Reserve(l, key, host).value) <==> (key !in l.byKey || l.byKey[key] == host)
  {
    var l' := Reserve(l, key, host).value;
    if key !in l.byKey {
      TakeExact(l, key, host);
    } else if l.byKey[key] != host {
      var stale := l.byKey[key];
      assert l.used[stale] by { assert Leased(l, stale); }
      assert l'.used[stale];
      assert !Leased(l', stale);
    }
  }

  /** A key that reserves 120 and then 121 leaves 120 marked for nobody. */
  lemma SecondReservationLeaks(key: Key)
    ensures
      var first := Take(Empty(), key, 120);
      var second := Reserve(first, key, 121);
      Exact(first) && second.Some? && second.value.used[120] && !Leased(second.value, 120) && !Exact(second.value)
  {
    var first := Take(Empty(), key, 120);
    TakeExact(Empty(), key, 120);
    ReserveExactIff(first, key, 121);
  }

  lemma FirstUnmarked(marked: set<nat>, h: nat)
    requires DEVICE_HOST_MIN <= h <= DEVICE_HOST_MAX && h !in marked
    requires forall g: nat | DEVICE_HOST_MIN <= g < h :: g in marked
    ensures LeastFreeHost(marked) == Some(h)
  {
  }

  // ---- The mutable allocator --------------------------------------------------------------

  class Allocator {
    const octet: nat
    const ula: nat
    const used: array<bool>
    var byKey: map<Key, nat>

    ghost predicate Valid()
      reads this, used
    {
      used.Length == 256 && forall k | k in byKey :: byKey[k] < 256
    }

    ghost function View(): (l: Leases)
      requires Valid()
      reads this, used
      ensures Shaped(l)
    {
      Leases(used[..], byKey)
    }

    constructor (octet: nat, ula: nat)
      ensures Valid() && fresh(used) && View() == Empty() && this.octet == octet && this.ula == ula
    {
      this.octet, this.ula := octet, ula;
      used := new bool[256](_ => false);
      byKey := map[];
    }

    method AllocateFor(key: Key) returns (r: Option<nat>)
      requires Valid()
      modifies this`byKey, used
      ensures Valid()
      ensures match Allocate(old(View()), key)
              case None => r.None? && View() == old(View())
              case Some((host, l)) => r == Some(host) && View() == l
    {
      if key in byKey { return Some(byKey[key]); }
      for h := DEVICE_HOST_MIN to DEVICE_HOST_MAX + 1
        invariant Valid() && View() == old(View()) && byKey == old(byKey)
        invariant forall g: nat | DEVICE_HOST_MIN <= g < h :: g in Marked(View())
      {
        if !used[h] {
          FirstUnmarked(Marked(View()), h);
          used[h] := true;
          byKey := byKey[key := h];
          return Some(h);
        }
      }
      assert LeastFreeHost(Marked(View())) == None;
      r := None;
    }

    method ReserveFor(key: Key, host: nat) returns (ok: bool)
      requires Valid() && host < 256
      modifies this`byKey, used
      ensures Valid()
      ensures match Reserve(old(View()), key, host)
              case None => !ok && View() == old(View())
              case Some(l) => ok && View() == l
    {
      if key in byKey && byKey[key] == host { return true; }
      if used[host] { return false; }
      used[host] := true;
      byKey := byKey[key := host];
      ok := true;
    }

    method RecycleFor(key: Key) returns (freed: bool)
      requires Valid()
      modifies this`byKey, used
      ensures Valid()
      ensures View() == Recycle(old(View()), key) && freed == (key in old(byKey))
    {
      if key !in byKey { return false; }
      used[byKey[key]] := false;
      byKey := byKey - {key};
      freed := true;
    }
  }
}
