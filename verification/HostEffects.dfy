/** Route synchronisation and retry backoff of `node/src/apply.rs`. */
module HostEffects {
  import opened Common

  type Prefix = string

  /** A command failure; the diagnostic text is opaque here. */
  datatype ApplyError = ApplyError(code: Option<int>, text: string)

  // ---- `sync_routes` --------------------------------------------------------------------

  datatype AddOutcome = Installed | Skipped(reason: ApplyError) | Failed(error: ApplyError)

  datatype Skip = Skip(epoch: nat, next: int, reason: ApplyError)

  const SKIP_SECONDS := 60

  class Routes {
    var installed: set<Prefix>
    var skipped: map<Prefix, Skip>
    /** The routes on the host that we put there. */
    ghost var host: set<Prefix>

    ghost predicate Valid()
      reads this
    {
      installed == host && installed !! skipped.Keys
    }

    constructor ()
      ensures Valid() && installed == {} && skipped == map[]
    {
      installed, skipped, host := {}, map[], {};
    }

    /** The two host effects. A failed one leaves the host as it was. */
    method Add(p: Prefix) returns (o: AddOutcome)
      modifies this`host
      ensures host == if o.Installed? then old(host) + {p} else old(host)
    {
      var pick: int, e: ApplyError := *, *;
      o := if pick == 0 then Installed else if pick == 1 then Skipped(e) else Failed(e);
      if o.Installed? { host := host + {p}; }
    }

    method Remove(p: Prefix) returns (error: Option<ApplyError>)
      modifies this`host
      ensures host == if error.None? then old(host) - {p} else old(host)
    {
      var ok: bool, e: ApplyError := *, *;
      error := if ok then None else Some(e);
      if ok { host := host - {p}; }
    }

    /** Is an optional route still waiting out its delay at this epoch? */
    predicate Waiting(p: Prefix, epoch: nat, now: int)
      reads this
    {
      p in skipped && skipped[p].epoch == epoch && now < skipped[p].next
    }

    method RetireObsolete(desired: set<Prefix>) returns (errors: seq<ApplyError>)
      requires Valid()
      modifies this`installed, this`host
      ensures Valid() && installed <= old(installed)
      ensures old(installed) * desired <= installed
      ensures errors == [] ==> installed <= desired
    {
      errors := [];
      var obsolete := installed - desired;
      var done: set<Prefix> := {};
      while obsolete - done != {}
        invariant Valid() && installed <= old(installed) && old(installed) * desired <= installed
        invariant errors == [] ==> installed !! done
        invariant done <= obsolete == old(installed) - desired
        decreases obsolete - done
      {
        var p :| p in obsolete - done;
        var error := Remove(p);
        if error.None? { installed := installed - {p}; } else { errors := errors + [error.value]; }
        done := done + {p};
      }
      assert forall p | p in obsolete :: p in done || p in obsolete - done;
    }

    /** Try to install one missing prefix and note a skip; a failure forgets an earlier skip. */
    method Attempt(p: Prefix, epoch: nat, now: int) returns (error: Option<ApplyError>)
      requires Valid() && p !in installed
      modifies this
      ensures Valid() && old(installed) <= installed <= old(installed) + {p}
      ensures forall q | q != p :: q in skipped <==> q in old(skipped)
      ensures forall q | q != p && q in old(skipped) :: skipped[q] == old(skipped)[q]
      ensures p in skipped ==> skipped[p].epoch == epoch && skipped[p].next == now + SKIP_SECONDS
      ensures error.None? <==> p in installed || p in skipped
    {
      var o := Add(p);
      error := None;
      match o {
        case Installed =>
          skipped := skipped - {p};
          installed := installed + {p};
        case Skipped(reason) => skipped := skipped[p := Skip(epoch, now + SKIP_SECONDS, reason)];
        case Failed(e) =>
          skipped := skipped - {p};
          error := Some(e);
      }
    }

    /** One pass towards the desired set. `tried` are the prefixes whose install was attempted. */
    method Sync(desired: set<Prefix>, epoch: nat, now: int) returns (errors: seq<ApplyError>, ghost tried: set<Prefix>)
      requires Valid()
      modifies this
      ensures Valid() && skipped.Keys <= desired
      ensures errors == [] ==> installed <= desired <= installed + skipped.Keys
      ensures old(installed) * desired <= installed
      ensures forall p | p in desired && p !in old(installed) :: p in tried <==> !old(Waiting(p, epoch, now))
      ensures tried <= desired - old(installed)
      ensures forall p | p in skipped ::
                if p in tried then skipped[p].epoch == epoch && skipped[p].next == now + SKIP_SECONDS
                else p in old(skipped) && skipped[p] == old(skipped)[p]
    {
      skipped := map p | p in skipped && p in desired :: skipped[p];
      errors := RetireObsolete(desired);
      ghost var retired := installed;
      var missing := desired - installed;
      assert missing == desired - old(installed);
      var done: set<Prefix> := {};
      tried := {};
      while missing - done != {}
        invariant Valid() && done <= missing && skipped.Keys <= desired
        invariant installed == retired + (installed * done)
        invariant errors == [] ==> retired <= desired && done <= installed + skipped.Keys
        invariant tried <= done
        invariant forall p | p in done :: p in tried <==> !old(Waiting(p, epoch, now))
        invariant forall p | p in skipped ::
                    if p in tried then skipped[p].epoch == epoch && skipped[p].next == now + SKIP_SECONDS
                    else p in old(skipped) && skipped[p] == old(skipped)[p]
        invariant forall p | p in missing && p !in done && p in old(skipped) :: p in skipped
        decreases missing - done
      {
        var p :| p in missing - done;
        assert Waiting(p, epoch, now) <==> old(Waiting(p, epoch, now));
        if !Waiting(p, epoch, now) {
          var error := Attempt(p, epoch, now);
          tried := tried + {p};
          if error.Some? { errors := errors + [error.value]; }
        }
        done := done + {p};
      }
      assert forall p | p in missing :: p in done || p in missing - done;
    }
  }

  // ---- `Retry` -----------------------------------------------------------------------------

  datatype RetryState = RetryState(epoch: Option<nat>, error: Option<ApplyError>, next: Option<int>, delay: nat)

  function Fresh(epoch: Option<nat>): RetryState {
    RetryState(epoch, None, None, 0)
  }

  function NextDelay(delay: nat): nat {
    if delay == 0 then 2 else if delay * 2 < 60 then delay * 2 else 60
  }

  function AtEpoch(s: RetryState, epoch: nat): RetryState {
    if s.epoch == Some(epoch) then s else Fresh(Some(epoch))
  }

  /** Does a call at `now` run the effect, or return the cached error? */
  predicate Runs(s: RetryState, epoch: nat, now: int) {
    var t := AtEpoch(s, epoch);
    !(t.next.Some? && now < t.next.value && t.error.Some?)
  }

  function AfterRun(s: RetryState, epoch: nat, now: int, outcome: Option<ApplyError>): RetryState {
    var t := AtEpoch(s, epoch);
    match outcome
    case None => t.(error := None, next := None, delay := 0)
    case Some(e) =>
      var d := NextDelay(t.delay);
      t.(error := Some(e), next := Some(now + d), delay := d)
  }

  class Retry {
    var state: RetryState

    constructor ()
      ensures state == Fresh(None)
    {
      state := Fresh(None);
    }

    /** `effect` is what the effect would return if it ran now. */
    method Run(epoch: nat, now: int, effect: Option<ApplyError>) returns (result: Option<ApplyError>, ran: bool)
      modifies this
      ensures ran == Runs(old(state), epoch, now)
      ensures ran ==> result == effect && state == AfterRun(old(state), epoch, now, effect)
      ensures !ran ==> result == old(state).error && state == old(state)
    {
      if state.epoch != Some(epoch) { state := Fresh(Some(epoch)); }
      if state.next.Some? && now < state.next.value && state.error.Some? { return state.error, false; }
      match effect {
        case None => state := state.(error := None, next := None, delay := 0);
        case Some(e) =>
          var delay := NextDelay(state.delay);
          state := state.(delay := delay, next := Some(now + delay), error := Some(e));
      }
      result, ran := effect, true;
    }
  }

  // ---- The backoff schedule -------------------------------------------------------------------

  function Pow2(k: nat): (r: nat)
    ensures r >= 1
  {
    if k == 0 then 1 else 2 * Pow2(k - 1)
  }

  function Capped(k: nat): nat {
    if Pow2(k) < 60 then Pow2(k) else 60
  }

  /** The delay after the k-th failure in a row. */
  function DelayAfter(k: nat): nat {
    if k == 0 then 0 else NextDelay(DelayAfter(k - 1))
  }

  lemma {:induction false} DelayIsCapped(k: nat)
    requires k > 0
    ensures DelayAfter(k) == Capped(k)
  {
    if k > 1 {
      DelayIsCapped(k - 1);
      assert Pow2(k) == 2 * Pow2(k - 1);
    }
  }

  /** Sum of min(2^i, 60) for i in 1..=k. */
  function Schedule(k: nat): nat {
    if k == 0 then 0 else Schedule(k - 1) + Capped(k)
  }

  /** The times at which the effect ran, over calls at one epoch whose effect always fails. */
  function FailingAttempts(s: RetryState, epoch: nat, calls: seq<(int, ApplyError)>): seq<int>
    decreases |calls|
  {
    if calls == [] then []
    else
      var (now, e) := calls[0];
      if Runs(s, epoch, now)
      then [now] + FailingAttempts(AfterRun(s, epoch, now, Some(e)), epoch, calls[1..])
      else FailingAttempts(s, epoch, calls[1..])
  }

  /** A state after k failures in a row, the last of them at `last`. */
  predicate Failing(s: RetryState, epoch: nat, k: nat, last: int) {
    s.epoch == Some(epoch) && s.error.Some? && s.next == Some(last + DelayAfter(k)) && s.delay == DelayAfter(k) && k > 0
  }

  lemma {:induction false} AttemptsSpread(s: RetryState, epoch: nat, calls: seq<(int, ApplyError)>, k: nat, last: int, j: nat)
    requires Failing(s, epoch, k, last)
    requires j < |FailingAttempts(s, epoch, calls)|
    ensures FailingAttempts(s, epoch, calls)[j] >= last + Schedule(k + j) - Schedule(k - 1)
    decreases |calls|
  {
    var (now, e) := calls[0];
    DelayIsCapped(k);
    if Runs(s, epoch, now) {
      var s' := AfterRun(s, epoch, now, Some(e));
      assert Failing(s', epoch, k + 1, now);
      if j > 0 { AttemptsSpread(s', epoch, calls[1..], k + 1, now, j - 1); }
    } else {
      AttemptsSpread(s, epoch, calls[1..], k, last, j);
    }
  }

  /** From a state without a pending failure at this epoch (a new epoch, or after a success), the
      failing attempt number k (from 0) comes at least the first k capped delays after the
      first, whatever clock readings the calls carry. */
  lemma BackoffSchedule(s: RetryState, epoch: nat, calls: seq<(int, ApplyError)>, k: nat)
    requires AtEpoch(s, epoch) == Fresh(Some(epoch))
    requires k < |FailingAttempts(s, epoch, calls)|
    ensures FailingAttempts(s, epoch, calls)[k] >= FailingAttempts(s, epoch, calls)[0] + Schedule(k)
  {
    var (now, e) := calls[0];
    var s' := AfterRun(s, epoch, now, Some(e));
    assert DelayAfter(1) == 2;
    assert Failing(s', epoch, 1, now);
    if k > 0 { AttemptsSpread(s', epoch, calls[1..], 1, now, k - 1); }
  }
}
