/** The transactional carrier-route reconciler of `node/src/bypass.rs`. */
module Bypass {

  type Prefix = string

  /** Gateway and interface a route was installed through. */
  datatype Via = Via(gateway: string, iface: string)

  type Routes = map<Prefix, Via>

  // ---- What reaches the host ----------------------------------------------------------

  /** Every call made to the host and how it ended. A failed call has no effect. */
  datatype Event =
    | Installed(p: Prefix, via: Via)
    | Borrowed(p: Prefix)
    | AddFailed(p: Prefix)
    | Removed(p: Prefix, via: Via)
    | RemoveFailed(p: Prefix, via: Via)

  predicate IsAdd(e: Event) {
    e.Installed? || e.Borrowed? || e.AddFailed?
  }

  predicate Failed(e: Event) {
    e.AddFailed? || e.RemoveFailed?
  }

  /** A rollback call that did what it was for. */
  predicate Effective(e: Event) {
    e.Installed? || e.Removed?
  }

  predicate AllEffective(es: seq<Event>) {
    forall e | e in es :: Effective(e)
  }

  /** The prefixes that were installed or found already there. */
  function Resolved(es: seq<Event>): set<Prefix> {
    set e | e in es && (e.Installed? || e.Borrowed?) :: e.p
  }

  function Step(m: Routes, e: Event): Routes {
    match e
    case Installed(p, via) => m[p := via]
    case Removed(p, _) => m - {p}
    case _ => m
  }

  /** The routes we put on the host: successful adds minus successful removes. */
  function Replay(m: Routes, es: seq<Event>): Routes {
    if es == [] then m else Step(Replay(m, es[..|es| - 1]), es[|es| - 1])
  }

  /** An add is made only for a prefix we do not hold; a remove only for a route we hold,
      through the gateway it was installed with. */
  predicate Allowed(held: Routes, e: Event) {
    if IsAdd(e) then e.p !in held else e.p in held && held[e.p] == e.via
  }

  /** Every call was allowed when it was made. A borrowed route is therefore never removed. */
  predicate Disciplined(m: Routes, es: seq<Event>) {
    es == [] || (Disciplined(m, es[..|es| - 1]) && Allowed(Replay(m, es[..|es| - 1]), es[|es| - 1]))
  }

  lemma {:induction false} ReplayConcat(m: Routes, a: seq<Event>, b: seq<Event>)
    ensures Replay(m, a + b) == Replay(Replay(m, a), b)
    decreases |b|
  {
    if b == [] {
      assert a + b == a;
    } else {
      assert (a + b)[..|a + b| - 1] == a + b[..|b| - 1];
      ReplayConcat(m, a, b[..|b| - 1]);
    }
  }

  lemma {:induction false} DisciplinedConcat(m: Routes, a: seq<Event>, b: seq<Event>)
    requires Disciplined(m, a) && Disciplined(Replay(m, a), b)
    ensures Disciplined(m, a + b)
    decreases |b|
  {
    if b == [] {
      assert a + b == a;
    } else {
      assert (a + b)[..|a + b| - 1] == a + b[..|b| - 1];
      DisciplinedConcat(m, a, b[..|b| - 1]);
      ReplayConcat(m, a, b[..|b| - 1]);
    }
  }

  /** The record follows the host: what we own is exactly the replay of the calls made. */
  predicate Tracks(m: Routes, es: seq<Event>, held: Routes) {
    held == Replay(m, es) && Disciplined(m, es)
  }

  lemma Extend(m: Routes, es: seq<Event>, held: Routes, e: Event)
    requires Tracks(m, es, held) && Allowed(held, e)
    ensures Tracks(m, es + [e], Step(held, e))
    ensures forall x :: x in es + [e] <==> x in es || x == e
    ensures AllEffective(es + [e]) <==> AllEffective(es) && Effective(e)
    ensures Resolved(es) <= Resolved(es + [e]) && (e.Installed? || e.Borrowed? ==> e.p in Resolved(es + [e]))
    ensures (es + [e])[..|es + [e]| - 1] == es && (es + [e])[|es + [e]| - 1] == e
  {
  }

  /** A route we hold and did not start with was installed on the way. */
  lemma {:induction false} HeldIsResolved(m: Routes, es: seq<Event>, p: Prefix)
    requires p in Replay(m, es)
    ensures p in m || p in Resolved(es)
  {
    if es != [] {
      var last := es[|es| - 1];
      assert last in es && forall e | e in es[..|es| - 1] :: e in es;
      if p in Replay(m, es[..|es| - 1]) { HeldIsResolved(m, es[..|es| - 1], p); }
    }
  }

  lemma CompleteIsResolved(m: Routes, es: seq<Event>, held: Routes, desired: set<Prefix>)
    requires Tracks(m, es, held) && forall d | d in desired :: d in held || Borrowed(d) in es
    ensures desired - m.Keys <= Resolved(es)
  {
    forall d | d in desired - m.Keys
      ensures d in Resolved(es)
    {
      if d in held { HeldIsResolved(m, es, d); } else { assert Borrowed(d).p == d; }
    }
  }

  class State {
    var owned: Routes

    /** `add`: exclusive install, an existing route left to its owner, or an error. */
    method Add(p: Prefix) returns (e: Event)
      ensures IsAdd(e) && e.p == p
    {
      var outcome: int, via: Via := *, *;
      e := if outcome == 0 then Installed(p, via) else if outcome == 1 then Borrowed(p) else AddFailed(p);
    }

    method Remove(p: Prefix, via: Via) returns (e: Event)
      ensures e == Removed(p, via) || e == RemoveFailed(p, via)
    {
      var ok: bool := *;
      e := if ok then Removed(p, via) else RemoveFailed(p, via);
    }

    /** Forward pass, first half: install every desired prefix not yet owned. */
    method InstallDesired(desired: set<Prefix>) returns (ok: bool, ghost es: seq<Event>)
      modifies this
      ensures Tracks(old(owned), es, owned)
      ensures forall e | e in es :: IsAdd(e) && e.p in desired && e.p !in old(owned)
      ensures forall p | p in old(owned) :: p in owned && owned[p] == old(owned)[p]
      ensures owned.Keys <= old(owned).Keys + desired
      ensures ok ==> forall e | e in es :: !Failed(e)
      ensures ok ==> forall d | d in desired :: d in owned || Borrowed(d) in es
      ensures ok ==> desired - old(owned).Keys <= Resolved(es)
      ensures !ok ==> es != [] && Failed(es[|es| - 1]) && forall e | e in es[..|es| - 1] :: !Failed(e)
    {
      es := [];
      var done: set<Prefix> := {};
      while desired - done != {}
        invariant Tracks(old(owned), es, owned)
        invariant forall e | e in es :: IsAdd(e) && e.p in desired && e.p !in old(owned) && !Failed(e)
        invariant forall p | p in old(owned) :: p in owned && owned[p] == old(owned)[p]
        invariant forall p | p in owned :: p in old(owned) || p in desired
        invariant forall d | d in done :: d in owned || Borrowed(d) in es
        decreases desired - done
      {
        var p :| p in desired - done;
        if p !in owned {
          var e := Add(p);
          Extend(old(owned), es, owned, e);
          es := es + [e];
          if e.AddFailed? { return false, es; }
          if e.Installed? { owned := owned[p := e.via]; }
        }
        done := done + {p};
      }
      assert forall d | d in desired :: d in done || d in desired - done;
      CompleteIsResolved(old(owned), es, owned, desired);
      ok := true;
    }

    /** Forward pass, second half: retire what is no longer desired. */
    method RetireOld(before: Routes, desired: set<Prefix>) returns (ok: bool, ghost es: seq<Event>)
      modifies this
      ensures Tracks(old(owned), es, owned)
      ensures forall e | e in es :: !IsAdd(e) && e.p in before && e.p !in desired
      ensures owned.Keys <= old(owned).Keys
      ensures forall p | p in old(owned) && !(p in before && p !in desired) :: p in owned
      ensures ok ==> owned.Keys == old(owned).Keys - (before.Keys - desired)
      ensures ok ==> forall e | e in es :: !Failed(e)
      ensures !ok ==> es != [] && Failed(es[|es| - 1]) && forall e | e in es[..|es| - 1] :: !Failed(e)
    {
      es := [];
      var obsolete := before.Keys - desired;
      var done: set<Prefix> := {};
      while obsolete - done != {}
        invariant Tracks(old(owned), es, owned)
        invariant forall e | e in es :: !IsAdd(e) && e.p in before && e.p !in desired && !Failed(e)
        invariant forall p | p in owned :: p in old(owned) && p !in done
        invariant forall p | p in old(owned) && p !in done :: p in owned
        invariant forall p | p in done :: p in obsolete
        decreases obsolete - done
      {
        var p :| p in obsolete - done;
        if p in owned {
          var e := Remove(p, owned[p]);
          Extend(old(owned), es, owned, e);
          es := es + [e];
          if e.RemoveFailed? { return false, es; }
          owned := owned - {p};
        }
        done := done + {p};
      }
      assert forall p | p in obsolete :: p in done || p in obsolete - done;
      ok := true;
    }

    /** Rollback, first half: put back the old routes that were removed. */
    method RestoreOld(before: Routes) returns (ghost es: seq<Event>)
      modifies this
      ensures Tracks(old(owned), es, owned)
      ensures forall e | e in es :: IsAdd(e) && e.p in before && e.p !in old(owned)
      ensures forall p | p in old(owned) :: p in owned
      ensures owned.Keys <= old(owned).Keys + before.Keys
      ensures AllEffective(es) ==> owned.Keys == old(owned).Keys + before.Keys
    {
      es := [];
      var missing := before.Keys - owned.Keys;
      var done: set<Prefix> := {};
      while missing - done != {}
        invariant Tracks(old(owned), es, owned)
        invariant forall e | e in es :: IsAdd(e) && e.p in missing
        invariant forall p | p in old(owned) :: p in owned
        invariant forall p | p in owned :: p in old(owned) || (p in done && p in missing)
        invariant AllEffective(es) ==> forall p | p in done :: p in owned
        decreases missing - done
      {
        var p :| p in missing - done;
        var e := Add(p);
        Extend(old(owned), es, owned, e);
        es := es + [e];
        if e.Installed? { owned := owned[p := e.via]; }
        done := done + {p};
      }
      assert forall p | p in missing :: p in done || p in missing - done;
    }

    /** Rollback, second half: release the protections added by the failed attempt. */
    method ReleaseNew(before: Routes) returns (ghost es: seq<Event>)
      modifies this
      ensures Tracks(old(owned), es, owned)
      ensures forall e | e in es :: !IsAdd(e) && e.p !in before && e.p in old(owned)
      ensures owned.Keys <= old(owned).Keys && old(owned).Keys * before.Keys <= owned.Keys
      ensures AllEffective(es) ==> owned.Keys == old(owned).Keys * before.Keys
    {
      es := [];
      var added := owned.Keys - before.Keys;
      var done: set<Prefix> := {};
      while added - done != {}
        invariant Tracks(old(owned), es, owned)
        invariant forall e | e in es :: !IsAdd(e) && e.p in added
        invariant forall p | p in owned :: p in old(owned)
        invariant forall p | p in old(owned) && !(p in done && p in added) :: p in owned
        invariant AllEffective(es) ==> forall p | p in done :: p !in owned
        decreases added - done
      {
        var p :| p in added - done;
        assert p in owned;
        var e := Remove(p, owned[p]);
        Extend(old(owned), es, owned, e);
        es := es + [e];
        if e.Removed? { owned := owned - {p}; }
        done := done + {p};
      }
      assert forall p | p in added :: p in done || p in added - done;
    }

    /** The forward pass: add all new protections before retiring any old one. */
    method Forward(desired: set<Prefix>) returns (ok: bool, ghost es: seq<Event>)
      modifies this
      ensures Tracks(old(owned), es, owned)
      ensures Untouched(old(owned), desired, es) && RetiresLate(old(owned), desired, es)
      ensures forall p | p in old(owned) && p in desired :: p in owned
      ensures owned.Keys <= old(owned).Keys + desired
      ensures ok ==> (forall e | e in es :: !Failed(e)) && owned.Keys <= desired
      ensures ok ==> forall d | d in desired :: d in owned || Borrowed(d) in es
      ensures !ok ==> es != [] && Failed(es[|es| - 1])
    {
      var before := owned;
      ok, es := InstallDesired(desired);
      RetiresLateNone(before, desired, es);
      if !ok { return; }
      ghost var es2: seq<Event>;
      ok, es2 := RetireOld(before, desired);
      RetiresLateAfter(before, desired, es, es2);
      TracksConcat(before, es, es2, owned);
      Joined(es, es2);
      es := es + es2;
    }

    /** The rollback: recreate removed old routes, then release new protections. */
    method Rollback(before: Routes) returns (ghost es: seq<Event>)
      modifies this
      ensures Tracks(old(owned), es, owned)
      ensures forall e | e in es :: if IsAdd(e) then e.p in before && e.p !in old(owned) else e.p !in before
      ensures forall p | p in old(owned) && p in before :: p in owned
      ensures AllEffective(es) ==> owned.Keys == before.Keys
    {
      es := RestoreOld(before);
      ghost var middle := owned;
      ghost var es2 := ReleaseNew(before);
      TracksConcat(old(owned), es, es2, owned);
      Joined(es, es2);
      es := es + es2;
    }

    /** `reconcile`: on failure restore the old set where possible. The first `forward` events
        are the forward pass. */
    method Reconcile(desired: set<Prefix>) returns (ok: bool, ghost es: seq<Event>, ghost forward: nat)
      modifies this
      ensures Tracks(old(owned), es, owned)
      ensures Untouched(old(owned), desired, es) && RetiresLate(old(owned), desired, es)
      ensures forall p | p in old(owned) && p in desired :: p in owned
      ensures ok ==> (forall e | e in es :: !Failed(e)) && owned.Keys <= desired
      ensures ok ==> forall d | d in desired :: d in owned || Borrowed(d) in es
      ensures !ok ==> 0 < forward <= |es| && Failed(es[forward - 1])
      ensures !ok && AllEffective(es[forward..]) ==> owned.Keys == old(owned).Keys
    {
      var before := owned;
      ok, es := Forward(desired);
      forward := |es|;
      if ok { return; }
      ghost var undo := Rollback(before);
      TracksConcat(before, es, undo, owned);
      RetiresLateOther(before, desired, es, undo);
      Joined(es, undo);
      assert (es + undo)[forward..] == undo && (es + undo)[forward - 1] == es[forward - 1];
      es := es + undo;
    }

    /** `State::sync`, after prefixes are parsed and the physical routes looked up: with `retain`
        every protection held so far stays desired. */
    method Sync(desired: set<Prefix>, retain: bool) returns (ok: bool, ghost es: seq<Event>)
      modifies this
      ensures Tracks(old(owned), es, owned)
      ensures retain ==> old(owned).Keys <= owned.Keys && forall e | e in es :: e.p !in old(owned)
      ensures ok ==> forall d | d in desired :: d in owned || Borrowed(d) in es
      ensures ok && !retain ==> owned.Keys <= desired
    {
      var wanted := if retain then desired + owned.Keys else desired;
      ghost var forward: nat;
      ok, es, forward := Reconcile(wanted);
    }
  }

  lemma Joined(a: seq<Event>, b: seq<Event>)
    ensures forall e :: e in a + b <==> e in a || e in b
    ensures AllEffective(a + b) <==> AllEffective(a) && AllEffective(b)
    ensures b != [] ==> (a + b)[|a + b| - 1] == b[|b| - 1]
  {
  }

  /** Prefixes both held and desired are never touched. */
  ghost predicate Untouched(before: Routes, desired: set<Prefix>, es: seq<Event>) {
    forall e | e in es :: !(e.p in before && e.p in desired)
  }

  /** No old route is removed until every desired prefix is held, installed or borrowed. */
  ghost predicate RetiresLate(before: Routes, desired: set<Prefix>, es: seq<Event>) {
    forall i | 0 <= i < |es| && !IsAdd(es[i]) && es[i].p in before :: desired <= before.Keys + Resolved(es[..i])
  }

  lemma RetiresLateNone(before: Routes, desired: set<Prefix>, es: seq<Event>)
    requires forall e | e in es :: IsAdd(e)
    ensures RetiresLate(before, desired, es)
  {
  }

  lemma RetiresLateAfter(before: Routes, desired: set<Prefix>, a: seq<Event>, b: seq<Event>)
    requires RetiresLate(before, desired, a) && desired - before.Keys <= Resolved(a)
    ensures RetiresLate(before, desired, a + b)
  {
    var es := a + b;
    forall i | 0 <= i < |es| && !IsAdd(es[i]) && es[i].p in before
      ensures desired <= before.Keys + Resolved(es[..i])
    {
      if i < |a| {
        assert es[..i] == a[..i] && es[i] == a[i];
      } else {
        assert es[..i] == a + b[..i - |a|];
        assert Resolved(a) <= Resolved(es[..i]);
      }
    }
  }

  /** Calls that do not remove old routes can follow at any point. */
  lemma RetiresLateOther(before: Routes, desired: set<Prefix>, a: seq<Event>, b: seq<Event>)
    requires RetiresLate(before, desired, a)
    requires forall e | e in b :: IsAdd(e) || e.p !in before
    ensures RetiresLate(before, desired, a + b)
  {
    var es := a + b;
    assert forall i | |a| <= i < |es| :: es[i] in b;
    forall i | 0 <= i < |es| && !IsAdd(es[i]) && es[i].p in before
      ensures desired <= before.Keys + Resolved(es[..i])
    {
      if i < |a| { assert es[..i] == a[..i] && es[i] == a[i]; }
    }
  }

  /** Over any sequence of calls the record still replays everything done to the host. */
  lemma TracksConcat(m: Routes, a: seq<Event>, b: seq<Event>, held: Routes)
    requires Disciplined(m, a) && Tracks(Replay(m, a), b, held)
    ensures Tracks(m, a + b, held)
  {
    ReplayConcat(m, a, b);
    DisciplinedConcat(m, a, b);
  }
}
