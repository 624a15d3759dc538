/** What every step of the daemon's lifecycle protocol keeps, and what follows for whole runs. */
module DaemonSafety {
  import opened Common
  import opened Processes
  import opened Daemon

  // ---- What a step relies on ----------------------------------------------------------------------

  predicate Arrives(w: World, iface: Iface, pc: Pc, next: Pc) {
    match next
    case Cleaning(_, _) => iface !in w.procs.members || (pc.Waiting? && pc.gen !in w.live)
    case Checking(cfg, todo) =>
      || todo == w.procs.members.Keys - {iface}
      || (pc.Checking? && pc.cfg == cfg && forall o | o in pc.todo - todo :: !cfg.killSwitch && o !in w.protected)
    case Checked(cfg) => pc == Checking(cfg, {})
    case Launching(cfg) => pc == Checked(cfg) && iface !in w.procs.members
    case Waiting(_, _) => false
    case Launched(_) => false
    case _ => true
  }

  predicate Follows(w: World, id: Wid, eff: Effect)
    requires id in w.workers
  {
    var iface, pc := w.workers[id].iface, w.workers[id].pc;
    match eff
    case Stay => true
    case Move(next) => !pc.Launched? && Holds(next) == Holds(pc) && Arrives(w, iface, pc, next)
    case Admit(goal) => w.admission.None? && !Holds(pc)
    case Signal(goal) => pc == Stopping(goal) && iface in w.procs.members
    case Settle(next) => pc.Cleaning? && Holds(next) == Holds(pc) && (next.Loading? || next.Leaving?)
    case Spawn(cfg) => pc == Launching(cfg) && MaySpawn(w.procs, iface)
    case SpawnFailed => pc.Launching? && iface !in w.procs.members
    case Record(cfg) => pc == Launched(cfg)
    case Unlock => pc == Leaving(true)
    case Release => pc == Leaving(false)
  }

  lemma DecideFollows(w: World, id: Wid, fail: bool, other: Iface)
    requires id in w.workers
    ensures Follows(w, id, Decide(w, id, fail, other))
  {
  }

  // ---- Reservations -------------------------------------------------------------------------------

  predicate Reserves(workers: map<Wid, Worker>, id: Wid, iface: Iface) {
    id in workers && workers[id].iface == iface
  }

  /** The reservations given out are those the requests hold, one per interface, and none beside a
      shutdown's. */
  ghost predicate Reserved(w: World) {
    && (forall id | id in w.workers :: w.workers[id].iface in w.procs.busy)
    && (forall i | i in w.procs.busy :: exists id :: Reserves(w.workers, id, i))
    && (forall a, b, i | Reserves(w.workers, a, i) && Reserves(w.workers, b, i) :: a == b)
    && (w.procs.closing ==> w.procs.busy == {})
    && (w.procs.closing <==> !w.sweep.NoSweep?)
  }

  lemma SamePlacesReserved(w: World, next: World)
    requires Reserved(w) && next.procs.busy == w.procs.busy && next.procs.closing == w.procs.closing
    requires next.sweep.NoSweep? == w.sweep.NoSweep? && next.workers.Keys == w.workers.Keys
    requires forall id | id in w.workers :: next.workers[id].iface == w.workers[id].iface
    ensures Reserved(next)
  {
    forall i | i in next.procs.busy
      ensures exists id :: Reserves(next.workers, id, i)
    {
      var id :| Reserves(w.workers, id, i);
      assert Reserves(next.workers, id, i);
    }
    forall a, b, i | Reserves(next.workers, a, i) && Reserves(next.workers, b, i)
      ensures a == b
    {
      assert Reserves(w.workers, a, i) && Reserves(w.workers, b, i);
    }
  }

  lemma EnterKeepsReserved(w: World, id: Wid, iface: Iface, goal: Goal)
    requires Reserved(w)
    ensures Reserved(EnterStep(w, id, iface, goal))
  {
    var next := EnterStep(w, id, iface, goal);
    if id !in w.workers && MayEnter(w.procs, iface) {
      forall i | i in next.procs.busy
        ensures exists x :: Reserves(next.workers, x, i)
      {
        if i == iface {
          assert Reserves(next.workers, id, i);
        } else {
          var x :| Reserves(w.workers, x, i);
          assert Reserves(next.workers, x, i);
        }
      }
      forall a, b, i | Reserves(next.workers, a, i) && Reserves(next.workers, b, i)
        ensures a == b
      {
        if a != id && b != id { assert Reserves(w.workers, a, i) && Reserves(w.workers, b, i); }
      }
    }
  }

  lemma ReleaseKeepsReserved(w: World, id: Wid)
    requires Reserved(w) && id in w.workers
    ensures Reserved(Perform(w, id, Release))
  {
    var next := Perform(w, id, Release);
    var iface := w.workers[id].iface;
    assert Reserves(w.workers, id, iface);
    forall x | x in next.workers
      ensures next.workers[x].iface in next.procs.busy
    {
      assert Reserves(w.workers, x, w.workers[x].iface);
    }
    forall i | i in next.procs.busy
      ensures exists x :: Reserves(next.workers, x, i)
    {
      var x :| Reserves(w.workers, x, i);
      assert Reserves(next.workers, x, i);
    }
    forall a, b, i | Reserves(next.workers, a, i) && Reserves(next.workers, b, i)
      ensures a == b
    {
      assert Reserves(w.workers, a, i) && Reserves(w.workers, b, i);
    }
  }

  lemma RequestKeepsReserved(w: World, id: Wid, eff: Effect)
    requires Reserved(w) && id in w.workers
    ensures Reserved(Perform(w, id, eff))
  {
    if eff.Release? { ReleaseKeepsReserved(w, id); } else { SamePlacesReserved(w, Perform(w, id, eff)); }
  }

  lemma EmptyReserved(w: World)
    requires w.workers == map[] && w.procs.busy == {} && (w.procs.closing <==> !w.sweep.NoSweep?)
    ensures Reserved(w)
  {
  }

  lemma SweepKeepsReserved(w: World, fail: bool, pick: Iface, extra: set<Iface>)
    requires Reserved(w)
    ensures Reserved(SweepStep(w, fail, pick, extra))
  {
    var next := SweepStep(w, fail, pick, extra);
    if w.procs.busy == {} {
      assert w.workers != map[] ==> exists id :: id in w.workers;
      EmptyReserved(next);
    }
  }

  lemma ExitKeepsReserved(w: World, gen: Gen, failed: bool)
    requires Reserved(w)
    ensures Reserved(ExitStep(w, gen, failed))
  {
  }

  // ---- The admission lock -------------------------------------------------------------------------

  ghost predicate OneAdmitted(w: World) {
    && (w.admission.Some? ==> w.admission.value in w.workers && Holds(w.workers[w.admission.value].pc))
    && (forall id | id in w.workers && Holds(w.workers[id].pc) :: w.admission == Some(id))
  }

  lemma RequestKeepsAdmission(w: World, id: Wid, eff: Effect)
    requires OneAdmitted(w) && id in w.workers && Follows(w, id, eff)
    ensures OneAdmitted(Perform(w, id, eff))
  {
  }

  // ---- Children -----------------------------------------------------------------------------------

  /** The registered entries are exactly the children not yet reaped, each under its own interface. */
  ghost predicate Registered(w: World) {
    && (forall i | i in w.procs.members :: w.procs.members[i] in w.live && w.live[w.procs.members[i]].iface == i)
    && (forall g | g in w.live :: g < w.nextGen && w.live[g].iface in w.procs.members && w.procs.members[w.live[g].iface] == g)
  }

  lemma RequestKeepsRegistered(w: World, id: Wid, eff: Effect)
    requires Registered(w) && id in w.workers && Follows(w, id, eff)
    ensures Registered(Perform(w, id, eff))
  {
  }

  lemma ExitKeepsRegistered(w: World, gen: Gen, failed: bool)
    requires Registered(w)
    ensures Registered(ExitStep(w, gen, failed))
  {
  }

  // ---- Where requests stand -----------------------------------------------------------------------

  /** The checks passed so far still hold of every other member. */
  predicate Cleared(w: World, iface: Iface, cfg: Config, todo: set<Iface>) {
    forall o | o in w.procs.members && o != iface && o !in todo :: !cfg.killSwitch && o !in w.protected
  }

  predicate PlaceOk(w: World, iface: Iface, pc: Pc) {
    match pc
    case Waiting(_, gen) => iface in w.procs.members ==> w.procs.members[iface] == gen
    case Cleaning(_, _) => iface !in w.procs.members
    case Checking(cfg, todo) => Cleared(w, iface, cfg, todo)
    case Checked(cfg) => Cleared(w, iface, cfg, {})
    case Launching(cfg) => Cleared(w, iface, cfg, {}) && iface !in w.procs.members
    case Launched(cfg) => Guarded(w, iface) ==> Requested(cfg)
    case _ => true
  }

  predicate Guarded(w: World, iface: Iface) {
    iface in w.procs.members && w.procs.members[iface] in w.live && w.live[w.procs.members[iface]].guarded
  }

  ghost predicate Placed(w: World) {
    forall id | id in w.workers :: PlaceOk(w, w.workers[id].iface, w.workers[id].pc)
  }

  lemma OwnPlace(w: World, id: Wid, eff: Effect)
    requires Registered(w) && Placed(w) && id in w.workers && Follows(w, id, eff) && !eff.Release?
    ensures
      var next := Perform(w, id, eff);
      PlaceOk(next, next.workers[id].iface, next.workers[id].pc)
  {
    var pc := w.workers[id].pc;
    assert PlaceOk(w, w.workers[id].iface, pc);
    if eff.Move? && eff.pc.Checking? && pc.Checking? {
      assert forall o | o in pc.todo && o !in eff.pc.todo :: o in pc.todo - eff.pc.todo;
    }
  }

  lemma OtherPlace(w: World, id: Wid, eff: Effect, x: Wid)
    requires Reserved(w) && OneAdmitted(w) && Registered(w) && Placed(w)
    requires id in w.workers && Follows(w, id, eff) && x in w.workers && x != id
    ensures
      var next := Perform(w, id, eff);
      x in next.workers && PlaceOk(next, next.workers[x].iface, next.workers[x].pc)
  {
    var iface := w.workers[id].iface;
    assert PlaceOk(w, w.workers[x].iface, w.workers[x].pc);
    assert w.workers[x].iface != iface by {
      assert Reserves(w.workers, id, iface);
      assert w.workers[x].iface == iface ==> Reserves(w.workers, x, iface);
    }
  }

  lemma RequestKeepsPlaced(w: World, id: Wid, eff: Effect)
    requires Reserved(w) && OneAdmitted(w) && Registered(w) && Placed(w) && id in w.workers && Follows(w, id, eff)
    ensures Placed(Perform(w, id, eff))
  {
    var next := Perform(w, id, eff);
    forall x | x in next.workers
      ensures PlaceOk(next, next.workers[x].iface, next.workers[x].pc)
    {
      if x == id { OwnPlace(w, id, eff); } else { OtherPlace(w, id, eff, x); }
    }
  }

  lemma ExitKeepsPlaced(w: World, gen: Gen, failed: bool)
    requires Registered(w) && Placed(w)
    ensures Placed(ExitStep(w, gen, failed))
  {
  }

  // ---- The kill switch ----------------------------------------------------------------------------

  /** A child started with protection requested runs alone. */
  ghost predicate Exclusive(w: World) {
    forall i, j | i in w.procs.members && j in w.procs.members && i != j :: !Guarded(w, i)
  }

  /** The request that started the child has yet to record its protection. */
  predicate Recording(w: World, iface: Iface) {
    && w.admission.Some? && w.admission.value in w.workers
    && w.workers[w.admission.value].iface == iface && w.workers[w.admission.value].pc.Launched?
  }

  ghost predicate Recorded(w: World) {
    forall i | Guarded(w, i) :: i in w.protected || Recording(w, i)
  }

  lemma SpawnKeepsExclusive(w: World, id: Wid, cfg: Config)
    requires OneAdmitted(w) && Registered(w) && Placed(w) && Exclusive(w) && Recorded(w)
    requires id in w.workers && Follows(w, id, Spawn(cfg))
    ensures Exclusive(PerformSpawn(w, id, cfg))
  {
  }

  lemma RequestKeepsExclusive(w: World, id: Wid, eff: Effect)
    requires OneAdmitted(w) && Registered(w) && Placed(w) && Exclusive(w) && Recorded(w)
    requires id in w.workers && Follows(w, id, eff)
    ensures Exclusive(Perform(w, id, eff))
  {
    if eff.Spawn? {
      SpawnKeepsExclusive(w, id, eff.cfg);
    } else {
      assert forall i :: Guarded(Perform(w, id, eff), i) <==> Guarded(w, i);
    }
  }

  lemma RequestKeepsRecorded(w: World, id: Wid, eff: Effect)
    requires OneAdmitted(w) && Registered(w) && Placed(w) && Recorded(w)
    requires id in w.workers && Follows(w, id, eff)
    ensures Recorded(Perform(w, id, eff))
  {
  }

  lemma ExitKeepsExclusive(w: World, gen: Gen, failed: bool)
    requires Registered(w) && Exclusive(w) && Recorded(w)
    ensures Exclusive(ExitStep(w, gen, failed)) && Recorded(ExitStep(w, gen, failed))
  {
  }

  // ---- Obligations and shutdown ---------------------------------------------------------------------

  lemma RequestKeepsAccounts(w: World, id: Wid, eff: Effect)
    requires Placed(w) && Accounted(w.procs) && id in w.workers && Follows(w, id, eff)
    ensures Accounted(Perform(w, id, eff).procs)
  {
  }

  /** Unless some interface failed, every obligation left is still to be visited. */
  predicate SweepOk(w: World) {
    match w.sweep
    case NoSweep => true
    case Quiesced => true
    case Next(todo, failed) => failed || w.procs.cleanup <= todo
    case SweepWaiting(iface, gen, todo, failed) =>
      (failed || w.procs.cleanup <= todo + {iface}) && (iface in w.procs.members ==> w.procs.members[iface] == gen)
    case SweepCleaning(iface, _, todo, failed) =>
      (failed || w.procs.cleanup <= todo + {iface}) && iface !in w.procs.members
    case Committed => w.procs.cleanup == {}
  }

  lemma SweepKeepsSweep(w: World, fail: bool, pick: Iface, extra: set<Iface>)
    requires Registered(w) && Accounted(w.procs) && SweepOk(w)
    ensures SweepOk(SweepStep(w, fail, pick, extra))
  {
  }

  lemma SweepKeepsAccounts(w: World, fail: bool, pick: Iface, extra: set<Iface>)
    requires Accounted(w.procs) && SweepOk(w)
    ensures Accounted(SweepStep(w, fail, pick, extra).procs)
  {
  }

  /** No request runs beside a shutdown. */
  lemma QuietUnderSweep(w: World, id: Wid)
    requires Reserved(w) && id in w.workers
    ensures w.sweep.NoSweep?
  {
  }

  // ---- Every run --------------------------------------------------------------------------------------

  ghost predicate Inv(w: World) {
    && Reserved(w) && OneAdmitted(w) && Registered(w) && Placed(w)
    && Exclusive(w) && Recorded(w) && Accounted(w.procs) && SweepOk(w)
  }

  lemma RequestKeepsInv(w: World, id: Wid, eff: Effect)
    requires Inv(w) && id in w.workers && Follows(w, id, eff)
    ensures Inv(Perform(w, id, eff))
  {
    RequestKeepsReserved(w, id, eff);
    RequestKeepsAdmission(w, id, eff);
    RequestKeepsRegistered(w, id, eff);
    RequestKeepsPlaced(w, id, eff);
    RequestKeepsExclusive(w, id, eff);
    RequestKeepsRecorded(w, id, eff);
    RequestKeepsAccounts(w, id, eff);
    QuietUnderSweep(w, id);
  }

  lemma ExitKeepsInv(w: World, gen: Gen, failed: bool)
    requires Inv(w)
    ensures Inv(ExitStep(w, gen, failed))
  {
    ExitKeepsReserved(w, gen, failed);
    ExitKeepsRegistered(w, gen, failed);
    ExitKeepsPlaced(w, gen, failed);
    ExitKeepsExclusive(w, gen, failed);
  }

  ghost predicate Children(w: World) {
    OneAdmitted(w) && Registered(w) && Placed(w) && Exclusive(w) && Recorded(w)
  }

  predicate SameCore(w: World, next: World) {
    && next.procs.members == w.procs.members && next.live == w.live && next.nextGen == w.nextGen
    && next.protected == w.protected && next.admission == w.admission && next.workers == w.workers
  }

  lemma SameChildren(w: World, next: World)
    requires Children(w) && SameCore(w, next)
    ensures Children(next)
  {
  }

  lemma EnterKeepsChildren(w: World, id: Wid, iface: Iface, goal: Goal)
    requires Children(w)
    ensures Children(EnterStep(w, id, iface, goal))
  {
  }

  lemma EnterKeepsInv(w: World, id: Wid, iface: Iface, goal: Goal)
    requires Inv(w)
    ensures Inv(EnterStep(w, id, iface, goal))
  {
    EnterKeepsReserved(w, id, iface, goal);
    EnterKeepsChildren(w, id, iface, goal);
  }

  lemma SweepFrame(w: World, fail: bool, pick: Iface, extra: set<Iface>)
    ensures SameCore(w, SweepStep(w, fail, pick, extra))
  {
  }

  lemma SweepKeepsChildren(w: World, fail: bool, pick: Iface, extra: set<Iface>)
    requires Children(w)
    ensures Children(SweepStep(w, fail, pick, extra))
  {
    SweepFrame(w, fail, pick, extra);
    SameChildren(w, SweepStep(w, fail, pick, extra));
  }

  lemma SweepKeepsInv(w: World, fail: bool, pick: Iface, extra: set<Iface>)
    requires Inv(w)
    ensures Inv(SweepStep(w, fail, pick, extra))
  {
    SweepKeepsReserved(w, fail, pick, extra);
    SweepKeepsAccounts(w, fail, pick, extra);
    SweepKeepsSweep(w, fail, pick, extra);
    SweepKeepsChildren(w, fail, pick, extra);
  }

  lemma EditKeepsInv(w: World, configs: map<Iface, Config>)
    requires Inv(w)
    ensures Inv(w.(configs := configs))
  {
    SamePlacesReserved(w, w.(configs := configs));
    SameChildren(w, w.(configs := configs));
  }

  lemma StepKeepsInv(w: World, e: Event)
    requires Inv(w)
    ensures Inv(Apply(w, e))
  {
    match e
    case Request(id, iface, goal) => EnterKeepsInv(w, id, iface, goal);
    case Step(id, fail, other) =>
      if id in w.workers {
        DecideFollows(w, id, fail, other);
        RequestKeepsInv(w, id, Decide(w, id, fail, other));
      }
    case Shutdown(fail, pick, extra) => SweepKeepsInv(w, fail, pick, extra);
    case Exit(gen, failed) => ExitKeepsInv(w, gen, failed);
    case Edit(configs) => EditKeepsInv(w, configs);
  }

  lemma {:induction false} ReachableInv(run: seq<Event>, n: nat)
    requires n <= |run|
    ensures Inv(After(run, n))
  {
    if n > 0 {
      ReachableInv(run, n - 1);
      StepKeepsInv(After(run, n - 1), run[n - 1]);
    }
  }

  /** In every reachable state at most one request holds an interface's reservation, and none runs beside a
      shutdown; an interface has at most one live child; and each live child has its entry, its
      cleanup obligation, and no exit status left over from an earlier one. */
  lemma LifecycleIsSafe(run: seq<Event>, n: nat)
    requires n <= |run|
    ensures
      var w := After(run, n);
      && (forall a, b | a in w.workers && b in w.workers && w.workers[a].iface == w.workers[b].iface :: a == b)
      && w.procs.busy == (set id | id in w.workers :: w.workers[id].iface)
      && (w.procs.closing ==> w.workers == map[])
      && (forall g, h | g in w.live && h in w.live && w.live[g].iface == w.live[h].iface :: g == h)
      && (forall g | g in w.live :: w.live[g].iface in w.procs.members && w.live[g].iface in w.procs.cleanup && w.live[g].iface !in w.procs.exits)
  {
    ReachableInv(run, n);
    var w := After(run, n);
    forall a, b | a in w.workers && b in w.workers && w.workers[a].iface == w.workers[b].iface
      ensures a == b
    {
      assert Reserves(w.workers, a, w.workers[a].iface) && Reserves(w.workers, b, w.workers[a].iface);
    }
    assert w.procs.closing ==> forall id | id in w.workers :: false;
  }

  /** A finishing child takes its own entry away and no other: the entry under its interface is its own,
      and every other stays. */
  lemma FinishTakesOwnEntry(run: seq<Event>, n: nat, gen: Gen, failed: bool)
    requires n <= |run| && gen in After(run, n).live
    ensures
      var w, next := After(run, n), ExitStep(After(run, n), gen, failed);
      forall i :: i in w.procs.members && w.procs.members[i] != gen <==> i in next.procs.members && next.procs.members[i] == w.procs.members[i]
  {
    ReachableInv(run, n);
  }

  /** Kill-switch exclusivity: in every reachable state, a live child that was started with protection
      requested is the only live child, whatever requests race, whatever the files say by now and
      whichever children have exited. */
  lemma KillSwitchIsExclusive(run: seq<Event>, n: nat, gen: Gen)
    requires n <= |run| && gen in After(run, n).live && After(run, n).live[gen].guarded
    ensures After(run, n).live.Keys == {gen}
  {
    ReachableInv(run, n);
    var w := After(run, n);
    assert Guarded(w, w.live[gen].iface);
    var iface := w.live[gen].iface;
    assert forall g | g in w.live :: w.live[g].iface in w.procs.members;
    assert forall i | i in w.procs.members :: i == iface;
  }

  lemma CommittedStep(w: World, e: Event)
    requires w.sweep.Committed?
    ensures Apply(w, e).sweep.Committed?
  {
  }

  lemma {:induction false} CommitStays(run: seq<Event>, m: nat, n: nat)
    requires m <= n <= |run| && After(run, m).sweep.Committed?
    ensures After(run, n).sweep.Committed?
    decreases n
  {
    if m < n {
      CommitStays(run, m, n - 1);
      CommittedStep(After(run, n - 1), run[n - 1]);
    }
  }

  /** Once a shutdown has committed, then and ever after there is no member, no live child and no
      obligation, and no request gets a reservation: nothing is started again. */
  lemma CommittedShutdownIsFinal(run: seq<Event>, m: nat, n: nat)
    requires m <= n <= |run| && After(run, m).sweep.Committed?
    ensures
      var w := After(run, n);
      w.procs.members == map[] && w.live == map[] && w.procs.cleanup == {} && w.workers == map[] && w.procs.closing
  {
    CommitStays(run, m, n);
    ReachableInv(run, n);
    var w := After(run, n);
    assert forall i | i in w.procs.members :: i in w.procs.cleanup;
    assert w.workers != map[] ==> exists id :: id in w.workers;
  }
}
