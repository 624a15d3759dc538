/** Ownership of member processes and the lifecycle reservations around them: `node/src/daemon_process.rs`.
    Everything here happens under one mutex. */
module Processes {
  import opened Common

  type Iface = nat
  /** One spawned child and its supervisor. */
  type Gen = nat

  /** `exits` says of the last finished child of an interface whether it ended badly. */
  datatype Procs = Procs(
    members: map<Iface, Gen>,
    stopping: set<Gen>,
    exits: map<Iface, bool>,
    busy: set<Iface>,
    cleanup: set<Iface>,
    closing: bool)

  const NO_PROCS: Procs := Procs(map[], {}, map[], {}, {}, false)

  predicate MayEnter(p: Procs, iface: Iface) {
    !p.closing && iface !in p.busy
  }

  predicate MayQuiesce(p: Procs) {
    !p.closing && p.busy == {}
  }

  predicate MaySpawn(p: Procs, iface: Iface) {
    !p.closing && iface !in p.members
  }

  function SpawnedProcs(p: Procs, iface: Iface, gen: Gen): Procs {
    p.(members := p.members[iface := gen], exits := p.exits - {iface}, cleanup := p.cleanup + {iface})
  }

  function FinishedProcs(p: Procs, iface: Iface, failed: bool): Procs {
    p.(members := p.members - {iface}, exits := p.exits[iface := failed])
  }

  function SignalledProcs(p: Procs, iface: Iface): Procs {
    if iface in p.members then p.(stopping := p.stopping + {p.members[iface]}) else p
  }

  function CleanedProcs(p: Procs, iface: Iface): Procs {
    p.(cleanup := p.cleanup - {iface})
  }

  /** A child is registered only with an obligation to clean up after it and no old exit status. */
  predicate Accounted(p: Procs) {
    p.members.Keys <= p.cleanup && p.members.Keys !! p.exits.Keys && (p.closing ==> p.busy == {})
  }

  datatype SpawnResult = Started | AlreadyUp | Busy | Failed

  class Registry {
    var members: map<Iface, Gen>
    var stopping: set<Gen>
    var exits: map<Iface, bool>
    var busy: set<Iface>
    var cleanup: set<Iface>
    var closing: bool
    var nextGen: Gen

    function Value(): Procs
      reads this
    {
      Procs(members, stopping, exits, busy, cleanup, closing)
    }

    constructor ()
      ensures Value() == NO_PROCS && nextGen == 0
    {
      members, stopping, exits, busy, cleanup, closing, nextGen := map[], {}, map[], {}, {}, false, 0;
    }

    method Operation(iface: Iface) returns (ok: bool)
      requires Accounted(Value())
      modifies this`busy
      ensures ok == MayEnter(old(Value()), iface) && Accounted(Value())
      ensures busy == old(busy) + if ok then {iface} else {}
    {
      ok := !closing && iface !in busy;
      if ok { busy := busy + {iface}; }
    }

    method Quiesce() returns (ok: bool)
      requires Accounted(Value())
      modifies this`closing
      ensures ok == MayQuiesce(old(Value())) && Accounted(Value())
      ensures closing == (old(closing) || ok)
    {
      ok := !closing && busy == {};
      if ok { closing := true; }
    }

    /** Dropping a reservation: an interface's frees the interface; the global one reopens the daemon
        unless it was committed. */
    method Drop(iface: Option<Iface>, committed: bool)
      requires Accounted(Value())
      modifies this`busy, this`closing
      ensures Accounted(Value())
      ensures busy == old(busy) - if iface.Some? then {iface.value} else {}
      ensures closing == (old(closing) && (iface.Some? || committed))
    {
      if iface.Some? { busy := busy - {iface.value}; }
      else if !committed { closing := false; }
    }

    /** Every child gets a generation of its own. */
    method Spawn(iface: Iface) returns (r: SpawnResult)
      requires Accounted(Value())
      modifies this`members, this`exits, this`cleanup, this`nextGen
      ensures Accounted(Value())
      ensures r.Started? ==> MaySpawn(old(Value()), iface) && Value() == SpawnedProcs(old(Value()), iface, old(nextGen)) && nextGen == old(nextGen) + 1
      ensures r.Failed? ==> MaySpawn(old(Value()), iface) && Value() == old(Value()).(exits := old(exits)[iface := false]) && nextGen == old(nextGen)
      ensures r.AlreadyUp? || r.Busy? ==> !MaySpawn(old(Value()), iface) && Value() == old(Value()) && nextGen == old(nextGen)
      ensures r.AlreadyUp? ==> iface in members && members[iface] !in stopping
    {
      if closing { return Busy; }
      if iface in members {
        return if members[iface] in stopping then Busy else AlreadyUp;
      }
      var started: bool := *;
      if !started {
        exits := exits[iface := false];
        return Failed;
      }
      exits := exits - {iface};
      cleanup := cleanup + {iface};
      members := members[iface := nextGen];
      nextGen := nextGen + 1;
      r := Started;
    }

    /** The supervisor of a child of iface has reaped it. */
    method Finish(iface: Iface, failed: bool)
      requires Accounted(Value())
      modifies this`members, this`exits
      ensures Value() == FinishedProcs(old(Value()), iface, failed) && Accounted(Value())
    {
      members := members - {iface};
      exits := exits[iface := failed];
    }

    method Signal(iface: Iface) returns (gen: Option<Gen>)
      modifies this`stopping
      ensures Value() == SignalledProcs(old(Value()), iface)
      ensures gen == if iface in members then Some(members[iface]) else None
    {
      if iface !in members { return None; }
      stopping := stopping + {members[iface]};
      gen := Some(members[iface]);
    }

    /** Settles the obligation; the books stay right as long as no child of iface is registered. */
    method Cleaned(iface: Iface)
      requires Accounted(Value())
      modifies this`cleanup
      ensures Value() == CleanedProcs(old(Value()), iface)
      ensures iface !in members ==> Accounted(Value())
    {
      cleanup := cleanup - {iface};
    }
  }
}
