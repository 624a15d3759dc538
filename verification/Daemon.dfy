/** The daemon's lifecycle protocol as a state machine: any number of concurrent requests from
    `node/src/daemon.rs` over the reservations of `node/src/daemon_process.rs`, with children exiting and
    configuration files changing at any moment. */
module Daemon {
  import opened Common
  import opened Processes

  type Wid = nat

  /** `useExit`: the file names an exit other than "off". */
  datatype Config = Config(killSwitch: bool, useExit: bool)

  predicate Requested(c: Config) {
    c.killSwitch && c.useExit
  }

  /** A child not yet reaped, and whether it was started with protection requested. */
  datatype Child = Child(iface: Iface, guarded: bool)

  datatype Goal = Up | Down | Restart | Leave

  /** Where a request stands. All hold the interface's reservation; those from Admitted on also hold the
      admission lock, except on behalf of Leave. */
  datatype Pc =
    | Entered(goal: Goal)
    | Admitted(goal: Goal)
    | Stopping(goal: Goal)
    | Waiting(goal: Goal, gen: Gen)
    | Cleaning(goal: Goal, ok: bool)
    | Loading
    | Loaded(cfg: Config)
    | Checking(cfg: Config, todo: set<Iface>)
    | Checked(cfg: Config)
    | Launching(cfg: Config)
    | Launched(cfg: Config)
    | Leaving(admitted: bool)

  datatype Worker = Worker(iface: Iface, pc: Pc)

  /** The shutdown request holding the global reservation. */
  datatype Sweep =
    | NoSweep
    | Quiesced
    | Next(todo: set<Iface>, failed: bool)
    | SweepWaiting(iface: Iface, gen: Gen, todo: set<Iface>, failed: bool)
    | SweepCleaning(iface: Iface, ok: bool, todo: set<Iface>, failed: bool)
    | Committed

  datatype World = World(
    procs: Procs,
    live: map<Gen, Child>,
    nextGen: Gen,
    protected: set<Iface>,
    configs: map<Iface, Config>,
    admission: Option<Wid>,
    workers: map<Wid, Worker>,
    sweep: Sweep)

  const BOOT: World := World(NO_PROCS, map[], 0, {}, map[], None, map[], NoSweep)

  predicate Holds(pc: Pc) {
    match pc
    case Entered(_) => false
    case Stopping(goal) => !goal.Leave?
    case Waiting(goal, _) => !goal.Leave?
    case Cleaning(goal, _) => !goal.Leave?
    case Leaving(admitted) => admitted
    case _ => true
  }

  // ---- Steps of a request -------------------------------------------------------------------------

  /** What one step of a request changes besides its own place. */
  datatype Effect =
    | Stay
    | Move(pc: Pc)
    | Admit(goal: Goal)
    | Signal(goal: Goal)
    | Settle(pc: Pc)
    | Spawn(cfg: Config)
    | SpawnFailed
    | Record(cfg: Config)
    | Unlock
    | Release

  predicate EndedBadly(p: Procs, iface: Iface) {
    iface in p.exits && p.exits[iface]
  }

  /** The admission lock is only tried. */
  function OnEntered(w: World, goal: Goal): Effect {
    if goal.Leave? then Move(Stopping(goal))
    else if w.admission.Some? then Move(Leaving(false))
    else Admit(goal)
  }

  function OnAdmitted(goal: Goal, fail: bool): Effect {
    if fail || goal.Leave? then Move(Leaving(true)) else Move(if goal.Up? then Loading else Stopping(goal))
  }

  function OnStopping(w: World, iface: Iface, goal: Goal): Effect {
    if iface in w.procs.members then Signal(goal) else Move(Cleaning(goal, !EndedBadly(w.procs, iface)))
  }

  /** The wait ends when that child is reaped, or is given up. */
  function OnWaiting(w: World, iface: Iface, goal: Goal, gen: Gen, fail: bool): Effect {
    if gen !in w.live then Move(Cleaning(goal, !EndedBadly(w.procs, iface)))
    else if fail then Move(Leaving(!goal.Leave?))
    else Stay
  }

  function OnCleaning(goal: Goal, ok: bool, fail: bool): Effect {
    if !ok || fail then Move(Leaving(!goal.Leave?))
    else Settle(if goal.Restart? then Loading else Leaving(!goal.Leave?))
  }

  /** One other member of the snapshot is looked at, its file read as it is now. */
  function OnChecking(w: World, cfg: Config, todo: set<Iface>, other: Iface): Effect {
    if todo == {} then Move(Checked(cfg))
    else if other !in todo then Stay
    else if cfg.killSwitch || other !in w.configs || other in w.protected || Requested(w.configs[other]) then Move(Leaving(true))
    else Move(Checking(cfg, todo - {other}))
  }

  function OnLaunching(w: World, iface: Iface, cfg: Config, fail: bool): Effect {
    if !MaySpawn(w.procs, iface) then Move(Leaving(true)) else if fail then SpawnFailed else Spawn(cfg)
  }

  /** `fail` stands for any failure the step can meet outside the model; `other` is the member a check
      happens to look at. */
  function Decide(w: World, id: Wid, fail: bool, other: Iface): Effect
    requires id in w.workers
  {
    var iface := w.workers[id].iface;
    match w.workers[id].pc
    case Entered(goal) => OnEntered(w, goal)
    case Admitted(goal) => OnAdmitted(goal, fail)
    case Stopping(goal) => OnStopping(w, iface, goal)
    case Waiting(goal, gen) => OnWaiting(w, iface, goal, gen, fail)
    case Cleaning(goal, ok) => OnCleaning(goal, ok, fail)
    case Loading => if fail || iface !in w.configs then Move(Leaving(true)) else Move(Loaded(w.configs[iface]))
    case Loaded(cfg) => if fail then Move(Leaving(true)) else Move(Checking(cfg, w.procs.members.Keys - {iface}))
    case Checking(cfg, todo) => OnChecking(w, cfg, todo, other)
    case Checked(cfg) => if fail || iface in w.procs.members then Move(Leaving(true)) else Move(Launching(cfg))
    case Launching(cfg) => OnLaunching(w, iface, cfg, fail)
    case Launched(cfg) => Record(cfg)
    case Leaving(admitted) => if admitted then Unlock else Release
  }

  function At(w: World, id: Wid, pc: Pc): World
    requires id in w.workers
  {
    w.(workers := w.workers[id := Worker(w.workers[id].iface, pc)])
  }

  function PerformSpawn(w: World, id: Wid, cfg: Config): World
    requires id in w.workers
  {
    var iface := w.workers[id].iface;
    At(w, id, Launched(cfg)).(
      procs := SpawnedProcs(w.procs, iface, w.nextGen),
      live := w.live[w.nextGen := Child(iface, Requested(cfg))],
      nextGen := w.nextGen + 1)
  }

  function PerformRecord(w: World, id: Wid, cfg: Config): World
    requires id in w.workers
  {
    var iface := w.workers[id].iface;
    At(w, id, Leaving(true)).(protected := if Requested(cfg) then w.protected + {iface} else w.protected - {iface})
  }

  /** The admission lock is released before the interface. */
  function Perform(w: World, id: Wid, eff: Effect): World
    requires id in w.workers
  {
    var iface := w.workers[id].iface;
    match eff
    case Stay => w
    case Move(pc) => At(w, id, pc)
    case Admit(goal) => At(w, id, Admitted(goal)).(admission := Some(id))
    case Signal(goal) =>
      if iface in w.procs.members then
        At(w, id, Waiting(goal, w.procs.members[iface])).(procs := SignalledProcs(w.procs, iface))
      else w
    case Settle(pc) => At(w, id, pc).(procs := CleanedProcs(w.procs, iface))
    case Spawn(cfg) => PerformSpawn(w, id, cfg)
    case SpawnFailed => At(w, id, Leaving(true)).(procs := w.procs.(exits := w.procs.exits[iface := false]))
    case Record(cfg) => PerformRecord(w, id, cfg)
    case Unlock => At(w, id, Leaving(false)).(admission := None)
    case Release => w.(procs := w.procs.(busy := w.procs.busy - {iface}), workers := w.workers - {id})
  }

  function EnterStep(w: World, id: Wid, iface: Iface, goal: Goal): World {
    if id in w.workers || !MayEnter(w.procs, iface) then w
    else w.(procs := w.procs.(busy := w.procs.busy + {iface}), workers := w.workers[id := Worker(iface, Entered(goal))])
  }

  // ---- Shutdown, exits and edits --------------------------------------------------------------------

  /** `extra` are interfaces known only from configuration files. */
  function SweepStep(w: World, fail: bool, pick: Iface, extra: set<Iface>): World {
    match w.sweep
    case NoSweep =>
      if MayQuiesce(w.procs) then w.(procs := w.procs.(closing := true), sweep := Quiesced) else w
    case Quiesced => w.(sweep := Next(w.procs.cleanup + extra, false))
    case Next(todo, failed) =>
      if todo == {} then
        if failed then w.(procs := w.procs.(closing := false), sweep := NoSweep) else w.(sweep := Committed)
      else if pick !in todo then w
      else if pick in w.procs.members then
        w.(procs := SignalledProcs(w.procs, pick), sweep := SweepWaiting(pick, w.procs.members[pick], todo - {pick}, failed))
      else
        w.(sweep := SweepCleaning(pick, !EndedBadly(w.procs, pick), todo - {pick}, failed))
    case SweepWaiting(iface, gen, todo, failed) =>
      if gen !in w.live then
        w.(sweep := SweepCleaning(iface, !EndedBadly(w.procs, iface), todo, failed))
      else if fail then w.(sweep := Next(todo, true))
      else w
    case SweepCleaning(iface, ok, todo, failed) =>
      if !ok || fail then w.(sweep := Next(todo, true))
      else w.(procs := CleanedProcs(w.procs, iface), sweep := Next(todo, failed))
    case Committed => w
  }

  /** A supervisor finishes: it drops whatever entry its interface has. */
  function ExitStep(w: World, gen: Gen, failed: bool): World {
    if gen !in w.live then w
    else w.(procs := FinishedProcs(w.procs, w.live[gen].iface, failed), live := w.live - {gen})
  }

  datatype Event =
    | Request(id: Wid, iface: Iface, goal: Goal)
    | Step(id: Wid, fail: bool, other: Iface)
    | Shutdown(fail: bool, pick: Iface, extra: set<Iface>)
    | Exit(gen: Gen, failed: bool)
    | Edit(configs: map<Iface, Config>)

  function Apply(w: World, e: Event): World {
    match e
    case Request(id, iface, goal) => EnterStep(w, id, iface, goal)
    case Step(id, fail, other) => if id in w.workers then Perform(w, id, Decide(w, id, fail, other)) else w
    case Shutdown(fail, pick, extra) => SweepStep(w, fail, pick, extra)
    case Exit(gen, failed) => ExitStep(w, gen, failed)
    case Edit(configs) => w.(configs := configs)
  }

  function After(run: seq<Event>, n: nat): World
    requires n <= |run|
  {
    if n == 0 then BOOT else Apply(After(run, n - 1), run[n - 1])
  }
}
