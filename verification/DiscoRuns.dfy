/** Every run of probes across all peers of a node and the index they share: `node/src/disco.rs` with
    the peers' arrival and removal from `node/src/worker.rs` and `node/src/peer.rs`. */
module DiscoRuns {
  import opened Common
  import opened Disco

  /** Probes begun and answers taken, in order. */
  datatype Event =
    | Begun(peer: PeerKey, id: TxId, targets: seq<Addr>)
    | Answered(peer: PeerKey, id: TxId, from: Addr, now: U64)

  datatype Node = Node(peers: map<PeerKey, Pending>, routes: Index, clock: U64, log: seq<Event>)

  const START: Node := Node(map[], map[], 0, [])

  datatype Op =
    | Begin(peer: PeerKey, targets: seq<Addr>, nonce: Option<nat>)
    | Answer(peer: PeerKey, id: TxId, from: Addr)
    | AddPeer(peer: PeerKey)
    | DropPeer(peer: PeerKey)

  function BeginOn(w: Node, p: PeerKey, targets: seq<Addr>, nonce: Option<nat>, now: U64): Node {
    if p !in w.peers then w.(clock := now)
    else
      var s := StartProbe(p, w.peers[p], w.routes, targets, nonce, now);
      Node(w.peers[p := s.pending], s.routes, now, if s.id.Some? then w.log + [Begun(p, s.id.value, targets)] else w.log)
  }

  function AnswerOn(w: Node, p: PeerKey, id: TxId, from: Addr, now: U64): Node {
    if p !in w.peers || !IsPending(w.peers[p], id, from, now) then w.(clock := now)
    else Node(w.peers[p := w.peers[p] - {id}], w.routes - {id}, now, w.log + [Answered(p, id, from, now)])
  }

  /** Adding a known peer changes nothing. */
  function AddOn(w: Node, p: PeerKey, now: U64): Node {
    if p in w.peers then w.(clock := now) else w.(peers := w.peers[p := map[]], clock := now)
  }

  /** A dropped peer takes its index entries with it. */
  function DropOn(w: Node, p: PeerKey, now: U64): Node {
    if p !in w.peers then w.(clock := now)
    else w.(peers := w.peers - {p}, routes := map id | id in w.routes && w.routes[id].peer != p :: w.routes[id], clock := now)
  }

  function Apply(w: Node, op: Op, now: U64): Node {
    match op
    case Begin(p, targets, nonce) => BeginOn(w, p, targets, nonce, now)
    case Answer(p, id, from) => AnswerOn(w, p, id, from, now)
    case AddPeer(p) => AddOn(w, p, now)
    case DropPeer(p) => DropOn(w, p, now)
  }

  // ---- The index agrees with the peers ------------------------------------------------------------

  predicate Holds(peers: map<PeerKey, Pending>, p: PeerKey, id: TxId, expires: U64) {
    p in peers && id in peers[p] && peers[p][id].expires == expires
  }

  predicate RouteLive(w: Node, id: TxId) {
    id in w.routes && w.routes[id].expires >= w.clock
  }

  ghost predicate RoutesHeld(w: Node) {
    forall id | RouteLive(w, id) :: Holds(w.peers, w.routes[id].peer, id, w.routes[id].expires)
  }

  ghost predicate PendingRouted(w: Node) {
    forall p, id, e: U64 | Holds(w.peers, p, id, e) && e >= w.clock :: id in w.routes && w.routes[id] == Route(p, e)
  }

  ghost predicate Bounded(peers: map<PeerKey, Pending>) {
    forall p | p in peers :: |peers[p]| <= CAPACITY
  }

  lemma BeginKeepsIndex(w: Node, p: PeerKey, targets: seq<Addr>, nonce: Option<nat>, now: U64)
    requires RoutesHeld(w) && PendingRouted(w) && w.clock <= now
    ensures RoutesHeld(BeginOn(w, p, targets, nonce, now)) && PendingRouted(BeginOn(w, p, targets, nonce, now))
  {
    var w' := BeginOn(w, p, targets, nonce, now);
    forall id | RouteLive(w', id)
      ensures Holds(w'.peers, w'.routes[id].peer, id, w'.routes[id].expires)
    {
      if id in w.routes && w.routes[id] == w'.routes[id] { assert RouteLive(w, id); }
    }
    forall q, id, e: U64 | Holds(w'.peers, q, id, e) && e >= now
      ensures id in w'.routes && w'.routes[id] == Route(q, e)
    {
      if Holds(w.peers, q, id, e) {
        assert w.routes[id] == Route(q, e);
      }
    }
  }

  lemma AnswerKeepsIndex(w: Node, p: PeerKey, id: TxId, from: Addr, now: U64)
    requires RoutesHeld(w) && PendingRouted(w) && w.clock <= now
    ensures RoutesHeld(AnswerOn(w, p, id, from, now)) && PendingRouted(AnswerOn(w, p, id, from, now))
  {
    var w' := AnswerOn(w, p, id, from, now);
    if p in w.peers && IsPending(w.peers[p], id, from, now) {
      assert Holds(w.peers, p, id, w.peers[p][id].expires);
    }
    forall x | RouteLive(w', x)
      ensures Holds(w'.peers, w'.routes[x].peer, x, w'.routes[x].expires)
    {
      assert RouteLive(w, x);
    }
    forall q, x, e: U64 | Holds(w'.peers, q, x, e) && e >= now
      ensures x in w'.routes && w'.routes[x] == Route(q, e)
    {
      assert Holds(w.peers, q, x, e);
    }
  }

  lemma PeersKeepIndex(w: Node, p: PeerKey, now: U64)
    requires RoutesHeld(w) && PendingRouted(w) && w.clock <= now
    ensures RoutesHeld(AddOn(w, p, now)) && PendingRouted(AddOn(w, p, now))
    ensures RoutesHeld(DropOn(w, p, now)) && PendingRouted(DropOn(w, p, now))
  {
    forall w' | w' in {AddOn(w, p, now), DropOn(w, p, now)}
      ensures RoutesHeld(w') && PendingRouted(w')
    {
      forall x | RouteLive(w', x)
        ensures Holds(w'.peers, w'.routes[x].peer, x, w'.routes[x].expires)
      {
        assert RouteLive(w, x);
        assert Holds(w.peers, w.routes[x].peer, x, w.routes[x].expires);
      }
      forall q, x, e: U64 | Holds(w'.peers, q, x, e) && e >= now
        ensures x in w'.routes && w'.routes[x] == Route(q, e)
      {
        assert Holds(w.peers, q, x, e);
      }
    }
  }

  lemma StepKeepsIndex(w: Node, op: Op, now: U64)
    requires RoutesHeld(w) && PendingRouted(w) && w.clock <= now
    ensures RoutesHeld(Apply(w, op, now)) && PendingRouted(Apply(w, op, now))
  {
    match op
    case Begin(p, targets, nonce) => BeginKeepsIndex(w, p, targets, nonce, now);
    case Answer(p, id, from) => AnswerKeepsIndex(w, p, id, from, now);
    case AddPeer(p) => PeersKeepIndex(w, p, now);
    case DropPeer(p) => PeersKeepIndex(w, p, now);
  }

  lemma StartIsBounded(p: PeerKey, pending: Pending, routes: Index, targets: seq<Addr>, nonce: Option<nat>, now: U64)
    requires |pending| <= CAPACITY
    ensures |StartProbe(p, pending, routes, targets, nonce, now).pending| <= CAPACITY
  {
    SubsetSize(LivePending(pending, now).Keys, pending.Keys);
  }

  lemma ReplaceIsBounded(peers: map<PeerKey, Pending>, p: PeerKey, pending: Pending)
    requires Bounded(peers) && |pending| <= CAPACITY
    ensures Bounded(peers[p := pending])
  {
  }

  lemma StepKeepsBound(w: Node, op: Op, now: U64)
    requires Bounded(w.peers)
    ensures Bounded(Apply(w, op, now).peers)
  {
    var p := op.peer;
    if p in w.peers {
      var pending := w.peers[p];
      match op
      case Begin(_, targets, nonce) =>
        StartIsBounded(p, pending, w.routes, targets, nonce, now);
        ReplaceIsBounded(w.peers, p, StartProbe(p, pending, w.routes, targets, nonce, now).pending);
      case Answer(_, id, from) =>
        SubsetSize((pending - {id}).Keys, pending.Keys);
        ReplaceIsBounded(w.peers, p, pending - {id});
      case _ =>
    }
  }

  // ---- Each answer is owed to one probe -------------------------------------------------------------

  predicate About(e: Event, p: PeerKey, id: TxId) {
    e.peer == p && e.id == id
  }

  /** The last event of the log about peer p and id. */
  function Latest(log: seq<Event>, p: PeerKey, id: TxId): Option<Event> {
    if log == [] then None
    else if About(log[|log| - 1], p, id) then Some(log[|log| - 1])
    else Latest(log[..|log| - 1], p, id)
  }

  /** An answer follows, with no other answer in between, a probe that peer began with that id in the
      second the id names, toward the address that answered, at most 30 seconds before. */
  predicate Owed(earlier: seq<Event>, e: Event) {
    e.Answered? ==>
      match Latest(earlier, e.peer, e.id)
      case Some(Begun(_, _, targets)) => e.from in targets && e.now <= e.id.sent + WINDOW
      case _ => false
  }

  predicate AllOwed(log: seq<Event>) {
    log == [] || (AllOwed(log[..|log| - 1]) && Owed(log[..|log| - 1], log[|log| - 1]))
  }

  predicate Promised(log: seq<Event>, p: PeerKey, id: TxId, probe: Probe) {
    Latest(log, p, id) == Some(Begun(p, id, probe.targets)) && probe.expires == Expiry(id)
  }

  ghost predicate PendingLogged(w: Node) {
    forall p, id | p in w.peers && id in w.peers[p] :: Promised(w.log, p, id, w.peers[p][id])
  }

  lemma LogEvent(log: seq<Event>, e: Event)
    ensures AllOwed(log + [e]) <==> AllOwed(log) && Owed(log, e)
  {
  }

  /** A probe begun: every probe pending now was pending before, or is the new one. */
  lemma BegunIsLogged(w: Node, p: PeerKey, id: TxId, targets: seq<Addr>, pending: Pending, next: Node)
    requires PendingLogged(w) && p in w.peers
    requires forall x | x in pending && x != id :: x in w.peers[p] && pending[x] == w.peers[p][x]
    requires id in pending ==> pending[id] == Probe(targets, Expiry(id))
    requires next.peers == w.peers[p := pending] && next.log == w.log + [Begun(p, id, targets)]
    ensures PendingLogged(next)
  {
  }

  lemma BeginKeepsLog(w: Node, p: PeerKey, targets: seq<Addr>, nonce: Option<nat>, now: U64)
    requires AllOwed(w.log) && PendingLogged(w)
    ensures AllOwed(BeginOn(w, p, targets, nonce, now).log) && PendingLogged(BeginOn(w, p, targets, nonce, now))
  {
    if p in w.peers {
      var s := StartProbe(p, w.peers[p], w.routes, targets, nonce, now);
      if s.id.Some? {
        LogEvent(w.log, Begun(p, s.id.value, targets));
        BegunIsLogged(w, p, s.id.value, targets, s.pending, BeginOn(w, p, targets, nonce, now));
      }
    }
  }

  lemma AnswerKeepsLog(w: Node, p: PeerKey, id: TxId, from: Addr, now: U64)
    requires AllOwed(w.log) && PendingLogged(w)
    ensures AllOwed(AnswerOn(w, p, id, from, now).log) && PendingLogged(AnswerOn(w, p, id, from, now))
  {
  }

  lemma StepKeepsLog(w: Node, op: Op, now: U64)
    requires AllOwed(w.log) && PendingLogged(w)
    ensures AllOwed(Apply(w, op, now).log) && PendingLogged(Apply(w, op, now))
  {
    match op
    case Begin(p, targets, nonce) => BeginKeepsLog(w, p, targets, nonce, now);
    case Answer(p, id, from) => AnswerKeepsLog(w, p, id, from, now);
    case AddPeer(p) =>
    case DropPeer(p) =>
  }

  // ---- Runs -------------------------------------------------------------------------------------------

  datatype Step = Step(op: Op, now: U64)

  predicate Clocked(run: seq<Step>) {
    forall i, j | 0 <= i <= j < |run| :: run[i].now <= run[j].now
  }

  function After(run: seq<Step>, n: nat): Node
    requires n <= |run|
  {
    if n == 0 then START else Apply(After(run, n - 1), run[n - 1].op, run[n - 1].now)
  }

  ghost predicate Inv(w: Node) {
    RoutesHeld(w) && PendingRouted(w) && Bounded(w.peers) && AllOwed(w.log) && PendingLogged(w)
  }

  lemma {:induction false} ReachableInv(run: seq<Step>, n: nat)
    requires n <= |run| && Clocked(run)
    ensures Inv(After(run, n)) && After(run, n).clock == if n == 0 then 0 else run[n - 1].now
  {
    if n > 0 {
      ReachableInv(run, n - 1);
      var w, op, now := After(run, n - 1), run[n - 1].op, run[n - 1].now;
      StepKeepsIndex(w, op, now);
      StepKeepsBound(w, op, now);
      StepKeepsLog(w, op, now);
    }
  }

  /** After every run, at every later time, the index names a peer for an id if and only if that peer
      has the id outstanding and unexpired, so an answer is handed to the one peer that can take it;
      and no peer has more than 128 probes outstanding. */
  lemma IndexNamesTheHolder(run: seq<Step>, p: PeerKey, id: TxId, now: U64)
    requires Clocked(run) && (run != [] ==> run[|run| - 1].now <= now)
    ensures
      var w := After(run, |run|);
      && (Owner(w.routes, id, now) == Some(p) <==> p in w.peers && id in w.peers[p] && w.peers[p][id].expires >= now)
      && (p in w.peers ==> |w.peers[p]| <= CAPACITY)
  {
    ReachableInv(run, |run|);
    var w := After(run, |run|);
    if Owner(w.routes, id, now) == Some(p) {
      assert RouteLive(w, id);
    }
    if p in w.peers && id in w.peers[p] && w.peers[p][id].expires >= now {
      assert Holds(w.peers, p, id, w.peers[p][id].expires);
    }
  }

  function Count(log: seq<Event>, p: PeerKey, id: TxId, answers: bool): nat {
    if log == [] then 0
    else
      var e := log[|log| - 1];
      Count(log[..|log| - 1], p, id, answers) + if About(e, p, id) && e.Answered? == answers then 1 else 0
  }

  lemma {:induction false} AnswersWithinProbes(log: seq<Event>, p: PeerKey, id: TxId)
    requires AllOwed(log)
    ensures Count(log, p, id, true) <= Count(log, p, id, false)
    ensures Latest(log, p, id).Some? && Latest(log, p, id).value.Begun? ==> Count(log, p, id, true) < Count(log, p, id, false)
  {
    if log != [] { AnswersWithinProbes(log[..|log| - 1], p, id); }
  }

  /** Over every run each answer a peer takes consumes a probe of its own: every answer is owed, and for
      each id answers plus the probe still outstanding never exceed the probes begun. */
  lemma AnswersAreOwed(run: seq<Step>, p: PeerKey, id: TxId)
    requires Clocked(run)
    ensures
      var w := After(run, |run|);
      && AllOwed(w.log)
      && Count(w.log, p, id, true) + (if p in w.peers && id in w.peers[p] then 1 else 0) <= Count(w.log, p, id, false)
  {
    ReachableInv(run, |run|);
    var w := After(run, |run|);
    AnswersWithinProbes(w.log, p, id);
    assert p in w.peers && id in w.peers[p] ==> Promised(w.log, p, id, w.peers[p][id]);
  }
}
