/** The replay cache and outstanding probes of `node/src/disco.rs`. */
module Disco {
  import opened Common

  type PeerKey = nat
  type Addr = nat

  const MAX_U64: nat := 0xFFFF_FFFF_FFFF_FFFF
  const CAPACITY: nat := 128
  const WINDOW: nat := 30

  type U64 = x: nat | x <= MAX_U64

  /** A transaction id carries the second it was made in and a random nonce. */
  datatype TxId = TxId(sent: U64, nonce: nat)

  function SaturatingAdd(a: U64, b: nat): U64 {
    if a + b <= MAX_U64 then a + b else MAX_U64
  }

  function AbsDiff(a: nat, b: nat): nat {
    if a >= b then a - b else b - a
  }

  function Expiry(id: TxId): U64 {
    SaturatingAdd(id.sent, WINDOW)
  }

  // ---- The replay cache -------------------------------------------------------------------------

  type Seen = map<TxId, U64>

  function LiveSeen(seen: Seen, now: U64): Seen {
    map id | id in seen && seen[id] >= now :: seen[id]
  }

  predicate Accepts(seen: Seen, id: TxId, now: U64) {
    AbsDiff(now, id.sent) <= WINDOW && id !in LiveSeen(seen, now) && |LiveSeen(seen, now)| < CAPACITY
  }

  function AcceptPing(seen: Seen, id: TxId, now: U64): Seen {
    var live := LiveSeen(seen, now);
    if Accepts(seen, id, now) then live[id := Expiry(id)] else live
  }

  // ---- Outstanding probes -----------------------------------------------------------------------

  datatype Probe = Probe(targets: seq<Addr>, expires: U64)
  datatype Route = Route(peer: PeerKey, expires: U64)

  type Pending = map<TxId, Probe>
  type Index = map<TxId, Route>

  function LivePending(pending: Pending, now: U64): Pending {
    map id | id in pending && pending[id].expires >= now :: pending[id]
  }

  function LiveRoutes(routes: Index, now: U64): Index {
    map id | id in routes && routes[id].expires >= now :: routes[id]
  }

  /** The peer an answer belongs to, as the reader that hands packets to workers sees it. */
  function Owner(routes: Index, id: TxId, now: U64): Option<PeerKey> {
    if id in routes && routes[id].expires >= now then Some(routes[id].peer) else None
  }

  datatype Start = Start(pending: Pending, routes: Index, id: Option<TxId>)

  /** `nonce` is None when the random source fails. */
  function StartProbe(peer: PeerKey, pending: Pending, routes: Index, targets: seq<Addr>, nonce: Option<nat>, now: U64): Start {
    var live := LivePending(pending, now);
    if targets == [] || |live| >= CAPACITY || nonce.None? then Start(live, routes, None)
    else
      var id := TxId(now, nonce.value);
      var index := LiveRoutes(routes, now);
      if id in index then Start(live, index, None)
      else Start(live[id := Probe(targets, Expiry(id))], index[id := Route(peer, Expiry(id))], Some(id))
  }

  predicate IsPending(pending: Pending, id: TxId, from: Addr, now: U64) {
    id in pending && pending[id].expires >= now && from in pending[id].targets
  }

  class Routes {
    var entries: Index

    constructor ()
      ensures entries == map[]
    {
      entries := map[];
    }
  }

  class Probes {
    var seen: Seen
    var pending: Pending

    constructor ()
      ensures seen == map[] && pending == map[]
    {
      seen, pending := map[], map[];
    }

    method Ping(id: TxId, now: U64) returns (ok: bool)
      modifies this`seen
      ensures ok == Accepts(old(seen), id, now) && seen == AcceptPing(old(seen), id, now)
    {
      seen := map x | x in seen && seen[x] >= now :: seen[x];
      if AbsDiff(now, id.sent) > WINDOW || id in seen || |seen| >= CAPACITY { return false; }
      seen := seen[id := SaturatingAdd(id.sent, WINDOW)];
      ok := true;
    }

    method Begin(peer: PeerKey, targets: seq<Addr>, nonce: Option<nat>, routes: Routes, now: U64) returns (id: Option<TxId>)
      modifies this`pending, routes
      ensures Start(pending, routes.entries, id) == StartProbe(peer, old(pending), old(routes.entries), targets, nonce, now)
    {
      pending := map x | x in pending && pending[x].expires >= now :: pending[x];
      if targets == [] || |pending| >= CAPACITY || nonce.None? { return None; }
      var probe := TxId(now, nonce.value);
      routes.entries := map x | x in routes.entries && routes.entries[x].expires >= now :: routes.entries[x];
      if probe in routes.entries { return None; }
      var expires := SaturatingAdd(now, WINDOW);
      routes.entries := routes.entries[probe := Route(peer, expires)];
      pending := pending[probe := Probe(targets, expires)];
      id := Some(probe);
    }

    method Finish(id: TxId, from: Addr, routes: Routes, now: U64) returns (ok: bool)
      modifies this`pending, routes
      ensures ok == IsPending(old(pending), id, from, now)
      ensures pending == (if ok then old(pending) - {id} else old(pending))
      ensures routes.entries == (if ok then old(routes.entries) - {id} else old(routes.entries))
    {
      ok := id in pending && pending[id].expires >= now && from in pending[id].targets;
      if !ok { return; }
      pending := pending - {id};
      routes.entries := routes.entries - {id};
    }
  }

  // ---- No ping is accepted twice ------------------------------------------------------------------

  datatype Ping = Ping(id: TxId, now: U64)

  predicate Clocked(pings: seq<Ping>) {
    forall i, j | 0 <= i <= j < |pings| :: pings[i].now <= pings[j].now
  }

  /** The cache after n authentic pings. */
  function Cache(pings: seq<Ping>, n: nat): Seen
    requires n <= |pings|
  {
    if n == 0 then map[] else AcceptPing(Cache(pings, n - 1), pings[n - 1].id, pings[n - 1].now)
  }

  predicate AcceptedAt(pings: seq<Ping>, k: nat)
    requires k < |pings|
  {
    Accepts(Cache(pings, k), pings[k].id, pings[k].now)
  }

  /** The ids accepted among the first n pings. */
  function Accepted(pings: seq<Ping>, n: nat): set<TxId>
    requires n <= |pings|
  {
    if n == 0 then {}
    else Accepted(pings, n - 1) + (if AcceptedAt(pings, n - 1) then {pings[n - 1].id} else {})
  }

  ghost predicate Remembers(seen: Seen, accepted: set<TxId>, now: U64) {
    && (forall id | id in seen :: id in accepted && seen[id] == Expiry(id))
    && (forall id | id in accepted && Expiry(id) >= now :: id in seen)
    && |seen| <= CAPACITY
  }

  lemma PingRemembers(seen: Seen, accepted: set<TxId>, before: U64, p: Ping)
    requires Remembers(seen, accepted, before) && before <= p.now
    ensures Accepts(seen, p.id, p.now) ==> p.id !in accepted
    ensures Remembers(AcceptPing(seen, p.id, p.now), accepted + (if Accepts(seen, p.id, p.now) then {p.id} else {}), p.now)
  {
    var live := LiveSeen(seen, p.now);
    SubsetSize(live.Keys, seen.Keys);
  }

  lemma {:induction false} CacheRemembers(pings: seq<Ping>, n: nat)
    requires n <= |pings| && Clocked(pings)
    ensures Remembers(Cache(pings, n), Accepted(pings, n), if n == 0 then 0 else pings[n - 1].now)
  {
    if n > 0 {
      CacheRemembers(pings, n - 1);
      PingRemembers(Cache(pings, n - 1), Accepted(pings, n - 1), if n == 1 then 0 else pings[n - 2].now, pings[n - 1]);
    }
  }

  lemma {:induction false} AcceptedGrows(pings: seq<Ping>, i: nat, n: nat)
    requires i < n <= |pings| && AcceptedAt(pings, i)
    ensures pings[i].id in Accepted(pings, n)
  {
    if i < n - 1 { AcceptedGrows(pings, i, n - 1); }
  }

  /** With a clock that never runs backwards no id is accepted twice, however long the run and however
      many entries were dropped from the cache in between. */
  lemma NoPingTwice(pings: seq<Ping>, i: nat, j: nat)
    requires i < j < |pings| && Clocked(pings) && pings[i].id == pings[j].id
    ensures !(AcceptedAt(pings, i) && AcceptedAt(pings, j))
  {
    CacheRemembers(pings, j);
    if AcceptedAt(pings, i) {
      AcceptedGrows(pings, i, j);
      PingRemembers(Cache(pings, j), Accepted(pings, j), if j == 0 then 0 else pings[j - 1].now, pings[j]);
    }
  }

  /** A ping is turned away only for its age, for a replay, or for 128 ids still within their window:
      the ids accepted before that have not expired are exactly what counts. */
  lemma AcceptedExactly(pings: seq<Ping>, k: nat)
    requires k < |pings| && Clocked(pings)
    ensures
      var p := pings[k];
      var live := set id | id in Accepted(pings, k) && Expiry(id) >= p.now;
      && |Cache(pings, k)| <= CAPACITY
      && (AcceptedAt(pings, k) <==> AbsDiff(p.now, p.id.sent) <= WINDOW && p.id !in Accepted(pings, k) && |live| < CAPACITY)
  {
    CacheRemembers(pings, k);
    var p := pings[k];
    var live := set id | id in Accepted(pings, k) && Expiry(id) >= p.now;
    assert LiveSeen(Cache(pings, k), p.now).Keys == live;
  }

  // ---- Any clock --------------------------------------------------------------------------------

  /** None of the pings strictly between i and j that carry the id is accepted. */
  predicate NotAcceptedBetween(pings: seq<Ping>, id: TxId, i: nat, j: nat)
    requires j <= |pings|
  {
    forall k | i < k < j && pings[k].id == id :: !AcceptedAt(pings, k)
  }

  /** An entry stays until a ping arrives that reads the clock past the entry's expiry. */
  lemma {:induction false} EntryStaysIff(pings: seq<Ping>, i: nat, n: nat)
    requires i < n <= |pings| && AcceptedAt(pings, i) && NotAcceptedBetween(pings, pings[i].id, i, n)
    ensures
      var id, cache := pings[i].id, Cache(pings, n);
      && (id in cache <==> forall k | i < k < n :: pings[k].now <= Expiry(id))
      && (id in cache ==> cache[id] == Expiry(id))
  {
    if i < n - 1 {
      EntryStaysIff(pings, i, n - 1);
      assert pings[n - 1].id == pings[i].id ==> !AcceptedAt(pings, n - 1);
    }
  }

  /** Whatever the clock does: an id accepted before is accepted again if and only if the ping is within its
      window, there is room, and some ping in between read the clock past the id's expiry. Such a clock
      has run backwards, since the replay itself still is within the window. */
  lemma ReplayedIff(pings: seq<Ping>, i: nat, j: nat)
    requires i < j < |pings| && pings[i].id == pings[j].id
    requires AcceptedAt(pings, i) && NotAcceptedBetween(pings, pings[i].id, i, j)
    ensures
      var p := pings[j];
      AcceptedAt(pings, j) <==>
      && AbsDiff(p.now, p.id.sent) <= WINDOW
      && |LiveSeen(Cache(pings, j), p.now)| < CAPACITY
      && exists k :: i < k < j && pings[k].now > Expiry(p.id)
    ensures AcceptedAt(pings, j) ==> exists k :: i < k < j && pings[k].now > pings[j].now
  {
    EntryStaysIff(pings, i, j);
  }

  /** The clock must not run backwards: otherwise an expired entry is forgotten and its ping taken
      again. */
  lemma ClockRetreatReplays()
    ensures
      var a, b := TxId(100, 1), TxId(131, 2);
      var pings := [Ping(a, 100), Ping(b, 131), Ping(a, 130)];
      AcceptedAt(pings, 0) && AcceptedAt(pings, 2) && pings[0].id == pings[2].id
  {
    var a, b := TxId(100, 1), TxId(131, 2);
    var pings := [Ping(a, 100), Ping(b, 131), Ping(a, 130)];
    assert Cache(pings, 0) == map[];
    assert LiveSeen(map[], 100) == map[];
    assert Cache(pings, 1) == map[a := 130];
    assert LiveSeen(map[a := 130], 131) == map[];
    assert Cache(pings, 2) == map[b := 161];
    assert LiveSeen(map[b := 161], 130) == map[b := 161];
  }
}
