/**
 Runs of the durable store. A run is any sequence of committed transactions, rolled-back
 ones leaving the database alone; the world also keeps the history the theorems speak of.
 */
module SqlRuns {
  import opened Common
  import opened SqlStore

  datatype World = World(
    db: Db,
    issued: set<EntityId>,        // ids handed out by committed transactions
    pending: set<EntityId>,       // network ids issued but not yet inserted
    codes: set<Code>,             // invite codes ever in use
    base: map<Code, nat>,         // uses of the invites found at start
    madeBy: map<EntityId, Code>,  // device -> the invite it was created through
    tokens: map<EntityId, Token>, // device -> token of its last committed enrollment
    dead: set<EntityId>)          // devices revoked or cascaded at some time

  datatype Step =
    | Enroll(code: Code, name: string, key: KeyText, now: int, token: Token)
    | Import(network: EntityId, entries: seq<ImportEntry>)
    | RevokeDevice(id: EntityId)
    | DeleteNetwork(network: EntityId)
    | CreateInvite(network: EntityId, expiresAt: Option<int>, maxUses: Option<nat>, newCode: Code)
    | RevokeInvite(network: EntityId, code: Code)
    | IssueNetworkId
    | AddNetwork(id: EntityId, pool4: (Octet, Octet, Octet), pool6: (nat, nat, nat))
    | AdvertiseRoute(device: EntityId, prefix: Option<string>)
    | ChangeDeviceRoute(device: EntityId, credential: Token, prefix: Option<string>, withdraw: bool)
    | ApproveRoute(route: EntityId)
    | DeleteRoute(route: EntityId)
    | RegisterRelay(scope: Option<EntityId>)
    | UpdateRelay(relay: EntityId, scope: Option<EntityId>)
    | BumpEpoch(network: EntityId)
    | Restart
    | RolledBack

  /** Random invite codes are assumed never to repeat; a network is inserted under its issued id. */
  predicate Enabled(w: World, step: Step) {
    match step
    case CreateInvite(_, _, _, newCode) => newCode !in w.codes
    case AddNetwork(id, _, _) => id in w.pending
    case _ => true
  }

  /** Validation before the transaction opens (`enroll`, `import_devices`). */
  function ParseEntries(entries: seq<ImportEntry>): (r: Option<seq<ImportEntry>>)
    ensures r.Some? ==> EntriesParsed(r.value)
  {
    if forall e | e in entries :: Normalize(e.key).Some? && (e.v4.Some? ==> e.v4.value.Dotted?)
    then Some(seq(|entries|, i requires 0 <= i < |entries| => entries[i].(key := NormalKey(entries[i].key))))
    else None
  }

  function DeadIn(db: Db): set<EntityId> {
    set id | id in db.devices && db.devices[id].status.Revoked?
  }

  ghost function AfterEnroll(w: World, r: Tx<Enrollment>, code: Code, token: Token): World {
    if r.Abort? then w
    else
      var id := r.value.id;
      var w1 := w.(db := r.db, tokens := w.tokens[id := token]);
      if r.value.created then w1.(issued := w.issued + {id}, madeBy := w.madeBy[id := code]) else w1
  }

  function AfterImport(w: World, r: Tx<Imported>): World {
    if r.Abort? then w else w.(db := r.db, issued := w.issued + set id | id in r.value.created)
  }

  function AfterIssue(w: World, r: Tx<EntityId>): World {
    if r.Abort? then w else w.(db := r.db, issued := w.issued + {r.value})
  }

  function AfterChange(w: World, r: Tx<Option<EntityId>>): World {
    if r.Abort? then w
    else w.(db := r.db, issued := w.issued + if r.value.Some? then {r.value.value} else {})
  }

  function AfterPlain(w: World, r: Tx<()>): World {
    if r.Abort? then w else w.(db := r.db, dead := w.dead + DeadIn(r.db))
  }

  ghost function Apply(w: World, step: Step): World {
    match step
    case Enroll(code, name, key, now, token) =>
      if Normalize(key).None? then w
      else AfterEnroll(w, EnrollOnce(w.db, code, name, Normalize(key).value, now, token), code, token)
    case Import(network, entries) =>
      if ParseEntries(entries).None? then w
      else AfterImport(w, ImportOnce(w.db, network, ParseEntries(entries).value))
    case RevokeDevice(id) => AfterPlain(w, RevokeDeviceOnce(w.db, id))
    case DeleteNetwork(network) => AfterPlain(w, DeleteNetworkOnce(w.db, network))
    case CreateInvite(network, expiresAt, maxUses, newCode) =>
      (match CreateInviteOnce(w.db, network, expiresAt, maxUses, newCode)
       case Abort(_) => w
       case Commit(db, _) => w.(db := db, codes := w.codes + {newCode}))
    case RevokeInvite(network, code) => AfterPlain(w, RevokeInviteOnce(w.db, network, code))
    case IssueNetworkId =>
      var r := NextId(w.db, Net);
      if r.Abort? then w else AfterIssue(w, r).(pending := w.pending + {r.value})
    case AddNetwork(id, pool4, pool6) =>
      AfterPlain(w.(pending := w.pending - {id}), InsertNetwork(w.db, id, Network(Some(pool4), Some(pool6), 0)))
    case AdvertiseRoute(device, prefix) => AfterIssue(w, AdvertiseRouteOnce(w.db, device, prefix))
    case ChangeDeviceRoute(device, credential, prefix, withdraw) =>
      AfterChange(w, DeviceRouteChangeOnce(w.db, device, credential, prefix, withdraw))
    case ApproveRoute(route) => w.(db := SqlStore.ApproveRoute(w.db, route))
    case DeleteRoute(route) => w.(db := SqlStore.DeleteRoute(w.db, route))
    case RegisterRelay(scope) => AfterIssue(w, RegisterRelayOnce(w.db, scope))
    case UpdateRelay(relay, scope) =>
      var r := UpdateRelayOnce(w.db, relay, scope);
      if r.Abort? then w else w.(db := r.db)
    case BumpEpoch(network) => w.(db := w.db.(networks := Bumped(w.db.networks, network)))
    case Restart => AfterPlain(w, Migrate(w.db))
    case RolledBack => w
  }

  /** The store opens on whatever a committed migration of a legacy database left. */
  ghost function Start(legacy: Db): World
    requires Migratable(legacy)
  {
    var db := Migrated(legacy);
    World(db, {}, {}, db.invites.Keys, map c | c in db.invites :: db.invites[c].uses, map[],
          map id | id in db.devices && db.devices[id].token.Some? :: db.devices[id].token.value, DeadIn(db))
  }

  ghost predicate ValidRun(w: World, steps: seq<Step>)
    decreases |steps|
  {
    steps == [] || (Enabled(w, steps[0]) && ValidRun(Apply(w, steps[0]), steps[1..]))
  }

  ghost function Run(w: World, steps: seq<Step>): World
    decreases |steps|
  {
    if steps == [] then w else Run(Apply(w, steps[0]), steps[1..])
  }

  // ---- The invariant ---------------------------------------------------------------------------

  function MadeThrough(madeBy: map<EntityId, Code>, code: Code): set<EntityId> {
    set id | id in madeBy && madeBy[id] == code
  }

  function BaseUses(w: World, code: Code): nat {
    if code in w.base then w.base[code] else 0
  }

  /** Uses count the devices created, and stay within the limit (or within a legacy overrun). */
  predicate Counts(inv: Invite, base: nat, made: nat) {
    && inv.uses == base + made
    && (inv.maxUses.Some? ==> inv.uses <= inv.maxUses.value || made == 0)
  }

  predicate InviteExact(w: World, code: Code)
    requires code in w.db.invites
  {
    Counts(w.db.invites[code], BaseUses(w, code), |MadeThrough(w.madeBy, code)|)
  }

  ghost predicate InvitesExact(w: World) {
    && w.db.invites.Keys <= w.codes
    && w.base.Keys <= w.codes
    && w.madeBy.Keys <= w.db.devices.Keys
    && (forall id | id in w.madeBy :: w.madeBy[id] in w.codes)
    && (forall code | code in w.db.invites :: InviteExact(w, code))
  }

  predicate TokenExact(w: World, id: EntityId)
    requires id in w.db.devices
  {
    var d := w.db.devices[id];
    if d.status.Active? then d.token == (if id in w.tokens then Some(w.tokens[id]) else None) else d.token == None
  }

  ghost predicate TokensExact(w: World) {
    && w.tokens.Keys <= w.db.devices.Keys
    && forall id | id in w.db.devices :: TokenExact(w, id)
  }

  ghost predicate DeadExact(w: World) {
    w.dead == DeadIn(w.db)
  }

  predicate IssuedId(w: World, id: EntityId) {
    id.Numbered? && id.padding == 0 && id.value <= SequenceOf(w.db)
  }

  ghost predicate IssuedBounded(w: World) {
    w.pending <= w.issued && forall id | id in w.issued :: IssuedId(w, id)
  }

  ghost predicate Inv(w: World) {
    Sound(w.db) && InvitesExact(w) && TokensExact(w) && DeadExact(w) && IssuedBounded(w)
  }

  // ---- How a step may move the world ------------------------------------------------------------

  /** Nothing already issued or in use is issued again, and the dead stay dead. */
  ghost predicate Advances(w: World, w': World) {
    && w.issued <= w'.issued
    && (forall id | id in w'.issued - w.issued :: Suffix(id) > SequenceOf(w.db))
    && SequenceOf(w.db) <= SequenceOf(w'.db)
    && w.dead <= w'.dead
  }

  /** Devices only gain rows; the newcomers are active, without a token, under fresh ids. */
  ghost predicate Grown(db: Db, db': Db, added: set<EntityId>) {
    && db.sequence.Some? && db'.sequence.Some? && db.sequence.value <= db'.sequence.value
    && db'.devices.Keys == db.devices.Keys + added
    && added !! db.devices.Keys
    && (forall id | id in db.devices :: db'.devices[id] == db.devices[id])
    && (forall id | id in added :: db'.devices[id].status.Active? && db'.devices[id].token.None?)
    && (forall id | id in added :: id.Numbered? && id.padding == 0 && db.sequence.value < id.value <= db'.sequence.value)
    && db'.invites == db.invites
  }

  lemma ImportRowGrows(db: Db, network: EntityId, e: ImportEntry)
    requires Sound(db) && ImportRow(db, network, e).Commit?
    ensures Grown(db, ImportRow(db, network, e).db, {ImportRow(db, network, e).value})
  {
  }

  lemma GrownTransitive(a: Db, b: Db, c: Db, x: set<EntityId>, y: set<EntityId>)
    requires Grown(a, b, x) && Grown(b, c, y)
    ensures Grown(a, c, x + y)
  {
  }

  lemma {:induction false} ImportRowsGrow(db: Db, network: EntityId, entries: seq<ImportEntry>, seen: set<KeyText>)
    requires Sound(db) && EntriesParsed(entries) && ImportRows(db, network, entries, seen).Commit?
    ensures Grown(db, ImportRows(db, network, entries, seen).db, set id | id in ImportRows(db, network, entries, seen).value.created)
    decreases |entries|
  {
    if entries != [] {
      assert entries[0] in entries;
      if entries[0].key in seen {
        ImportRowsGrow(db, network, entries[1..], seen);
      } else {
        var Commit(db1, id) := ImportRow(db, network, entries[0]);
        ImportRowGrows(db, network, entries[0]);
        ImportRowKeepsSound(db, network, entries[0]);
        var seen1 := seen + {entries[0].key};
        ImportRowsGrow(db1, network, entries[1..], seen1);
        var Commit(db', r) := ImportRows(db1, network, entries[1..], seen1);
        GrownTransitive(db, db1, db', {id}, set x | x in r.created);
        assert (set x | x in [id] + r.created) == {id} + set x | x in r.created;
      }
    }
  }

  // ---- Preservation, step by step ------------------------------------------------------------------

  /** An import, or any step that only adds token-less devices. */
  lemma GrowthKeepsInv(w: World, db': Db, added: set<EntityId>)
    requires Inv(w) && Sound(db') && Grown(w.db, db', added)
    ensures var w' := w.(db := db', issued := w.issued + added); Inv(w') && Advances(w, w')
  {
  }

  lemma ImportKeepsInv(w: World, network: EntityId, entries: seq<ImportEntry>)
    requires Inv(w) && EntriesParsed(entries)
    ensures Inv(AfterImport(w, ImportOnce(w.db, network, entries)))
    ensures Advances(w, AfterImport(w, ImportOnce(w.db, network, entries)))
  {
    var r := ImportOnce(w.db, network, entries);
    if r.Commit? {
      ImportKeepsSound(w.db, network, entries);
      ImportRowsGrow(w.db, network, entries, ActiveKeys(w.db, network));
      GrowthKeepsInv(w, r.db, set id | id in r.value.created);
    }
  }

  lemma RotationKeepsTokens(w: World, w': World, id: EntityId, token: Token)
    requires TokensExact(w) && id in w.db.devices && w.db.devices[id].status.Active?
    requires w'.db.devices == WithToken(w.db, id, token).devices && w'.tokens == w.tokens[id := token]
    ensures TokensExact(w') && DeadIn(w'.db) == DeadIn(w.db)
  {
  }

  /** Re-enrolling an active key only replaces its token. */
  lemma TokenRotationKeepsInv(w: World, id: EntityId, token: Token)
    requires Inv(w) && id in w.db.devices && w.db.devices[id].status.Active?
    ensures
      var w' := w.(db := WithToken(w.db, id, token), tokens := w.tokens[id := token]);
      Inv(w') && Advances(w, w')
  {
    var w' := w.(db := WithToken(w.db, id, token), tokens := w.tokens[id := token]);
    TokenKeepsSound(w.db, id, token);
    RotationKeepsTokens(w, w', id, token);
    assert w'.db.devices.Keys == w.db.devices.Keys;
    SameMakersKeepInvites(w, w');
    SameIssuedKeepsBound(w, w');
  }

  lemma SameIssuedKeepsBound(w: World, w': World)
    requires IssuedBounded(w) && w'.issued == w.issued && w'.pending <= w.issued && SequenceOf(w.db) <= SequenceOf(w'.db)
    ensures IssuedBounded(w')
  {
  }

  lemma OneMoreMade(madeBy: map<EntityId, Code>, id: EntityId, code: Code, c: Code)
    requires id !in madeBy
    ensures |MadeThrough(madeBy[id := code], c)| == |MadeThrough(madeBy, c)| + (if c == code then 1 else 0)
  {
    assert MadeThrough(madeBy[id := code], c) == MadeThrough(madeBy, c) + (if c == code then {id} else {});
  }

  /** Attributing a new device to the invite that paid for it. */
  lemma ChargeKeepsInvites(w: World, w': World, code: Code, id: EntityId)
    requires InvitesExact(w) && code in w.db.invites && HasUses(w.db.invites[code])
    requires id !in w.db.devices && id in w'.db.devices && w.db.devices.Keys <= w'.db.devices.Keys
    requires w'.madeBy == w.madeBy[id := code] && w'.codes == w.codes && w'.base == w.base
    requires w'.db.invites == Consumed(w.db, code).invites
    ensures InvitesExact(w')
  {
    forall c | c in w'.db.invites
      ensures InviteExact(w', c)
    {
      assert InviteExact(w, c);
      OneMoreMade(w.madeBy, id, code, c);
    }
  }

  lemma EnrollNewShape(db: Db, network: EntityId, name: string, key: KeyText, token: Token)
    requires Sound(db) && network in db.networks && EnrollNew(db, network, name, key, token).Commit?
    ensures
      var Commit(db', r) := EnrollNew(db, network, name, key, token);
      && r.created && db'.invites == db.invites
      && r.id == Numbered(Dev, SequenceOf(db) + 1, 0) && db'.sequence == Some(SequenceOf(db) + 1)
      && r.id !in db.devices && r.id in db'.devices
      && db'.devices[r.id].status.Active? && db'.devices[r.id].token == Some(token)
      && db'.devices == db.devices[r.id := db'.devices[r.id]]
  {
  }

  /** A world in which one device was created, with its token, through one invite. */
  ghost predicate Created(w: World, w': World, code: Code, id: EntityId, token: Token) {
    && code in w.db.invites && w'.db.invites == Consumed(w.db, code).invites
    && w.db.sequence.Some? && SequenceOf(w'.db) == SequenceOf(w.db) + 1 && id == Numbered(Dev, SequenceOf(w'.db), 0)
    && id !in w.db.devices && id in w'.db.devices
    && w'.db.devices[id].status.Active? && w'.db.devices[id].token == Some(token)
    && w'.db.devices == w.db.devices[id := w'.db.devices[id]]
    && w' == w.(db := w'.db, tokens := w.tokens[id := token], issued := w.issued + {id}, madeBy := w.madeBy[id := code])
  }

  lemma CreatedKeepsTokens(w: World, w': World, code: Code, id: EntityId, token: Token)
    requires TokensExact(w) && Created(w, w', code, id, token)
    ensures TokensExact(w')
  {
  }

  lemma CreatedKeepsDead(w: World, w': World, code: Code, id: EntityId, token: Token)
    requires DeadExact(w) && Created(w, w', code, id, token)
    ensures DeadExact(w')
  {
  }

  lemma CreatedKeepsIssued(w: World, w': World, code: Code, id: EntityId, token: Token)
    requires IssuedBounded(w) && Created(w, w', code, id, token)
    ensures IssuedBounded(w') && Advances(w, w')
  {
  }

  lemma EnrollKeepsInv(w: World, code: Code, name: string, key: KeyText, now: int, token: Token)
    requires Inv(w)
    ensures
      var w' := AfterEnroll(w, EnrollOnce(w.db, code, name, key, now, token), code, token);
      Inv(w') && Advances(w, w')
  {
    var r := EnrollOnce(w.db, code, name, key, now, token);
    if r.Commit? {
      EnrollCases(w.db, code, name, key, now, token);
      EnrollKeepsSound(w.db, code, name, key, now, token);
      if r.value.created {
        var db1 := Consumed(w.db, code);
        FewerIdsKeepSound(w.db, db1);
        EnrollNewShape(db1, w.db.invites[code].network, name, key, token);
        var w', id := AfterEnroll(w, r, code, token), r.value.id;
        ChargeKeepsInvites(w, w', code, id);
        CreatedKeepsTokens(w, w', code, id, token);
        CreatedKeepsDead(w, w', code, id, token);
        CreatedKeepsIssued(w, w', code, id, token);
      } else {
        TokenRotationKeepsInv(w, r.value.id, token);
      }
    }
  }

  ghost predicate FewerInvites(db: Db, db': Db) {
    db'.invites.Keys <= db.invites.Keys && forall c | c in db'.invites :: db'.invites[c] == db.invites[c]
  }

  lemma RetirementKeepsTokens(w: World, w': World, ids: set<EntityId>)
    requires TokensExact(w) && w'.db.devices == Retire(w.db.devices, ids) && w'.tokens == w.tokens
    ensures TokensExact(w')
  {
  }

  lemma SameMakersKeepInvites(w: World, w': World)
    requires InvitesExact(w) && FewerInvites(w.db, w'.db) && w'.db.devices.Keys == w.db.devices.Keys
    requires w'.codes == w.codes && w'.base == w.base && w'.madeBy == w.madeBy
    ensures InvitesExact(w')
  {
  }

  /** Steps that retire some devices (possibly none) and drop some invites. */
  lemma PlainKeepsInv(w: World, db': Db, ids: set<EntityId>)
    requires Inv(w) && Sound(db') && FewerInvites(w.db, db')
    requires db'.devices == Retire(w.db.devices, ids) && db'.sequence == w.db.sequence
    ensures var w' := AfterPlain(w, Commit(db', ())); Inv(w') && Advances(w, w')
  {
  }

  lemma RetireNone(devices: map<EntityId, Device>)
    ensures Retire(devices, {}) == devices
  {
  }

  /** Steps whose only trace in these tables is one new id. */
  lemma IssueKeepsInv(w: World, r: Tx<EntityId>, kind: Kind)
    requires Inv(w) && IssuedOne(w.db, r, kind) && Sound(r.db)
    ensures Inv(AfterIssue(w, r)) && Advances(w, AfterIssue(w, r))
  {
  }

  lemma RouteKeepsInv(w: World, network: EntityId, device: EntityId, prefix: Option<string>)
    requires Inv(w) && InsertRoute(w.db, network, device, prefix).Commit?
    ensures
      var w' := AfterIssue(w, InsertRoute(w.db, network, device, prefix));
      Inv(w') && Advances(w, w')
  {
    InsertRouteKeepsSound(w.db, network, device, prefix);
    IssueKeepsInv(w, InsertRoute(w.db, network, device, prefix), Route);
  }

  /** Steps that touch neither devices nor invites and bring no new id. */
  lemma SideTablesKeepInv(w: World, db': Db)
    requires Inv(w) && db'.devices == w.db.devices && db'.invites == w.db.invites && db'.sequence == w.db.sequence
    requires AllIds(db') <= AllIds(w.db)
    ensures Inv(w.(db := db')) && Advances(w, w.(db := db'))
  {
    FewerIdsKeepSound(w.db, db');
    SameMakersKeepInvites(w, w.(db := db'));
    SameIssuedKeepsBound(w, w.(db := db'));
  }

  lemma RouteChangeKeepsInv(w: World, device: EntityId, credential: Token, prefix: Option<string>, withdraw: bool)
    requires Inv(w)
    ensures
      var w' := AfterChange(w, DeviceRouteChangeOnce(w.db, device, credential, prefix, withdraw));
      Inv(w') && Advances(w, w')
  {
    var r := DeviceRouteChangeOnce(w.db, device, credential, prefix, withdraw);
    NoOpAdvances(w);
    if r.Commit? {
      if r.value.Some? {
        RouteKeepsInv(w, w.db.devices[device].network, device, prefix);
      } else {
        SideTablesKeepInv(w, r.db);
        assert AfterChange(w, r) == w.(db := r.db);
      }
    }
  }

  lemma InviteCreationKeepsInv(w: World, network: EntityId, expiresAt: Option<int>, maxUses: Option<nat>, code: Code)
    requires Inv(w) && code !in w.codes && CreateInviteOnce(w.db, network, expiresAt, maxUses, code).Commit?
    ensures
      var w' := w.(db := CreateInviteOnce(w.db, network, expiresAt, maxUses, code).db, codes := w.codes + {code});
      Inv(w') && Advances(w, w')
  {
  }

  lemma AddNetworkKeepsInv(w: World, id: EntityId, net: Network)
    requires Inv(w) && id in w.pending
    ensures
      var w' := AfterPlain(w.(pending := w.pending - {id}), InsertNetwork(w.db, id, net));
      Inv(w') && Advances(w, w')
  {
    var w1 := w.(pending := w.pending - {id});
    assert Inv(w1) by {
      SameMakersKeepInvites(w, w1);
      RetireNone(w.db.devices);
      RetirementKeepsTokens(w, w1, {});
      SameIssuedKeepsBound(w, w1);
    }
    var r := InsertNetwork(w.db, id, net);
    if r.Commit? {
      assert IssuedId(w, id);
      assert AllIds(r.db) == AllIds(w.db) + {id};
      RetireNone(w.db.devices);
      PlainKeepsInv(w1, r.db, {});
    }
  }

  lemma NoOpAdvances(w: World)
    ensures Advances(w, w)
  {
  }

  // ---- The invariant over runs -------------------------------------------------------------------

  lemma StepKeepsInv(w: World, step: Step)
    requires Inv(w) && Enabled(w, step)
    ensures Inv(Apply(w, step)) && Advances(w, Apply(w, step))
  {
    NoOpAdvances(w);
    match step {
      case Enroll(code, name, key, now, token) =>
        if Normalize(key).Some? { EnrollKeepsInv(w, code, name, Normalize(key).value, now, token); }
      case Import(network, entries) =>
        if ParseEntries(entries).Some? { ImportKeepsInv(w, network, ParseEntries(entries).value); }
      case CreateInvite(network, expiresAt, maxUses, newCode) =>
        if CreateInviteOnce(w.db, network, expiresAt, maxUses, newCode).Commit? {
          InviteCreationKeepsInv(w, network, expiresAt, maxUses, newCode);
        }
      case AddNetwork(id, pool4, pool6) => AddNetworkKeepsInv(w, id, Network(Some(pool4), Some(pool6), 0));
      case RolledBack =>
      case IssueNetworkId => NetworkIdKeepsInv(w);
      case AdvertiseRoute(device, prefix) =>
        if AdvertiseRouteOnce(w.db, device, prefix).Commit? { RouteKeepsInv(w, w.db.devices[device].network, device, prefix); }
      case ChangeDeviceRoute(device, credential, prefix, withdraw) => RouteChangeKeepsInv(w, device, credential, prefix, withdraw);
      case ApproveRoute(route) => SideTablesKeepInv(w, SqlStore.ApproveRoute(w.db, route));
      case DeleteRoute(route) => SideTablesKeepInv(w, SqlStore.DeleteRoute(w.db, route));
      case UpdateRelay(relay, scope) =>
        if UpdateRelayOnce(w.db, relay, scope).Commit? { SideTablesKeepInv(w, UpdateRelayOnce(w.db, relay, scope).db); }
      case BumpEpoch(network) => SideTablesKeepInv(w, w.db.(networks := Bumped(w.db.networks, network)));
      case RegisterRelay(scope) =>
        if RegisterRelayOnce(w.db, scope).Commit? {
          RelayKeepsSound(w.db, scope);
          IssueKeepsInv(w, RegisterRelayOnce(w.db, scope), Relay);
        }
      case _ => RemovingStepKeepsInv(w, step);
    }
  }

  lemma RemovingStepKeepsInv(w: World, step: Step)
    requires Inv(w)
    requires step.RevokeDevice? || step.DeleteNetwork? || step.RevokeInvite? || step.Restart?
    ensures Inv(Apply(w, step)) && Advances(w, Apply(w, step))
  {
    NoOpAdvances(w);
    RetireNone(w.db.devices);
    match step {
      case RevokeDevice(id) =>
        var r := RevokeDeviceOnce(w.db, id);
        if r.Commit? {
          RevokeKeepsSound(w.db, id);
          PlainKeepsInv(w, r.db, {id});
        }
      case DeleteNetwork(network) =>
        var r := DeleteNetworkOnce(w.db, network);
        if r.Commit? {
          DeleteNetworkKeepsSound(w.db, network);
          PlainKeepsInv(w, r.db, Members(w.db, network));
        }
      case RevokeInvite(network, code) =>
        var r := RevokeInviteOnce(w.db, network, code);
        if r.Commit? {
          FewerIdsKeepSound(w.db, r.db);
          PlainKeepsInv(w, r.db, {});
        }
      case Restart =>
        RestartIsIdentity(w.db);
        PlainKeepsInv(w, w.db, {});
    }
  }

  lemma NetworkIdKeepsInv(w: World)
    requires Inv(w)
    ensures Inv(Apply(w, IssueNetworkId)) && Advances(w, Apply(w, IssueNetworkId))
  {
  }

  lemma StartSatisfiesInv(legacy: Db)
    requires Migratable(legacy)
    ensures Inv(Start(legacy))
  {
    MigrationSettles(legacy);
    var w := Start(legacy);
    forall code | code in w.db.invites
      ensures InviteExact(w, code)
    {
      assert MadeThrough(w.madeBy, code) == {};
    }
    forall id | id in w.db.devices
      ensures TokenExact(w, id)
    {
      assert SettledRow(w.db.devices[id]);
    }
  }

  lemma AdvancesTransitive(a: World, b: World, c: World)
    requires Advances(a, b) && Advances(b, c)
    ensures Advances(a, c)
  {
  }

  lemma {:induction false} RunKeepsInv(w: World, steps: seq<Step>)
    requires Inv(w) && ValidRun(w, steps)
    ensures Inv(Run(w, steps)) && Advances(w, Run(w, steps))
    decreases |steps|
  {
    if steps == [] {
      NoOpAdvances(w);
    } else {
      StepKeepsInv(w, steps[0]);
      RunKeepsInv(Apply(w, steps[0]), steps[1..]);
      AdvancesTransitive(w, Apply(w, steps[0]), Run(w, steps));
    }
  }

  // ---- Theorems about every reachable state ---------------------------------------------------------

  /** Uniqueness, invite accounting, index-free enrollment and idle restarts, in every state
      any run reaches from any legacy database the store agreed to open. */
  lemma ReachableStoreIsConsistent(legacy: Db, steps: seq<Step>)
    requires Migratable(legacy) && ValidRun(Start(legacy), steps)
    ensures
      var w := Run(Start(legacy), steps);
      && DistinctActive(w.db.devices)
      && (forall code | code in w.db.invites ::
            Counts(w.db.invites[code], BaseUses(w, code), |MadeThrough(w.madeBy, code)|))
      && (forall code, name, key: KeyText, now, token | key.Canonical? ::
            EnrollOnce(w.db, code, name, key, now, token) != Abort(UniqueViolation))
      && Migrate(w.db) == Commit(w.db, ())
  {
    StartSatisfiesInv(legacy);
    RunKeepsInv(Start(legacy), steps);
    var w := Run(Start(legacy), steps);
    forall code, name, key: KeyText, now, token | key.Canonical?
      ensures EnrollOnce(w.db, code, name, key, now, token) != Abort(UniqueViolation)
    {
      EnrollNeverTripsIndex(w.db, code, name, key, now, token);
    }
    forall code | code in w.db.invites
      ensures Counts(w.db.invites[code], BaseUses(w, code), |MadeThrough(w.madeBy, code)|)
    {
      assert InviteExact(w, code);
    }
    RestartIsIdentity(w.db);
  }

  /** What `device_token` returns. */
  function ReadableToken(db: Db, id: EntityId): Option<Token> {
    if id in db.devices && db.devices[id].status.Active? && db.devices[id].network in db.networks
    then db.devices[id].token else None
  }

  /** A token is readable exactly for an enrolled active device of an existing network, and is
      the one its last committed enrollment issued. */
  lemma TokenAuthority(legacy: Db, steps: seq<Step>, id: EntityId)
    requires Migratable(legacy) && ValidRun(Start(legacy), steps)
    ensures
      var w := Run(Start(legacy), steps);
      ReadableToken(w.db, id) ==
        if id in w.db.devices && ActiveIn(w.db.devices[id], w.db.devices[id].network)
           && w.db.devices[id].network in w.db.networks && id in w.tokens
        then Some(w.tokens[id]) else None
  {
    StartSatisfiesInv(legacy);
    RunKeepsInv(Start(legacy), steps);
    var w := Run(Start(legacy), steps);
    if id in w.db.devices { assert TokenExact(w, id); }
  }

  /** Once revoked or cascaded, a device id is never active and never has a token again. */
  lemma DeadForever(w: World, steps: seq<Step>, id: EntityId)
    requires Inv(w) && ValidRun(w, steps) && id in w.db.devices && w.db.devices[id].status.Revoked?
    ensures var w' := Run(w, steps); id in w'.db.devices && w'.db.devices[id].status.Revoked? && ReadableToken(w'.db, id).None?
  {
    RunKeepsInv(w, steps);
    assert id in w.dead;
    assert id in DeadIn(Run(w, steps).db);
  }

  lemma RevocationAndCascadeKill(w: World, id: EntityId)
    requires Inv(w) && id in w.db.devices
    ensures Apply(w, RevokeDevice(id)).db.devices[id].status.Revoked?
    ensures w.db.devices[id].network in w.db.networks ==>
              Apply(w, DeleteNetwork(w.db.devices[id].network)).db.devices[id].status.Revoked?
  {
  }

  /** Revoking a device, or deleting its network, is for good: whatever runs afterwards, restarts
      included, the id is never active again and its token is never readable. */
  lemma RevokedForGood(w: World, kill: Step, id: EntityId, steps: seq<Step>)
    requires Inv(w) && id in w.db.devices && ValidRun(Apply(w, kill), steps)
    requires kill == RevokeDevice(id) || (kill == DeleteNetwork(w.db.devices[id].network) && w.db.devices[id].network in w.db.networks)
    ensures
      var w' := Run(Apply(w, kill), steps);
      id in w'.db.devices && w'.db.devices[id].status.Revoked? && ReadableToken(w'.db, id).None?
  {
    RevocationAndCascadeKill(w, id);
    StepKeepsInv(w, kill);
    DeadForever(Apply(w, kill), steps, id);
  }

  // ---- Durable ids ---------------------------------------------------------------------------------

  /** The ids a step hands out when it commits, in order. */
  ghost function HandedOut(w: World, step: Step): seq<EntityId> {
    match step
    case Enroll(code, name, key, now, token) =>
      if Normalize(key).None? then []
      else
        var r := EnrollOnce(w.db, code, name, Normalize(key).value, now, token);
        if r.Commit? && r.value.created then [r.value.id] else []
    case Import(network, entries) =>
      if ParseEntries(entries).None? then []
      else
        var r := ImportOnce(w.db, network, ParseEntries(entries).value);
        if r.Commit? then r.value.created else []
    case IssueNetworkId => var r := NextId(w.db, Net); if r.Commit? then [r.value] else []
    case AdvertiseRoute(device, prefix) => var r := AdvertiseRouteOnce(w.db, device, prefix); if r.Commit? then [r.value] else []
    case ChangeDeviceRoute(device, credential, prefix, withdraw) =>
      var r := DeviceRouteChangeOnce(w.db, device, credential, prefix, withdraw);
      if r.Commit? && r.value.Some? then [r.value.value] else []
    case RegisterRelay(scope) => var r := RegisterRelayOnce(w.db, scope); if r.Commit? then [r.value] else []
    case _ => []
  }

  /** Strictly increasing suffixes, all above a mark. */
  predicate Ascending(ids: seq<EntityId>, mark: nat) {
    && (forall i | 0 <= i < |ids| :: Suffix(ids[i]) > mark)
    && (forall i, j | 0 <= i < j < |ids| :: Suffix(ids[i]) < Suffix(ids[j]))
  }

  lemma AscendingCons(id: EntityId, ids: seq<EntityId>, mark: nat)
    requires Suffix(id) > mark && Ascending(ids, Suffix(id))
    ensures Ascending([id] + ids, mark)
  {
  }

  lemma {:induction false} ImportIdsAscend(db: Db, network: EntityId, entries: seq<ImportEntry>, seen: set<KeyText>)
    requires Sound(db) && EntriesParsed(entries) && ImportRows(db, network, entries, seen).Commit?
    ensures Ascending(ImportRows(db, network, entries, seen).value.created, SequenceOf(db))
    decreases |entries|
  {
    if entries != [] {
      assert entries[0] in entries;
      if entries[0].key in seen {
        ImportIdsAscend(db, network, entries[1..], seen);
      } else {
        var Commit(db1, id) := ImportRow(db, network, entries[0]);
        ImportRowKeepsSound(db, network, entries[0]);
        var seen1 := seen + {entries[0].key};
        ImportIdsAscend(db1, network, entries[1..], seen1);
        AscendingCons(id, ImportRows(db1, network, entries[1..], seen1).value.created, SequenceOf(db));
      }
    }
  }

  lemma EnrolledIdAscends(w: World, step: Step)
    requires Inv(w) && step.Enroll?
    ensures Ascending(HandedOut(w, step), SequenceOf(w.db))
  {
    var Enroll(code, name, key, now, token) := step;
    if Normalize(key).Some? {
      var r := EnrollOnce(w.db, code, name, Normalize(key).value, now, token);
      if r.Commit? && r.value.created {
        EnrollCases(w.db, code, name, Normalize(key).value, now, token);
        FewerIdsKeepSound(w.db, Consumed(w.db, code));
        EnrollNewShape(Consumed(w.db, code), w.db.invites[code].network, name, Normalize(key).value, token);
      }
    }
  }

  lemma HandedOutAscend(w: World, step: Step)
    requires Inv(w)
    ensures Ascending(HandedOut(w, step), SequenceOf(w.db))
  {
    match step {
      case Enroll(code, name, key, now, token) => EnrolledIdAscends(w, step);
      case Import(network, entries) =>
        if ParseEntries(entries).Some? && ImportOnce(w.db, network, ParseEntries(entries).value).Commit? {
          ImportIdsAscend(w.db, network, ParseEntries(entries).value, ActiveKeys(w.db, network));
        }
      case _ =>
    }
  }

  /** Ids handed out by one step ascend above the sequence, so they are new: not in use, not
      issued before, not repeated within the step. */
  lemma HandedOutAreNew(w: World, step: Step)
    requires Inv(w)
    ensures Ascending(HandedOut(w, step), SequenceOf(w.db))
    ensures forall id | id in HandedOut(w, step) :: id !in w.issued && id !in AllIds(w.db)
  {
    HandedOutAscend(w, step);
    forall id | id in HandedOut(w, step)
      ensures id !in w.issued && id !in AllIds(w.db)
    {
      assert Suffix(id) > SequenceOf(w.db);
      assert id in w.issued ==> IssuedId(w, id);
    }
  }

  /** Every id a step hands out is recorded as issued, so no later step hands it out again. */
  lemma NoIdIssuedTwice(w: World, first: Step, between: seq<Step>, later: Step)
    requires Inv(w) && ValidRun(w, [first] + between)
    ensures forall id | id in HandedOut(w, first) :: id !in HandedOut(Run(w, [first] + between), later)
  {
    var w1 := Apply(w, first);
    assert ([first] + between)[1..] == between;
    StepKeepsInv(w, first);
    RunKeepsInv(w1, between);
    var w2 := Run(w, [first] + between);
    HandedOutAreNew(w2, later);
    forall id | id in HandedOut(w, first)
      ensures id in w1.issued
    {
    }
  }

  // ---- Network ids ---------------------------------------------------------------------------------

  /** The ids the sequence can still issue to a network. */
  predicate Issuable(w: World, id: EntityId) {
    id.Numbered? && id.kind.Net? && id.padding == 0 && SequenceOf(w.db) < id.value <= MAX_SEQUENCE
  }

  /** An id that no future network can take. */
  predicate Spent(w: World, id: EntityId) {
    id !in w.db.networks && id !in w.pending && !Issuable(w, id)
  }

  lemma EnrollKeepsNetworkIds(db: Db, code: Code, name: string, key: KeyText, now: int, token: Token)
    requires EnrollOnce(db, code, name, key, now, token).Commit?
    ensures EnrollOnce(db, code, name, key, now, token).db.networks.Keys == db.networks.Keys
  {
  }

  /** Only `AddNetwork` puts an id into the network table. */
  lemma NetworkIdsFromAdd(w: World, step: Step)
    requires Sound(w.db) && !step.AddNetwork?
    ensures Apply(w, step).db.networks.Keys <= w.db.networks.Keys
  {
    match step {
      case Enroll(code, name, key, now, token) =>
        if Normalize(key).Some? && EnrollOnce(w.db, code, name, Normalize(key).value, now, token).Commit? {
          EnrollKeepsNetworkIds(w.db, code, name, Normalize(key).value, now, token);
        }
      case Import(network, entries) =>
        if ParseEntries(entries).Some? {
          ImportRowsKeepNetworks(w.db, network, ParseEntries(entries).value, ActiveKeys(w.db, network));
        }
      case Restart => RestartIsIdentity(w.db);
      case _ =>
    }
  }

  lemma PendingFromSequence(w: World, step: Step, id: EntityId)
    requires id !in w.pending && !Issuable(w, id)
    ensures id !in Apply(w, step).pending
  {
  }

  lemma SpentStep(w: World, step: Step, id: EntityId)
    requires Inv(w) && Enabled(w, step) && Spent(w, id)
    ensures Spent(Apply(w, step), id)
  {
    assert SequenceOf(w.db) <= SequenceOf(Apply(w, step).db) by { StepKeepsInv(w, step); }
    PendingFromSequence(w, step, id);
    if !step.AddNetwork? { NetworkIdsFromAdd(w, step); }
  }

  lemma {:induction false} ImportRowsKeepNetworks(db: Db, network: EntityId, entries: seq<ImportEntry>, seen: set<KeyText>)
    ensures var r := ImportRows(db, network, entries, seen); r.Commit? ==> r.db.networks == db.networks
    decreases |entries|
  {
    if entries != [] {
      if entries[0].key in seen {
        ImportRowsKeepNetworks(db, network, entries[1..], seen);
      } else if ImportRow(db, network, entries[0]).Commit? {
        ImportRowsKeepNetworks(ImportRow(db, network, entries[0]).db, network, entries[1..], seen + {entries[0].key});
      }
    }
  }

  /** A deleted network, or one a stale row still refers to below the sequence, never comes back. */
  lemma {:induction false} SpentForever(w: World, steps: seq<Step>, id: EntityId)
    requires Inv(w) && ValidRun(w, steps) && Spent(w, id)
    ensures id !in Run(w, steps).db.networks
    decreases |steps|
  {
    if steps != [] {
      StepKeepsInv(w, steps[0]);
      SpentStep(w, steps[0], id);
      SpentForever(Apply(w, steps[0]), steps[1..], id);
    }
  }

  function Issues(n: nat): seq<Step> {
    seq(n, _ => IssueNetworkId)
  }

  lemma {:induction false} IssueUpTo(w: World, n: nat)
    requires Inv(w) && n > 0 && SequenceOf(w.db) + n <= MAX_SEQUENCE
    ensures ValidRun(w, Issues(n))
    ensures
      var w' := Run(w, Issues(n));
      && Inv(w') && SequenceOf(w'.db) == SequenceOf(w.db) + n && w'.db.networks == w.db.networks
      && w'.db.devices == w.db.devices && Numbered(Net, SequenceOf(w.db) + n, 0) in w'.pending
    decreases n
  {
    var w1 := Apply(w, IssueNetworkId);
    StepKeepsInv(w, IssueNetworkId);
    assert Issues(n)[1..] == Issues(n - 1);
    if n > 1 {
      IssueUpTo(w1, n - 1);
    } else {
      assert Issues(0) == [];
    }
  }

  lemma {:induction false} RunOfConcat(w: World, a: seq<Step>, b: seq<Step>)
    requires ValidRun(w, a) && ValidRun(Run(w, a), b)
    ensures ValidRun(w, a + b) && Run(w, a + b) == Run(Run(w, a), b)
    decreases |a|
  {
    if a == [] {
      assert a + b == b;
    } else {
      assert (a + b)[1..] == a[1..] + b;
      RunOfConcat(Apply(w, a[0]), a[1..], b);
    }
  }

  lemma IssuableIsReachable(w: World, id: EntityId) returns (steps: seq<Step>)
    requires Inv(w) && Issuable(w, id) && id !in w.db.networks
    ensures ValidRun(w, steps) && id in Run(w, steps).db.networks && Run(w, steps).db.devices == w.db.devices
  {
    var n := id.value - SequenceOf(w.db);
    IssueUpTo(w, n);
    var w1 := Run(w, Issues(n));
    var add := AddNetwork(id, (100, 72, 16), (0xfd72, 0x15ab, 0));
    assert [add][1..] == [];
    assert ValidRun(Apply(w1, add), []);
    RunOfConcat(w, Issues(n), [add]);
    steps := Issues(n) + [add];
  }

  /** No step moves a device to another network. */
  lemma StepKeepsHome(w: World, step: Step, id: EntityId)
    requires Inv(w) && id in w.db.devices
    ensures id in Apply(w, step).db.devices && Apply(w, step).db.devices[id].network == w.db.devices[id].network
  {
    match step {
      case Enroll(code, name, key, now, token) =>
        if Normalize(key).Some? && EnrollOnce(w.db, code, name, Normalize(key).value, now, token).Commit? {
          EnrollKeepsHome(w.db, code, name, Normalize(key).value, now, token, id);
        }
      case Import(network, entries) =>
        if ParseEntries(entries).Some? { ImportKeepsHome(w.db, network, ParseEntries(entries).value, id); }
      case Restart => RestartIsIdentity(w.db);
      case _ => PlainStepKeepsHome(w, step, id);
    }
  }

  lemma PlainStepKeepsHome(w: World, step: Step, id: EntityId)
    requires id in w.db.devices && !step.Enroll? && !step.Import? && !step.Restart?
    ensures id in Apply(w, step).db.devices && Apply(w, step).db.devices[id].network == w.db.devices[id].network
  {
  }

  lemma ImportKeepsHome(db: Db, network: EntityId, entries: seq<ImportEntry>, id: EntityId)
    requires Sound(db) && EntriesParsed(entries) && id in db.devices
    ensures ImportOnce(db, network, entries).Commit? ==>
              id in ImportOnce(db, network, entries).db.devices && ImportOnce(db, network, entries).db.devices[id] == db.devices[id]
  {
    if ImportOnce(db, network, entries).Commit? { ImportRowsGrow(db, network, entries, ActiveKeys(db, network)); }
  }

  lemma EnrollKeepsHome(db: Db, code: Code, name: string, key: KeyText, now: int, token: Token, id: EntityId)
    requires Sound(db) && id in db.devices && EnrollOnce(db, code, name, key, now, token).Commit?
    ensures
      var db' := EnrollOnce(db, code, name, key, now, token).db;
      id in db'.devices && db'.devices[id].network == db.devices[id].network
  {
    EnrollCases(db, code, name, key, now, token);
    if EnrollOnce(db, code, name, key, now, token).value.created {
      FewerIdsKeepSound(db, Consumed(db, code));
      EnrollNewShape(Consumed(db, code), db.invites[code].network, name, key, token);
    }
  }

  lemma {:induction false} RunKeepsHome(w: World, steps: seq<Step>, id: EntityId)
    requires Inv(w) && ValidRun(w, steps) && id in w.db.devices
    ensures id in Run(w, steps).db.devices && Run(w, steps).db.devices[id].network == w.db.devices[id].network
    decreases |steps|
  {
    if steps != [] {
      StepKeepsInv(w, steps[0]);
      StepKeepsHome(w, steps[0], id);
      RunKeepsHome(Apply(w, steps[0]), steps[1..], id);
    }
  }

  /** The migration raises the sequence above the ids of rows, but not above the network ids that
      rows merely refer to. An active device with a token whose network is missing, and not about to
      be inserted, becomes readable in some run exactly when the sequence can still issue that
      network's id. */
  lemma DanglingDeviceRevivableIff(w: World, id: EntityId)
    requires Inv(w) && id in w.db.devices && w.db.devices[id].status.Active? && w.db.devices[id].token.Some?
    requires w.db.devices[id].network !in w.db.networks && w.db.devices[id].network !in w.pending
    ensures (exists steps :: ValidRun(w, steps) && ReadableToken(Run(w, steps).db, id).Some?) <==> Issuable(w, w.db.devices[id].network)
  {
    var home := w.db.devices[id].network;
    if Issuable(w, home) {
      var steps := IssuableIsReachable(w, home);
      assert ReadableToken(Run(w, steps).db, id).Some?;
    } else {
      forall steps | ValidRun(w, steps)
        ensures ReadableToken(Run(w, steps).db, id).None?
      {
        SpentForever(w, steps, home);
        RunKeepsHome(w, steps, id);
      }
    }
  }

  const ORPHAN: EntityId := Numbered(Dev, 1, 0)

  /** One active device with a token, of a network that is not there. */
  function OrphanDb(): Db {
    Db(map[], map[], map[ORPHAN := Device(Numbered(Net, 5, 0), "", Canonical(0), None, None, Active, Some(7))], map[], map[], None)
  }

  lemma OrphanSequence()
    ensures Migratable(OrphanDb()) && SequenceOf(Migrated(OrphanDb())) == 1
  {
    assert AllIds(OrphanDb()) == {ORPHAN};
  }

  /** Such a row: its token is unreadable when the store opens, and a later run makes it readable. */
  lemma OrphanTokenRevived() returns (steps: seq<Step>)
    ensures Migratable(OrphanDb())
    ensures
      var w := Start(OrphanDb());
      ReadableToken(w.db, ORPHAN).None? && ValidRun(w, steps) && ReadableToken(Run(w, steps).db, ORPHAN) == Some(7)
  {
    OrphanSequence();
    StartSatisfiesInv(OrphanDb());
    var w := Start(OrphanDb());
    steps := IssuableIsReachable(w, Numbered(Net, 5, 0));
  }
}
