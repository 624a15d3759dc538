/**
 The durable control store (`control-server/src/sql_store.rs`, `integrity.rs`): tables as
 maps, each `*_once` method as a transaction that commits a new database or aborts.
 */
module SqlStore {
  import opened Common
  import opened HostPool

  // ---- Column values -----------------------------------------------------------------

  datatype Kind = Net | Dev | Relay | Route

  /** An id text: `<kind>-<digits>` with its leading zeros, or anything else. */
  datatype EntityId = Numbered(kind: Kind, value: nat, padding: nat) | Named(text: string)

  /** A public key text: canonical hex, another spelling of a key, or not a key. */
  datatype KeyText = Canonical(key: nat) | Spelling(key: nat, form: nat) | Garbage(text: string)

  function Normalize(k: KeyText): Option<KeyText> {
    match k
    case Canonical(_) => Some(k)
    case Spelling(key, _) => Some(Canonical(key))
    case Garbage(_) => None
  }

  type Octet = n: nat | n < 256

  /** An address text. The only accepted IPv4 text is the canonical dotted quad. */
  datatype V4Text = Dotted(a: Octet, b: Octet, c: Octet, d: Octet) | NotV4(text: string)
  datatype V6Text = Host6(p: (nat, nat, nat), host: Octet) | Other6(text: string)

  datatype Status = Active | Revoked | Unknown(text: string)

  const MAX_SEQUENCE: nat := 0x7fff_ffff_ffff_ffff
  type Serial = n: nat | n <= MAX_SEQUENCE

  type Token = nat
  type Code = nat

  // ---- Tables -------------------------------------------------------------------------

  /** Pools are kept as parsed; None is a text that does not parse. */
  datatype Network = Network(pool4: Option<(Octet, Octet, Octet)>, pool6: Option<(nat, nat, nat)>, epoch: nat)
  datatype Invite = Invite(network: EntityId, expiresAt: Option<int>, maxUses: Option<nat>, uses: nat)
  datatype Device = Device(network: EntityId, name: string, key: KeyText, v4: Option<V4Text>, v6: Option<V6Text>,
                           status: Status, token: Option<Token>)

  /** Routes carry their normalised prefix. */
  datatype RouteRow = RouteRow(network: EntityId, device: EntityId, prefix: string, approved: bool)

  datatype Db = Db(
    networks: map<EntityId, Network>,
    invites: map<Code, Invite>,
    devices: map<EntityId, Device>,
    routes: map<EntityId, RouteRow>,
    relays: map<EntityId, Option<EntityId>>,  // relay id -> scope
    sequence: Option<Serial>)                 // None before the first migration

  datatype Error =
    | NetworkNotFound | DeviceNotFound | RelayNotFound | InvalidPrefix | RouteApproved
    | DeviceForbidden | DeviceUnauthorized | InvalidKey | InvalidAddress | InvalidInvite
    | PoolExhausted | BadPool | SequenceMissing | SequenceExhausted | UniqueViolation | BadLegacyData

  datatype Tx<T> = Commit(db: Db, value: T) | Abort(error: Error)

  // ---- Statements ----------------------------------------------------------------------

  /** `integrity::next`: the sequence value is the only source of new ids. */
  function NextId(db: Db, kind: Kind): Tx<EntityId> {
    if db.sequence.None? then Abort(SequenceMissing)
    else if db.sequence.value >= MAX_SEQUENCE then Abort(SequenceExhausted)
    else
      var v := db.sequence.value + 1;
      Commit(db.(sequence := Some(v)), Numbered(kind, v, 0))
  }

  function Bumped(networks: map<EntityId, Network>, id: EntityId): map<EntityId, Network> {
    if id in networks then networks[id := networks[id].(epoch := networks[id].epoch + 1)] else networks
  }

  predicate SameSlot(x: Device, y: Device) {
    x.network == y.network && (x.key == y.key || (x.v4.Some? && x.v4 == y.v4))
  }

  /** Insert one row: primary key, key text, and the two partial unique indexes. */
  function InsertDevice(db: Db, id: EntityId, d: Device): Tx<()> {
    match Normalize(d.key)
    case None => Abort(InvalidKey)
    case Some(key) =>
      var row := d.(key := key);
      if id in db.devices then Abort(UniqueViolation)
      else if row.status.Active? && exists other | other in db.devices :: db.devices[other].status.Active? && SameSlot(db.devices[other], row)
      then Abort(UniqueViolation)
      else Commit(db.(devices := db.devices[id := row]), ())
  }

  predicate ActiveIn(d: Device, network: EntityId) {
    d.network == network && d.status.Active?
  }

  function ActiveKeys(db: Db, network: EntityId): set<KeyText> {
    set id | id in db.devices && ActiveIn(db.devices[id], network) :: db.devices[id].key
  }

  function UsedHosts(db: Db, network: EntityId): set<nat> {
    set id | id in db.devices && ActiveIn(db.devices[id], network)
             && db.devices[id].v4.Some? && db.devices[id].v4.value.Dotted? :: db.devices[id].v4.value.d as nat
  }

  /** Lowest free host of the device range, paired over both families. */
  function AllocateAddress(db: Db, network: EntityId, net: Network): (r: Tx<(V4Text, V6Text)>)
    ensures r.Commit? ==>
              && net.pool4.Some? && net.pool6.Some? && r.value.0.Dotted? && r.value.1 == Host6(net.pool6.value, r.value.0.d)
              && DEVICE_HOST_MIN <= r.value.0.d <= DEVICE_HOST_MAX && r.value.0.d as nat !in UsedHosts(db, network)
              && forall g: nat | DEVICE_HOST_MIN <= g < r.value.0.d :: g in UsedHosts(db, network)
    ensures net.pool4.Some? && net.pool6.Some? ==>
              (r == Abort(PoolExhausted) <==> forall h: nat | DEVICE_HOST_MIN <= h <= DEVICE_HOST_MAX :: h in UsedHosts(db, network))
  {
    if net.pool4.None? || net.pool6.None? then Abort(BadPool)
    else
      match LeastFreeHost(UsedHosts(db, network))
      case None => Abort(PoolExhausted)
      case Some(h) =>
        var (a, b, c) := net.pool4.value;
        Commit(db, (Dotted(a, b, c, h), Host6(net.pool6.value, h)))
  }

  // ---- Transactions -----------------------------------------------------------------------

  datatype Enrollment = Enrollment(id: EntityId, created: bool)

  predicate Expired(inv: Invite, now: int) {
    inv.expiresAt.Some? && now >= inv.expiresAt.value
  }

  predicate HasUses(inv: Invite) {
    inv.maxUses.None? || inv.uses < inv.maxUses.value
  }

  ghost function EnrollOnce(db: Db, code: Code, name: string, key: KeyText, now: int, token: Token): Tx<Enrollment> {
    if db.sequence.None? then Abort(SequenceMissing)
    else if code !in db.invites || Expired(db.invites[code], now) then Abort(InvalidInvite)
    else
      var inv := db.invites[code];
      if inv.network !in db.networks then Abort(NetworkNotFound)
      else if known :| known in db.devices && ActiveIn(db.devices[known], inv.network) && db.devices[known].key == key then
        Commit(db.(devices := db.devices[known := db.devices[known].(token := Some(token))]), Enrollment(known, false))
      else if !HasUses(inv) then Abort(InvalidInvite)
      else EnrollNew(db.(invites := db.invites[code := inv.(uses := inv.uses + 1)]), inv.network, name, key, token)
  }

  /** The creating half of an enrollment, after the invite use is consumed. */
  function EnrollNew(db: Db, network: EntityId, name: string, key: KeyText, token: Token): Tx<Enrollment>
    requires network in db.networks
  {
    match AllocateAddress(db, network, db.networks[network])
    case Abort(e) => Abort(e)
    case Commit(_, addr) =>
      match NextId(db, Dev)
      case Abort(e) => Abort(e)
      case Commit(db1, id) =>
        var d := Device(network, name, key, Some(addr.0), Some(addr.1), Active, None);
        match InsertDevice(db1, id, d)
        case Abort(e) => Abort(e)
        case Commit(db2, _) =>
          Commit(db2.(devices := db2.devices[id := db2.devices[id].(token := Some(token))],
                      networks := Bumped(db2.networks, network)), Enrollment(id, true))
  }

  datatype ImportEntry = ImportEntry(name: string, key: KeyText, v4: Option<V4Text>, v6: Option<V6Text>)
  datatype Imported = Imported(created: seq<EntityId>, skipped: seq<KeyText>)

  function ImportRow(db: Db, network: EntityId, e: ImportEntry): Tx<EntityId> {
    match NextId(db, Dev)
    case Abort(err) => Abort(err)
    case Commit(db1, id) =>
      match InsertDevice(db1, id, Device(network, e.name, e.key, e.v4, e.v6, Active, None))
      case Abort(err) => Abort(err)
      case Commit(db2, _) => Commit(db2, id)
  }

  /** The import loop from entry 0 on; `seen` starts as the network's active keys. */
  function ImportRows(db: Db, network: EntityId, entries: seq<ImportEntry>, seen: set<KeyText>): Tx<Imported>
    decreases |entries|
  {
    if entries == [] then Commit(db, Imported([], []))
    else if entries[0].key in seen then
      match ImportRows(db, network, entries[1..], seen)
      case Abort(err) => Abort(err)
      case Commit(db', r) => Commit(db', r.(skipped := [entries[0].key] + r.skipped))
    else
      match ImportRow(db, network, entries[0])
      case Abort(err) => Abort(err)
      case Commit(db1, id) =>
        match ImportRows(db1, network, entries[1..], seen + {entries[0].key})
        case Abort(err) => Abort(err)
        case Commit(db', r) => Commit(db', r.(created := [id] + r.created))
  }

  function ImportOnce(db: Db, network: EntityId, entries: seq<ImportEntry>): Tx<Imported> {
    if db.sequence.None? then Abort(SequenceMissing)
    else if network !in db.networks then Abort(NetworkNotFound)
    else
      match ImportRows(db, network, entries, ActiveKeys(db, network))
      case Abort(err) => Abort(err)
      case Commit(db', r) =>
        Commit(if r.created == [] then db' else db'.(networks := Bumped(db'.networks, network)), r)
  }

  function Retired(d: Device): Device {
    d.(status := Revoked, v4 := None, v6 := None, token := None)
  }

  function Retire(devices: map<EntityId, Device>, ids: set<EntityId>): map<EntityId, Device> {
    map id | id in devices :: if id in ids then Retired(devices[id]) else devices[id]
  }

  function RevokeDeviceOnce(db: Db, id: EntityId): Tx<()> {
    if db.sequence.None? then Abort(SequenceMissing)
    else if id !in db.devices then Abort(DeviceNotFound)
    else Commit(db.(devices := Retire(db.devices, {id}), networks := Bumped(db.networks, db.devices[id].network)), ())
  }

  function Members(db: Db, network: EntityId): set<EntityId> {
    set id | id in db.devices && db.devices[id].network == network
  }

  function DeleteNetworkOnce(db: Db, network: EntityId): Tx<()> {
    if db.sequence.None? then Abort(SequenceMissing)
    else if network !in db.networks then Abort(NetworkNotFound)
    else Commit(db.(devices := Retire(db.devices, Members(db, network)),
                    invites := map c | c in db.invites && db.invites[c].network != network :: db.invites[c],
                    routes := map r | r in db.routes && db.routes[r].network != network :: db.routes[r],
                    relays := map r | r in db.relays && db.relays[r] != Some(network) :: db.relays[r],
                    networks := db.networks - {network}), ())
  }

  function CreateInviteOnce(db: Db, network: EntityId, expiresAt: Option<int>, maxUses: Option<nat>, code: Code): Tx<Code> {
    if db.sequence.None? then Abort(SequenceMissing)
    else if network !in db.networks then Abort(NetworkNotFound)
    else if code in db.invites then Abort(UniqueViolation)
    else Commit(db.(invites := db.invites[code := Invite(network, expiresAt, maxUses, 0)]), code)
  }

  function RevokeInviteOnce(db: Db, network: EntityId, code: Code): Tx<()> {
    if db.sequence.None? then Abort(SequenceMissing)
    else if network !in db.networks then Abort(NetworkNotFound)
    else if code !in db.invites || db.invites[code].network != network then Abort(InvalidInvite)
    else Commit(db.(invites := db.invites - {code}), ())
  }

  /** The insert of `create_network`, a statement of its own after the id was issued. */
  function InsertNetwork(db: Db, id: EntityId, net: Network): Tx<()> {
    if id in db.networks then Abort(UniqueViolation)
    else Commit(db.(networks := db.networks[id := net]), ())
  }

  /** An invalid prefix aborts the transaction, the id it drew included. */
  function AdvertiseRouteOnce(db: Db, device: EntityId, prefix: Option<string>): Tx<EntityId> {
    if device !in db.devices || !db.devices[device].status.Active? || db.devices[device].network !in db.networks
    then Abort(DeviceNotFound)
    else InsertRoute(db, db.devices[device].network, device, prefix)
  }

  function InsertRoute(db: Db, network: EntityId, device: EntityId, prefix: Option<string>): Tx<EntityId> {
    match NextId(db, Route)
    case Abort(e) => Abort(e)
    case Commit(db1, id) =>
      if prefix.None? then Abort(InvalidPrefix)
      else if id in db1.routes then Abort(UniqueViolation)
      else Commit(db1.(routes := db1.routes[id := RouteRow(network, device, prefix.value, false)]), id)
  }

  predicate Credential(d: Device, db: Db) {
    d.status.Active? && d.token.Some? && d.network in db.networks
  }

  predicate Requests(r: RouteRow, device: EntityId, prefix: string) {
    r.device == device && r.prefix == prefix
  }

  /** `device_route_change`: a device adds or withdraws a pending route of its own. The value is the id
      of a route it made. */
  function DeviceRouteChangeOnce(db: Db, device: EntityId, token: Token, prefix: Option<string>, withdraw: bool): Tx<Option<EntityId>> {
    if db.sequence.None? then Abort(SequenceMissing)
    else if device !in db.devices || !Credential(db.devices[device], db) || db.devices[device].token != Some(token) then
      Abort(if exists d | d in db.devices :: Credential(db.devices[d], db) && db.devices[d].token == Some(token)
            then DeviceForbidden else DeviceUnauthorized)
    else if prefix.None? then Abort(InvalidPrefix)
    else if withdraw then
      if exists r | r in db.routes :: Requests(db.routes[r], device, prefix.value) && db.routes[r].approved then Abort(RouteApproved)
      else Commit(db.(routes := map r | r in db.routes && !Requests(db.routes[r], device, prefix.value) :: db.routes[r]), None)
    else if exists r | r in db.routes :: Requests(db.routes[r], device, prefix.value) then Commit(db, None)
    else
      match InsertRoute(db, db.devices[device].network, device, prefix)
      case Abort(e) => Abort(e)
      case Commit(db1, id) => Commit(db1, Some(id))
  }

  /** The single statements of `approve_route` and `delete_route`; the bump is another. */
  function ApproveRoute(db: Db, route: EntityId): Db {
    if route in db.routes then db.(routes := db.routes[route := db.routes[route].(approved := true)]) else db
  }

  function DeleteRoute(db: Db, route: EntityId): Db {
    db.(routes := db.routes - {route})
  }

  function BumpScope(networks: map<EntityId, Network>, scope: Option<EntityId>): map<EntityId, Network> {
    map id | id in networks ::
      if scope.None? || scope == Some(id) then networks[id].(epoch := networks[id].epoch + 1) else networks[id]
  }

  function RegisterRelayOnce(db: Db, scope: Option<EntityId>): Tx<EntityId> {
    if scope.Some? && scope.value !in db.networks then Abort(NetworkNotFound)
    else
      match NextId(db, Relay)
      case Abort(e) => Abort(e)
      case Commit(db1, id) =>
        if id in db1.relays then Abort(UniqueViolation)
        else Commit(db1.(relays := db1.relays[id := scope], networks := BumpScope(db1.networks, scope)), id)
  }

  function UpdateRelayOnce(db: Db, relay: EntityId, scope: Option<EntityId>): Tx<()> {
    if db.sequence.None? then Abort(SequenceMissing)
    else if scope.Some? && scope.value !in db.networks then Abort(NetworkNotFound)
    else if relay !in db.relays then Abort(RelayNotFound)
    else
      var was := db.relays[relay];
      Commit(db.(relays := db.relays[relay := scope],
                 networks := map n | n in db.networks ::
                   if was.None? || scope.None? || was == Some(n) || scope == Some(n)
                   then db.networks[n].(epoch := db.networks[n].epoch + 1) else db.networks[n]), ())
  }

  // ---- Migration ------------------------------------------------------------------------------

  function AllIds(db: Db): set<EntityId> {
    db.networks.Keys + db.devices.Keys + db.routes.Keys + db.relays.Keys
  }

  /** Every numeric suffix in use fits the sequence. */
  predicate SuffixesFit(db: Db) {
    forall id | id in AllIds(db) :: id.Numbered? ==> id.value <= MAX_SEQUENCE
  }

  function Suffix(id: EntityId): nat {
    if id.Numbered? then id.value else 0
  }

  ghost function MaxSuffix(ids: set<EntityId>): (m: nat)
    ensures forall id | id in ids :: Suffix(id) <= m
    ensures m == 0 || exists id | id in ids :: Suffix(id) == m
  {
    if ids == {} then 0
    else
      var id :| id in ids;
      var rest := MaxSuffix(ids - {id});
      if Suffix(id) > rest then Suffix(id) else rest
  }

  /** A row the migration can keep: known status and, when active, a key and an address that parse. */
  predicate RowLegal(d: Device) {
    && !d.status.Unknown?
    && (d.status.Active? ==> Normalize(d.key).Some? && (d.v4.Some? ==> d.v4.value.Dotted?))
  }

  predicate Clash(x: Device, y: Device) {
    && x.status.Active? && y.status.Active? && x.network == y.network
    && (Normalize(x.key) == Normalize(y.key) || (x.v4.Some? && x.v4 == y.v4))
  }

  ghost predicate Migratable(db: Db) {
    && SuffixesFit(db)
    && (forall id | id in db.devices :: RowLegal(db.devices[id]))
    && (forall x, y | x in db.devices && y in db.devices && x != y :: !Clash(db.devices[x], db.devices[y]))
  }

  function NormalKey(k: KeyText): KeyText {
    match Normalize(k)
    case Some(n) => n
    case None => k
  }

  function NormalRow(d: Device): Device {
    if d.status.Active? then d.(key := NormalKey(d.key))
    else d.(key := NormalKey(d.key), v4 := None, v6 := None, token := None)
  }

  /** Networks with an active row the migration rewrites. */
  function Changed(devices: map<EntityId, Device>): set<EntityId> {
    set id | id in devices && devices[id].status.Active? && NormalRow(devices[id]) != devices[id] :: devices[id].network
  }

  function BumpAll(networks: map<EntityId, Network>, ids: set<EntityId>): map<EntityId, Network> {
    map id | id in networks :: if id in ids then networks[id].(epoch := networks[id].epoch + 1) else networks[id]
  }

  function SequenceOf(db: Db): Serial {
    if db.sequence.Some? then db.sequence.value else 0
  }

  ghost function Migrated(db: Db): Db
    requires Migratable(db)
  {
    var top := MaxSuffix(AllIds(db));
    db.(devices := map id | id in db.devices :: NormalRow(db.devices[id]),
        networks := BumpAll(db.networks, Changed(db.devices)),
        sequence := Some(if SequenceOf(db) < top then top else SequenceOf(db)))
  }

  ghost function Migrate(db: Db): Tx<()> {
    if Migratable(db) then Commit(Migrated(db), ()) else Abort(BadLegacyData)
  }

  // ---- What every committed database satisfies ------------------------------------------------

  /** Active devices of a network have distinct keys and distinct IPv4 addresses. */
  ghost predicate DistinctActive(devices: map<EntityId, Device>) {
    forall x, y | x in devices && y in devices && x != y && devices[x].status.Active? && devices[y].status.Active? ::
      !SameSlot(devices[x], devices[y])
  }

  predicate SettledRow(d: Device) {
    && RowLegal(d)
    && NormalRow(d) == d
  }

  ghost predicate Settled(devices: map<EntityId, Device>) {
    forall id | id in devices :: SettledRow(devices[id])
  }

  /** The sequence dominates every numeric suffix in use. */
  ghost predicate Dominated(db: Db) {
    && db.sequence.Some?
    && forall id | id in AllIds(db) :: Suffix(id) <= db.sequence.value
  }

  ghost predicate Sound(db: Db) {
    Dominated(db) && Settled(db.devices) && DistinctActive(db.devices)
  }

  // ---- Migration theorems ---------------------------------------------------------------------

  lemma NormalRowSettles(d: Device)
    requires RowLegal(d)
    ensures SettledRow(NormalRow(d))
  {
  }

  lemma NormalRowsKeepApart(x: Device, y: Device)
    requires RowLegal(x) && RowLegal(y) && !Clash(x, y) && x.status.Active? && y.status.Active?
    ensures !SameSlot(NormalRow(x), NormalRow(y))
  {
  }

  /** Whatever the legacy contents, a migration that commits leaves a sound database. */
  lemma MigrationSettles(db: Db)
    requires Migratable(db)
    ensures Sound(Migrated(db))
  {
    var m := Migrated(db);
    forall id | id in m.devices
      ensures SettledRow(m.devices[id])
    {
      NormalRowSettles(db.devices[id]);
    }
    forall x, y | x in m.devices && y in m.devices && x != y && m.devices[x].status.Active? && m.devices[y].status.Active?
      ensures !SameSlot(m.devices[x], m.devices[y])
    {
      NormalRowsKeepApart(db.devices[x], db.devices[y]);
    }
    assert Dominated(m) by {
      assert AllIds(m) == AllIds(db);
    }
  }

  /** On a sound database migration is the identity: a restart rewrites no row, bumps no
      epoch and leaves the sequence alone. */
  lemma RestartIsIdentity(db: Db)
    requires Sound(db)
    ensures Migrate(db) == Commit(db, ())
  {
    forall id | id in db.devices
      ensures RowLegal(db.devices[id]) && NormalRow(db.devices[id]) == db.devices[id]
    {
      assert SettledRow(db.devices[id]);
    }
    forall x, y | x in db.devices && y in db.devices && x != y
      ensures !Clash(db.devices[x], db.devices[y])
    {
      assert SettledRow(db.devices[x]) && SettledRow(db.devices[y]);
    }
    var m := Migrated(db);
    assert m.devices == db.devices;
    assert Changed(db.devices) == {};
    assert m.networks == db.networks;
  }

  /** A second migration straight after a successful one changes nothing. */
  lemma MigrateTwice(db: Db)
    requires Migrate(db).Commit?
    ensures Migrate(Migrate(db).db) == Migrate(db)
  {
    MigrationSettles(db);
    RestartIsIdentity(Migrated(db));
  }

  // ---- Every transaction keeps the database sound ------------------------------------------------

  lemma NextIdKeepsSound(db: Db, kind: Kind)
    requires Sound(db) && NextId(db, kind).Commit?
    ensures Sound(NextId(db, kind).db)
    ensures NextId(db, kind).value !in AllIds(db)
  {
  }

  lemma InsertKeepsSound(db: Db, id: EntityId, d: Device)
    requires Sound(db) && InsertDevice(db, id, d).Commit?
    requires Suffix(id) <= db.sequence.value
    requires d.status.Active? && (d.v4.Some? ==> d.v4.value.Dotted?)
    ensures Sound(InsertDevice(db, id, d).db)
  {
  }

  lemma TokenKeepsSound(db: Db, id: EntityId, token: Token)
    requires Sound(db) && id in db.devices && db.devices[id].status.Active?
    ensures Sound(WithToken(db, id, token))
  {
  }

  /** Soundness looks only at the devices, the sequence and the ids in use. */
  lemma FewerIdsKeepSound(db: Db, db': Db)
    requires Sound(db)
    requires db'.devices == db.devices && db'.sequence == db.sequence && AllIds(db') <= AllIds(db)
    ensures Sound(db')
  {
  }

  lemma EnrollNewKeepsSound(db: Db, network: EntityId, name: string, key: KeyText, token: Token)
    requires Sound(db) && network in db.networks
    requires EnrollNew(db, network, name, key, token).Commit?
    ensures Sound(EnrollNew(db, network, name, key, token).db)
  {
    var addr := AllocateAddress(db, network, db.networks[network]).value;
    var Commit(db1, id) := NextId(db, Dev);
    NextIdKeepsSound(db, Dev);
    var d := Device(network, name, key, Some(addr.0), Some(addr.1), Active, None);
    InsertKeepsSound(db1, id, d);
    var db2 := InsertDevice(db1, id, d).db;
    TokenKeepsSound(db2, id, token);
    FewerIdsKeepSound(WithToken(db2, id, token), EnrollNew(db, network, name, key, token).db);
  }

  ghost function Consumed(db: Db, code: Code): Db
    requires code in db.invites
  {
    db.(invites := db.invites[code := db.invites[code].(uses := db.invites[code].uses + 1)])
  }

  function WithToken(db: Db, id: EntityId, token: Token): Db
    requires id in db.devices
  {
    db.(devices := db.devices[id := db.devices[id].(token := Some(token))])
  }

  /** A committed enrollment either rotates the token of the active holder of the key, or
      consumes one use and creates a device. */
  lemma EnrollCases(db: Db, code: Code, name: string, key: KeyText, now: int, token: Token)
    requires EnrollOnce(db, code, name, key, now, token).Commit?
    ensures code in db.invites && db.invites[code].network in db.networks
    ensures
      var r := EnrollOnce(db, code, name, key, now, token);
      var network := db.invites[code].network;
      if r.value.created
      then HasUses(db.invites[code]) && r == EnrollNew(Consumed(db, code), network, name, key, token)
      else r.value.id in db.devices && ActiveIn(db.devices[r.value.id], network) && db.devices[r.value.id].key == key
           && r.db == WithToken(db, r.value.id, token)
  {
  }

  lemma EnrollKeepsSound(db: Db, code: Code, name: string, key: KeyText, now: int, token: Token)
    requires Sound(db) && EnrollOnce(db, code, name, key, now, token).Commit?
    ensures Sound(EnrollOnce(db, code, name, key, now, token).db)
  {
    EnrollCases(db, code, name, key, now, token);
    var r := EnrollOnce(db, code, name, key, now, token);
    if r.value.created {
      FewerIdsKeepSound(db, Consumed(db, code));
      EnrollNewKeepsSound(Consumed(db, code), db.invites[code].network, name, key, token);
    } else {
      TokenKeepsSound(db, r.value.id, token);
    }
  }

  /** The active holder of a key in a network. */
  predicate HoldsKey(db: Db, id: EntityId, network: EntityId, key: KeyText) {
    id in db.devices && ActiveIn(db.devices[id], network) && db.devices[id].key == key
  }

  lemma SoleHolder(db: Db, network: EntityId, key: KeyText, x: EntityId, y: EntityId)
    requires Sound(db) && HoldsKey(db, x, network, key) && HoldsKey(db, y, network, key)
    ensures x == y
  {
    assert SameSlot(db.devices[x], db.devices[y]);
  }

  lemma EnrollNewEffect(db: Db, network: EntityId, name: string, key: KeyText, token: Token)
    requires Sound(db) && network in db.networks && key.Canonical? && EnrollNew(db, network, name, key, token).Commit?
    ensures
      var Commit(db', r) := EnrollNew(db, network, name, key, token);
      && r.id !in db.devices && HoldsKey(db', r.id, network, key) && db'.devices[r.id].token == Some(token)
      && db'.devices == db.devices[r.id := db'.devices[r.id]] && db'.invites == db.invites && db'.networks == Bumped(db.networks, network)
  {
  }

  /** What a committed enrollment did for its caller: the one active holder of the key in the invite's
      network is the device returned, with the token returned; every other device is as it was; a
      use was charged and the network's epoch raised exactly if nobody held the key. */
  lemma EnrollEffect(db: Db, code: Code, name: string, key: KeyText, now: int, token: Token)
    requires Sound(db) && key.Canonical? && EnrollOnce(db, code, name, key, now, token).Commit?
    ensures
      var Commit(db', r) := EnrollOnce(db, code, name, key, now, token);
      var n := db.invites[code].network;
      && (forall x :: HoldsKey(db', x, n, key) <==> x == r.id)
      && db'.devices[r.id].token == Some(token)
      && (forall x | x != r.id :: (x in db'.devices <==> x in db.devices) && (x in db.devices ==> db'.devices[x] == db.devices[x]))
      && (r.created <==> !exists x :: HoldsKey(db, x, n, key))
      && db'.invites == (if r.created then Consumed(db, code).invites else db.invites)
      && db'.networks == (if r.created then Bumped(db.networks, n) else db.networks)
  {
    EnrollCases(db, code, name, key, now, token);
    EnrollKeepsSound(db, code, name, key, now, token);
    var Commit(db', r) := EnrollOnce(db, code, name, key, now, token);
    var n := db.invites[code].network;
    if r.created {
      FewerIdsKeepSound(db, Consumed(db, code));
      EnrollNewEffect(Consumed(db, code), n, name, key, token);
      assert !exists x :: HoldsKey(db, x, n, key) by { CreatedMeansUnheld(db, code, name, key, now, token); }
    } else {
      assert HoldsKey(db, r.id, n, key);
    }
    forall x | HoldsKey(db', x, n, key)
      ensures x == r.id
    {
      SoleHolder(db', n, key, x, r.id);
    }
  }

  lemma CreatedMeansUnheld(db: Db, code: Code, name: string, key: KeyText, now: int, token: Token)
    requires EnrollOnce(db, code, name, key, now, token).Commit? && EnrollOnce(db, code, name, key, now, token).value.created
    ensures code in db.invites && !exists x :: HoldsKey(db, x, db.invites[code].network, key)
  {
  }

  /** Enrolling is idempotent: the same key through the same invite again gives the same device a new
      token and charges nothing, even when the invite is used up. */
  lemma ReenrollRotates(db: Db, code: Code, name: string, key: KeyText, now: int, token: Token, name': string, now': int, token': Token)
    requires Sound(db) && key.Canonical? && EnrollOnce(db, code, name, key, now, token).Commit? && !Expired(db.invites[code], now')
    ensures
      var Commit(db1, r1) := EnrollOnce(db, code, name, key, now, token);
      EnrollOnce(db1, code, name', key, now', token') == Commit(WithToken(db1, r1.id, token'), Enrollment(r1.id, false))
  {
    EnrollEffect(db, code, name, key, now, token);
    var Commit(db1, r1) := EnrollOnce(db, code, name, key, now, token);
    var n := db.invites[code].network;
    EnrollCases(db, code, name, key, now, token);
    assert HoldsKey(db1, r1.id, n, key);
    assert forall known | known in db1.devices && ActiveIn(db1.devices[known], n) && db1.devices[known].key == key :: HoldsKey(db1, known, n, key);
  }

  /** The address and key an enrollment picks are never refused by the unique indexes, nor
      is its id by the primary key. */
  lemma EnrollNeverTripsIndex(db: Db, code: Code, name: string, key: KeyText, now: int, token: Token)
    requires Sound(db) && key.Canonical?
    ensures EnrollOnce(db, code, name, key, now, token) != Abort(UniqueViolation)
  {
    if code in db.invites && !Expired(db.invites[code], now) && db.invites[code].network in db.networks {
      var network := db.invites[code].network;
      var db1 := Consumed(db, code);
      var alloc := AllocateAddress(db1, network, db1.networks[network]);
      if alloc.Commit? && NextId(db1, Dev).Commit?
         && !exists known | known in db.devices :: ActiveIn(db.devices[known], network) && db.devices[known].key == key {
        FewerIdsKeepSound(db, db1);
        NextIdKeepsSound(db1, Dev);
        var row := Device(network, name, key, Some(alloc.value.0), Some(alloc.value.1), Active, None);
        forall other | other in db.devices && db.devices[other].status.Active?
          ensures !SameSlot(db.devices[other], row)
        {
          assert SettledRow(db.devices[other]);
          if db.devices[other].network == network && db.devices[other].v4.Some? {
            assert db.devices[other].v4.value.d as nat in UsedHosts(db1, network);
          }
        }
      }
    }
  }

  ghost predicate EntriesParsed(entries: seq<ImportEntry>) {
    forall e | e in entries :: e.key.Canonical? && (e.v4.Some? ==> e.v4.value.Dotted?)
  }

  lemma ImportRowKeepsSound(db: Db, network: EntityId, e: ImportEntry)
    requires Sound(db) && ImportRow(db, network, e).Commit?
    requires e.v4.Some? ==> e.v4.value.Dotted?
    ensures Sound(ImportRow(db, network, e).db)
  {
  }

  lemma {:induction false} ImportRowsKeepSound(db: Db, network: EntityId, entries: seq<ImportEntry>, seen: set<KeyText>)
    requires Sound(db) && EntriesParsed(entries) && ImportRows(db, network, entries, seen).Commit?
    ensures Sound(ImportRows(db, network, entries, seen).db)
    decreases |entries|
  {
    if entries != [] {
      assert entries[0] in entries;
      if entries[0].key in seen {
        ImportRowsKeepSound(db, network, entries[1..], seen);
      } else {
        ImportRowKeepsSound(db, network, entries[0]);
        ImportRowsKeepSound(ImportRow(db, network, entries[0]).db, network, entries[1..], seen + {entries[0].key});
      }
    }
  }

  lemma ImportKeepsSound(db: Db, network: EntityId, entries: seq<ImportEntry>)
    requires Sound(db) && EntriesParsed(entries) && ImportOnce(db, network, entries).Commit?
    ensures Sound(ImportOnce(db, network, entries).db)
  {
    ImportRowsKeepSound(db, network, entries, ActiveKeys(db, network));
    var db' := ImportRows(db, network, entries, ActiveKeys(db, network)).db;
    FewerIdsKeepSound(db', ImportOnce(db, network, entries).db);
  }

  lemma RevokeKeepsSound(db: Db, id: EntityId)
    requires Sound(db) && RevokeDeviceOnce(db, id).Commit?
    ensures Sound(RevokeDeviceOnce(db, id).db)
  {
  }

  lemma DeleteNetworkKeepsSound(db: Db, network: EntityId)
    requires Sound(db) && DeleteNetworkOnce(db, network).Commit?
    ensures Sound(DeleteNetworkOnce(db, network).db)
  {
  }

  /** A step that issued one id of the given kind and touched neither devices nor invites. */
  predicate IssuedOne(db: Db, r: Tx<EntityId>, kind: Kind) {
    && r.Commit? && r.db.devices == db.devices && r.db.invites == db.invites
    && db.sequence.Some? && SequenceOf(r.db) == SequenceOf(db) + 1 && r.value == Numbered(kind, SequenceOf(r.db), 0)
  }

  lemma InsertRouteKeepsSound(db: Db, network: EntityId, device: EntityId, prefix: Option<string>)
    requires Sound(db) && InsertRoute(db, network, device, prefix).Commit?
    ensures
      var r := InsertRoute(db, network, device, prefix);
      Sound(r.db) && IssuedOne(db, r, Route) && r.db.networks == db.networks
  {
  }

  lemma RelayKeepsSound(db: Db, scope: Option<EntityId>)
    requires Sound(db) && RegisterRelayOnce(db, scope).Commit?
    ensures Sound(RegisterRelayOnce(db, scope).db) && IssuedOne(db, RegisterRelayOnce(db, scope), Relay)
  {
  }
}
