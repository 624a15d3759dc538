/** The two loops of the durable store, proved against the transactions of `SqlStore`. */
module SqlLoops {
  import opened Common
  import opened SqlStore

  // ---- `import_once` --------------------------------------------------------------------------------

  function Prepend(created: seq<EntityId>, skipped: seq<KeyText>, rest: Tx<Imported>): Tx<Imported> {
    match rest
    case Abort(e) => Abort(e)
    case Commit(db, r) => Commit(db, Imported(created + r.created, skipped + r.skipped))
  }

  /** What is done so far, followed by one entry and the rest of the batch. */
  lemma PrependLaws(created: seq<EntityId>, skipped: seq<KeyText>, id: EntityId, key: KeyText, rest: Tx<Imported>)
    ensures Prepend([], [], rest) == rest
    ensures rest.Commit? ==>
              && Prepend(created, skipped, Commit(rest.db, rest.value.(skipped := [key] + rest.value.skipped)))
                 == Prepend(created, skipped + [key], rest)
              && Prepend(created, skipped, Commit(rest.db, rest.value.(created := [id] + rest.value.created)))
                 == Prepend(created + [id], skipped, rest)
  {
    if rest.Commit? {
      assert [] + rest.value.created == rest.value.created && [] + rest.value.skipped == rest.value.skipped;
      assert skipped + ([key] + rest.value.skipped) == (skipped + [key]) + rest.value.skipped;
      assert created + ([id] + rest.value.created) == (created + [id]) + rest.value.created;
    }
  }

  method ImportBatch(db: Db, network: EntityId, entries: seq<ImportEntry>) returns (r: Tx<Imported>)
    ensures r == ImportOnce(db, network, entries)
  {
    if db.sequence.None? { return Abort(SequenceMissing); }
    if network !in db.networks { return Abort(NetworkNotFound); }
    var seen := ActiveKeys(db, network);
    var created: seq<EntityId>, skipped: seq<KeyText> := [], [];
    var tx := db;
    assert entries[0..] == entries;
    PrependLaws([], [], Named(""), Garbage(""), ImportRows(db, network, entries, seen));
    for i := 0 to |entries|
      invariant ImportRows(db, network, entries, ActiveKeys(db, network))
             == Prepend(created, skipped, ImportRows(tx, network, entries[i..], seen))
    {
      var e := entries[i];
      assert entries[i..][0] == e && entries[i..][1..] == entries[i + 1..];
      if e.key in seen {
        PrependLaws(created, skipped, Named(""), e.key, ImportRows(tx, network, entries[i + 1..], seen));
        skipped := skipped + [e.key];
      } else {
        var row := ImportRow(tx, network, e);
        if row.Abort? { return Abort(row.error); }
        seen := seen + {e.key};
        tx := row.db;
        PrependLaws(created, skipped, row.value, e.key, ImportRows(tx, network, entries[i + 1..], seen));
        created := created + [row.value];
      }
    }
    assert entries[|entries|..] == [];
    assert created + [] == created && skipped + [] == skipped;
    if created != [] { tx := tx.(networks := Bumped(tx.networks, network)); }
    r := Commit(tx, Imported(created, skipped));
  }

  // ---- `migrate` ---------------------------------------------------------------------------------------

  /** The rows that hold a key or address slot, among those already scanned. */
  ghost predicate HoldsKey(d: Device, slot: (EntityId, KeyText)) {
    d.status.Active? && d.network == slot.0 && NormalKey(d.key) == slot.1
  }

  ghost predicate HoldsAddress(d: Device, slot: (EntityId, V4Text)) {
    d.status.Active? && d.network == slot.0 && d.v4 == Some(slot.1)
  }

  /** The lookup tables list exactly the slots held by the scanned rows, which do not clash. */
  ghost predicate Scanned(devices: map<EntityId, Device>, done: set<EntityId>,
                          keys: set<(EntityId, KeyText)>, addresses: set<(EntityId, V4Text)>) {
    && done <= devices.Keys
    && (forall id | id in done :: RowLegal(devices[id]))
    && (forall id, slot | id in done && HoldsKey(devices[id], slot) :: slot in keys)
    && (forall id, slot | id in done && HoldsAddress(devices[id], slot) :: slot in addresses)
    && (forall slot | slot in keys :: exists id | id in done :: HoldsKey(devices[id], slot))
    && (forall slot | slot in addresses :: exists id | id in done :: HoldsAddress(devices[id], slot))
    && (forall x, y | x in done && y in done && x != y :: !Clash(devices[x], devices[y]))
  }

  function KeySlot(d: Device): (EntityId, KeyText) {
    (d.network, NormalKey(d.key))
  }

  function KeySlots(d: Device): set<(EntityId, KeyText)> {
    if d.status.Active? then {KeySlot(d)} else {}
  }

  function AddressSlots(d: Device): set<(EntityId, V4Text)> {
    if d.status.Active? && d.v4.Some? then {(d.network, d.v4.value)} else {}
  }

  lemma NewRowKeepsApart(devices: map<EntityId, Device>, done: set<EntityId>,
                         keys: set<(EntityId, KeyText)>, addresses: set<(EntityId, V4Text)>, id: EntityId, x: EntityId)
    requires Scanned(devices, done, keys, addresses) && id in devices && RowLegal(devices[id]) && x in done
    requires KeySlots(devices[id]) !! keys && AddressSlots(devices[id]) !! addresses
    ensures !Clash(devices[x], devices[id]) && !Clash(devices[id], devices[x])
  {
  }

  lemma ScanRow(devices: map<EntityId, Device>, done: set<EntityId>,
                keys: set<(EntityId, KeyText)>, addresses: set<(EntityId, V4Text)>, id: EntityId)
    requires Scanned(devices, done, keys, addresses) && id in devices && RowLegal(devices[id])
    requires KeySlots(devices[id]) !! keys && AddressSlots(devices[id]) !! addresses
    ensures Scanned(devices, done + {id}, keys + KeySlots(devices[id]), addresses + AddressSlots(devices[id]))
  {
    var d := devices[id];
    var done', keys', addresses' := done + {id}, keys + KeySlots(d), addresses + AddressSlots(d);
    forall x, y | x in done' && y in done' && x != y
      ensures !Clash(devices[x], devices[y])
    {
      if x == id { NewRowKeepsApart(devices, done, keys, addresses, id, y); }
      else if y == id { NewRowKeepsApart(devices, done, keys, addresses, id, x); }
    }
    forall slot | slot in keys'
      ensures exists x | x in done' :: HoldsKey(devices[x], slot)
    {
      if slot in keys {
        var x :| x in done && HoldsKey(devices[x], slot);
        assert x in done';
      } else {
        assert id in done' && HoldsKey(d, slot);
      }
    }
    forall slot | slot in addresses'
      ensures exists x | x in done' :: HoldsAddress(devices[x], slot)
    {
      if slot in addresses {
        var x :| x in done && HoldsAddress(devices[x], slot);
        assert x in done';
      } else {
        assert id in done' && HoldsAddress(d, slot);
      }
    }
  }

  lemma TakenSlotClashes(devices: map<EntityId, Device>, done: set<EntityId>,
                         keys: set<(EntityId, KeyText)>, addresses: set<(EntityId, V4Text)>, id: EntityId) returns (x: EntityId)
    requires Scanned(devices, done, keys, addresses) && id in devices && id !in done && RowLegal(devices[id])
    requires !(KeySlots(devices[id]) !! keys) || !(AddressSlots(devices[id]) !! addresses)
    ensures x in devices && x != id && Clash(devices[x], devices[id])
  {
    var d := devices[id];
    if !(KeySlots(d) !! keys) {
      assert KeySlot(d) in keys;
      x :| x in done && HoldsKey(devices[x], KeySlot(d));
      assert RowLegal(devices[x]);
    } else {
      x :| x in done && HoldsAddress(devices[x], (d.network, d.v4.value));
    }
  }

  lemma MaxSuffixUnique(ids: set<EntityId>, m: nat)
    requires forall id | id in ids :: Suffix(id) <= m
    requires m == 0 || exists id | id in ids :: Suffix(id) == m
    ensures m == MaxSuffix(ids)
  {
  }

  /** The high-water mark, or None when a numeric id does not fit the sequence. */
  method RecoverMark(ids: set<EntityId>) returns (r: Option<Serial>)
    ensures r.None? <==> exists id | id in ids :: id.Numbered? && id.value > MAX_SEQUENCE
    ensures r.Some? ==> r.value == MaxSuffix(ids)
  {
    var mark: Serial := 0;
    var rest := ids;
    while rest != {}
      invariant rest <= ids
      invariant forall id | id in ids - rest :: Suffix(id) <= mark
      invariant mark == 0 || exists id | id in ids :: Suffix(id) == mark
      decreases |rest|
    {
      var id :| id in rest;
      if id.Numbered? {
        if id.value > MAX_SEQUENCE { return None; }
        if id.value > mark { mark := id.value; }
      }
      rest := rest - {id};
    }
    MaxSuffixUnique(ids, mark);
    r := Some(mark);
  }

  /** The rows the scan decided to rewrite. */
  ghost predicate Rewrites(devices: map<EntityId, Device>, done: set<EntityId>,
                           normalized: map<EntityId, Device>, changed: set<EntityId>) {
    && normalized.Keys <= done
    && (forall id | id in done && id in devices ::
          if id in normalized then normalized[id] == NormalRow(devices[id]) else NormalRow(devices[id]) == devices[id])
    && (forall id | id in done && id in devices && devices[id].status.Active? && NormalRow(devices[id]) != devices[id] ::
          devices[id].network in changed)
    && (forall n | n in changed :: exists id | id in done && id in devices ::
          devices[id].status.Active? && NormalRow(devices[id]) != devices[id] && devices[id].network == n)
  }

  lemma RewriteRow(devices: map<EntityId, Device>, done: set<EntityId>,
                   normalized: map<EntityId, Device>, changed: set<EntityId>, id: EntityId)
    requires Rewrites(devices, done, normalized, changed) && id in devices && id !in done
    ensures
      var d := devices[id];
      if NormalRow(d) == d then Rewrites(devices, done + {id}, normalized, changed)
      else Rewrites(devices, done + {id}, normalized[id := NormalRow(d)], if d.status.Active? then changed + {d.network} else changed)
  {
  }

  ghost predicate RowsLegal(devices: map<EntityId, Device>) {
    && (forall id | id in devices :: RowLegal(devices[id]))
    && (forall x, y | x in devices && y in devices && x != y :: !Clash(devices[x], devices[y]))
  }

  /** Scan every row into lookup tables, refusing what cannot be kept. */
  method ScanRows(devices: map<EntityId, Device>)
    returns (ok: bool, normalized: map<EntityId, Device>, changed: set<EntityId>)
    ensures ok <==> RowsLegal(devices)
    ensures ok ==> Rewrites(devices, devices.Keys, normalized, changed)
  {
    var keys: set<(EntityId, KeyText)>, addresses: set<(EntityId, V4Text)> := {}, {};
    normalized, changed := map[], {};
    var done: set<EntityId> := {};
    while devices.Keys - done != {}
      invariant Scanned(devices, done, keys, addresses)
      invariant Rewrites(devices, done, normalized, changed)
      decreases devices.Keys - done
    {
      var id :| id in devices.Keys - done;
      var d := devices[id];
      if !RowLegal(d) { return false, map[], {}; }
      if !(KeySlots(d) !! keys) || !(AddressSlots(d) !! addresses) {
        ghost var x := TakenSlotClashes(devices, done, keys, addresses, id);
        return false, map[], {};
      }
      ScanRow(devices, done, keys, addresses, id);
      RewriteRow(devices, done, normalized, changed, id);
      keys, addresses := keys + KeySlots(d), addresses + AddressSlots(d);
      if NormalRow(d) != d {
        if d.status.Active? { changed := changed + {d.network}; }
        normalized := normalized[id := NormalRow(d)];
      }
      done := done + {id};
    }
    assert done == devices.Keys;
    ok := true;
  }

  lemma RewritesAreNormal(devices: map<EntityId, Device>, normalized: map<EntityId, Device>, changed: set<EntityId>)
    requires Rewrites(devices, devices.Keys, normalized, changed)
    ensures devices + normalized == map id | id in devices :: NormalRow(devices[id])
    ensures changed == Changed(devices)
  {
  }

  /** `integrity::migrate`: recover the high-water mark, scan, then rewrite the rows that changed
      and bump their networks once. */
  method MigrateRows(db: Db) returns (r: Tx<()>)
    ensures r == Migrate(db)
  {
    var mark := RecoverMark(AllIds(db));
    if mark.None? { return Abort(BadLegacyData); }
    var ok, normalized, changed := ScanRows(db.devices);
    if !ok { return Abort(BadLegacyData); }
    assert Migratable(db);
    RewritesAreNormal(db.devices, normalized, changed);
    r := Commit(db.(devices := db.devices + normalized, networks := BumpAll(db.networks, changed),
                    sequence := Some(if SequenceOf(db) < mark.value then mark.value else SequenceOf(db))), ());
  }
}
