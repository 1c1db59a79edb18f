/** The database manager: a versioned set of five object stores behind an
    `isInitialized` gate, with checksummed (and, when the security manager is
    unlocked, encrypted) backups, retention of the newest three, restore and
    import, and a reader that decrypts transactions.

    The on-disk database is the `stores` field; the outcome of the platform's
    open requests, the wall clock and the fresh ivs are parameters. */
module Database {
  import opened Values
  import opened Crypto
  import opened Stores
  import opened BackupIndex
  import Security

  const DbName: string := "ExpenseFlowDB"

  /** The schema version the code asks for. */
  const SchemaVersion: int := 3

  datatype InitResult = Initialized(recovered: bool) | InitFailed(error: DbError)

  ghost predicate AllStoresValid(stores: map<StoreName, Store>)
  {
    forall n: StoreName :: n in stores && StoreValid(n, stores[n])
  }

  predicate HasDataStores(stores: map<StoreName, Store>)
  {
    Transactions in stores && Budgets in stores && Settings in stores
  }

  // ------------------------------------------------------------ backups

  /** The object `createBackup` collects: `{transactions, budgets, settings}`. */
  function Snapshot(stores: map<StoreName, Store>): Json
    requires HasDataStores(stores)
  {
    JObj(map[
      "transactions" := JArr(RowValues(stores[Transactions].rows)),
      "budgets" := JArr(RowValues(stores[Budgets].rows)),
      "settings" := JArr(RowValues(stores[Settings].rows))])
  }

  /** The backup record before encryption. */
  function PlainBackup(snapshot: Json, timestamp: string, version: int, description: string): Json
  {
    JObj(map[
      "timestamp" := JStr(timestamp),
      "version" := JNum(version as real),
      "description" := JStr(description),
      "data" := snapshot,
      "checksum" := Checksum(snapshot)])
  }

  /** The record `createBackup` stores. When the security manager has a salt
      and is unlocked, the whole plain record is encrypted and the envelope
      replaces `data`, with `encrypted: true`; the checksum stays the one
      over the plaintext snapshot. */
  function BackupRecord(snapshot: Json, timestamp: string, version: int, description: string,
                        sealWith: Option<Key>, iv: seq<bv8>, now: int): (b: Json)
    ensures Field(b, "checksum") == Some(Checksum(snapshot))
    ensures Field(b, "encrypted") == Some(JBool(true)) <==> sealWith.Some?
    ensures sealWith.None? ==> Field(b, "data") == Some(snapshot)
    ensures sealWith.Some? ==>
              Field(b, "data") == Some(Security.Seal(sealWith.value, iv, PlainBackup(snapshot, timestamp, version, description), None, now).ToJson())
    ensures Field(b, "id") == None && Field(b, "timestamp") == Some(JStr(timestamp))
  {
    var plain := PlainBackup(snapshot, timestamp, version, description);
    match sealWith
    case None => plain
    case Some(key) =>
      JObj(Spread(plain)["encrypted" := JBool(true)]["data" := Security.Seal(key, iv, plain, None, now).ToJson()])
  }

  /** The backups store after `add` of a new record and the retention pass. */
  function BackupsAfterCreate(st: Store, record: Json): Store
  {
    Retained(Added(st, record))
  }

  /** The backups store after `add` of a record without an `id`. */
  function Added(st: Store, record: Json): Store
  {
    var k := NumKey(st.next);
    Store(Upsert(st.rows, k, Inject(Backups, record, k)), st.next + 1)
  }

  /** The backups store after the retention pass. */
  function Retained(st: Store): Store
  {
    Store(RemoveKeys(st.rows, KeysOf(Doomed(st.rows))), st.next)
  }

  /** `value?.length || 0` for the transactions of a backup's data. */
  function TxCount(v: Option<Json>): nat
  {
    match v
    case Some(JArr(items)) => |items|
    case Some(JStr(s)) => Utf16Length(s)
    case _ => 0
  }

  /** The automatic-backup rule: no backup yet, or more than ten transactions
      beyond what the newest backup's data lists. */
  predicate AutoBackupDue(last: Option<Json>, count: int)
  {
    last.None? || count > TxCount(FieldOf(Field(last.value, "data"), "transactions")) + 10
  }

  /** For a plain newest backup the rule compares against its snapshot; for
      an encrypted one the data is an envelope with no `transactions`, so the
      rule fires as soon as there are more than ten transactions. */
  lemma AutoBackupThreshold(stores: map<StoreName, Store>, timestamp: string, version: int,
                            description: string, sealWith: Option<Key>, iv: seq<bv8>, now: int, count: int)
    requires HasDataStores(stores)
    ensures var b := BackupRecord(Snapshot(stores), timestamp, version, description, sealWith, iv, now);
            && (sealWith.None? ==> (AutoBackupDue(Some(b), count) <==> count > |stores[Transactions].rows| + 10))
            && (sealWith.Some? ==> (AutoBackupDue(Some(b), count) <==> count > 10))
            && AutoBackupDue(None, count)
  {
    var b := BackupRecord(Snapshot(stores), timestamp, version, description, sealWith, iv, now);
    if sealWith.Some? {
      var env := Security.Seal(sealWith.value, iv, PlainBackup(Snapshot(stores), timestamp, version, description), None, now);
      assert Field(b, "data") == Some(env.ToJson());
      assert FieldOf(Field(b, "data"), "transactions") == None;
    }
  }

  /** The value of the newest listed backup, as `getLastBackup` reports it. */
  function NewestBackup(st: Store): Option<Json>
  {
    var l := LastBackup(st.rows);
    if l.Some? then Some(l.value.value) else None
  }

  /** Open-time maintenance backs up: the rule fires on the newest backup
      that retention keeps. */
  predicate MaintenanceBacksUp(stores: map<StoreName, Store>)
    requires HasDataStores(stores) && Backups in stores
  {
    AutoBackupDue(NewestBackup(Retained(stores[Backups])), |stores[Transactions].rows|)
  }

  /** The record of the automatic backup. */
  function AutoBackupRecord(stores: map<StoreName, Store>, version: int, sealWith: Option<Key>,
                            nowIso: string, iv: seq<bv8>, now: int): Json
    requires HasDataStores(stores)
  {
    BackupRecord(Snapshot(stores), nowIso, version, "Automatic backup", sealWith, iv, now)
  }

  /** The backups store after `performMaintenance`: retention, then the
      automatic backup (itself followed by retention) when it is due. */
  function MaintainedBackups(stores: map<StoreName, Store>, version: int, sealWith: Option<Key>,
                             nowIso: string, iv: seq<bv8>, now: int): Store
    requires HasDataStores(stores) && Backups in stores
  {
    var kept := Retained(stores[Backups]);
    if MaintenanceBacksUp(stores) then BackupsAfterCreate(kept, AutoBackupRecord(stores, version, sealWith, nowIso, iv, now))
    else kept
  }

  // ------------------------------------------------------ restore and import

  /** The three data stores after `clear()` and the refill from `data`:
      one `add` per transaction, then one `put` per budget and per setting.
      A field that is not an array throws a TypeError once the writes for the
      fields before it have been issued; otherwise the first failed write is
      reported and the others still take effect. */
  function Refill(stores: map<StoreName, Store>, data: Option<Json>): (map<StoreName, Store>, Option<DbError>)
    requires HasDataStores(stores)
  {
    var cleared := Cleared(stores);
    match ArrayField(data, "transactions")
    case None => (cleared, Some(TypeError))
    case Some(txs) =>
      var (t, e1) := WriteAll(Transactions, cleared[Transactions], txs, false);
      var s1 := cleared[Transactions := t];
      match ArrayField(data, "budgets")
      case None => (s1, Some(TypeError))
      case Some(bs) =>
        var (b, e2) := WriteAll(Budgets, cleared[Budgets], bs, true);
        var s2 := s1[Budgets := b];
        match ArrayField(data, "settings")
        case None => (s2, Some(TypeError))
        case Some(ss) =>
          var (s, e3) := WriteAll(Settings, cleared[Settings], ss, true);
          (s2[Settings := s], if e1.Some? then e1 else if e2.Some? then e2 else e3)
  }

  /** The stores after `clearStore` on the three data stores. */
  function Cleared(stores: map<StoreName, Store>): map<StoreName, Store>
    requires HasDataStores(stores)
  {
    stores[Transactions := Clear(stores[Transactions])]
          [Budgets := Clear(stores[Budgets])]
          [Settings := Clear(stores[Settings])]
  }

  /** The items of `data.f` when it is an array (the only value `.map` works on). */
  function ArrayField(data: Option<Json>, f: string): Option<seq<Json>>
  {
    match FieldOf(data, f)
    case Some(JArr(items)) => Some(items)
    case _ => None
  }

  /** `restoreBackup(backupId)` as a function of the stores, the gate and the
      security manager's key when it is initialized. The checks come before
      any store is cleared: an invalid or missing id, a failed decryption and
      a checksum mismatch leave every store as it was. Decryption goes
      through `decryptData` with no iv. */
  function Restore(stores: map<StoreName, Store>, dbReady: bool, unlockedKey: Option<Key>, backupId: Json)
    : (Outcome<()>, map<StoreName, Store>)
    requires HasDataStores(stores) && Backups in stores
  {
    if !dbReady then (Failed(NotInitialized), stores)
    else match Get(stores[Backups], backupId)
      case Failed(e) => (Failed(e), stores)
      case Done(None) => (Failed(BackupNotFound), stores)
      case Done(Some(backup)) =>
        var decrypted :=
          if Truthy(Field(backup, "encrypted")) && unlockedKey.Some?
          then Some(AesGcmDecrypt(unlockedKey.value, Security.IvBytes(None), Field(backup, "data")))
          else None;
        if decrypted.Some? && decrypted.value.None? then (Failed(DecryptFailed), stores)
        else
          var data := if decrypted.Some? then decrypted.value else Field(backup, "data");
          if data.None? || Some(Checksum(data.value)) != Field(backup, "checksum")
          then (Failed(IntegrityCheckFailed), stores)
          else
            var (after, err) := Refill(stores, data);
            (if err.Some? then Failed(err.value) else Done(()), after)
  }

  /** Restore hands the backup to `decryptData`, which records activity: the
      database is ready, the manager is unlocked and the stored backup is
      marked encrypted. */
  predicate RestoreDecrypts(stores: map<StoreName, Store>, dbReady: bool, unlockedKey: Option<Key>, backupId: Json)
    requires Backups in stores
  {
    && dbReady && unlockedKey.Some?
    && match Get(stores[Backups], backupId)
       case Done(Some(backup)) => Truthy(Field(backup, "encrypted"))
       case _ => false
  }

  /** Refilling from a snapshot of valid stores rebuilds their rows with no
      failure, and leaves the backups and metadata stores alone. */
  lemma RefillSnapshot(stores: map<StoreName, Store>, snapshot: map<StoreName, Store>)
    requires HasDataStores(stores) && HasDataStores(snapshot)
    requires RowsValid(Transactions, snapshot[Transactions].rows)
    requires RowsValid(Budgets, snapshot[Budgets].rows)
    requires RowsValid(Settings, snapshot[Settings].rows)
    ensures var (after, err) := Refill(stores, Some(Snapshot(snapshot)));
            && err == None
            && after[Transactions].rows == snapshot[Transactions].rows
            && after[Budgets].rows == snapshot[Budgets].rows
            && after[Settings].rows == snapshot[Settings].rows
            && after == stores[Transactions := after[Transactions]][Budgets := after[Budgets]][Settings := after[Settings]]
  {
    var data := Some(Snapshot(snapshot));
    var cleared := Cleared(stores);
    var txs := RowValues(snapshot[Transactions].rows);
    var bs := RowValues(snapshot[Budgets].rows);
    var ss := RowValues(snapshot[Settings].rows);
    assert ArrayField(data, "transactions") == Some(txs);
    assert ArrayField(data, "budgets") == Some(bs);
    assert ArrayField(data, "settings") == Some(ss);
    assert cleared[Transactions] == Store([], stores[Transactions].next);
    assert cleared[Budgets] == Store([], stores[Budgets].next);
    assert cleared[Settings] == Store([], stores[Settings].next);
    RefillRebuilds(Transactions, snapshot[Transactions].rows, stores[Transactions].next, false);
    RefillRebuilds(Budgets, snapshot[Budgets].rows, stores[Budgets].next, true);
    RefillRebuilds(Settings, snapshot[Settings].rows, stores[Settings].next, true);
    var (t, e1) := WriteAll(Transactions, cleared[Transactions], txs, false);
    var (b, e2) := WriteAll(Budgets, cleared[Budgets], bs, true);
    var (s, e3) := WriteAll(Settings, cleared[Settings], ss, true);
    assert Refill(stores, data) == (cleared[Transactions := t][Budgets := b][Settings := s], None);
  }

  /** An untampered plain backup restores exactly the snapshot's rows into
      the three data stores, and touches no other store. */
  lemma RestoreRoundTrip(stores: map<StoreName, Store>, snapshot: map<StoreName, Store>,
                         unlockedKey: Option<Key>, backupId: Json, backup: Json)
    requires HasDataStores(stores) && Backups in stores && HasDataStores(snapshot)
    requires RowsValid(Transactions, snapshot[Transactions].rows)
    requires RowsValid(Budgets, snapshot[Budgets].rows)
    requires RowsValid(Settings, snapshot[Settings].rows)
    requires Get(stores[Backups], backupId) == Done(Some(backup))
    requires !Truthy(Field(backup, "encrypted"))
    requires Field(backup, "data") == Some(Snapshot(snapshot))
    requires Field(backup, "checksum") == Some(Checksum(Snapshot(snapshot)))
    ensures var (r, after) := Restore(stores, true, unlockedKey, backupId);
            && r == Done(())
            && after[Transactions].rows == snapshot[Transactions].rows
            && after[Budgets].rows == snapshot[Budgets].rows
            && after[Settings].rows == snapshot[Settings].rows
            && after == stores[Transactions := after[Transactions]][Budgets := after[Budgets]][Settings := after[Settings]]
  {
    RefillSnapshot(stores, snapshot);
    assert Restore(stores, true, unlockedKey, backupId) == (Done(()), Refill(stores, Some(Snapshot(snapshot))).0);
  }

  /** As written, an encrypted backup never restores: with the security
      manager initialized, `decryptData` is called without an iv and AES-GCM
      rejects the empty iv; otherwise the checksum of the stored envelope is
      compared with the checksum of the plaintext snapshot, and they differ.
      Either way nothing is changed. */
  lemma EncryptedBackupNeverRestores(stores: map<StoreName, Store>, unlockedKey: Option<Key>, backupId: Json,
                                     backup: Json, snapshot: map<StoreName, Store>, timestamp: string,
                                     version: int, description: string, key: Key, iv: seq<bv8>, now: int, id: Json)
    requires HasDataStores(stores) && Backups in stores && HasDataStores(snapshot)
    requires backup == JObj(Spread(BackupRecord(Snapshot(snapshot), timestamp, version, description, Some(key), iv, now))["id" := id])
    requires Get(stores[Backups], backupId) == Done(Some(backup))
    ensures Restore(stores, true, unlockedKey, backupId).0.Failed?
    ensures Restore(stores, true, unlockedKey, backupId).1 == stores
  {
    var record := BackupRecord(Snapshot(snapshot), timestamp, version, description, Some(key), iv, now);
    var env := Security.Seal(key, iv, PlainBackup(Snapshot(snapshot), timestamp, version, description), None, now);
    assert Field(backup, "encrypted") == Some(JBool(true));
    assert Field(backup, "data") == Some(env.ToJson());
    assert Field(backup, "checksum") == Some(Checksum(Snapshot(snapshot)));
    assert "iv" in env.ToJson().fields && "iv" !in Snapshot(snapshot).fields;
  }

  /** What restore evidently intends for an encrypted backup: open the stored
      envelope with `decrypt` (which carries its own iv) and take the
      snapshot from the decrypted backup record. */
  function IntendedRestoreData(key: Key, backup: Json): Option<Json>
  {
    if Truthy(Field(backup, "encrypted")) then
      match Field(backup, "data")
      case None => None
      case Some(envelope) =>
        match Security.Open(key, envelope)
        case Ok(d) => Field(d.data, "data")
        case Err(_) => None
    else Field(backup, "data")
  }

  /** With the intended decryption, an encrypted backup yields its snapshot
      and passes the checksum check, so it restores like a plain one. */
  lemma IntendedRestoreRoundTrip(snapshot: Json, timestamp: string, version: int, description: string,
                                 key: Key, iv: seq<bv8>, now: int, id: Json)
    requires |iv| == Security.IvLength
    ensures var backup := JObj(Spread(BackupRecord(snapshot, timestamp, version, description, Some(key), iv, now))["id" := id]);
            && IntendedRestoreData(key, backup) == Some(snapshot)
            && Field(backup, "checksum") == Some(Checksum(snapshot))
  {
    var plain := PlainBackup(snapshot, timestamp, version, description);
    Security.RoundTrip(key, iv, plain, None, now);
    var backup := JObj(Spread(BackupRecord(snapshot, timestamp, version, description, Some(key), iv, now))["id" := id]);
    assert Field(backup, "data") == Some(Security.Seal(key, iv, plain, None, now).ToJson());
  }

  // --------------------------------------------------- the decrypting reader

  /** `encryptionSetting?.value === true` for the `encryption_enabled` setting. */
  predicate EncryptionFlag(settings: Store)
  {
    match Find(settings.rows, StrKey("encryption_enabled"))
    case Some(v) => Field(v, "value") == Some(JBool(true))
    case None => false
  }

  /** A record the readers try to decrypt: `t.encrypted && t.data && t.iv`. */
  predicate HasCiphertext(t: Json)
  {
    Truthy(Field(t, "encrypted")) && Truthy(Field(t, "data")) && Truthy(Field(t, "iv"))
  }

  /** Some record of the list goes through decryption, which records activity
      with the security manager. */
  predicate SomeCiphertext(ts: seq<Json>)
  {
    exists i :: 0 <= i < |ts| && HasCiphertext(ts[i])
  }

  /** A row the reader tries to decrypt. */
  predicate Attempted(row: Row)
  {
    HasCiphertext(row.value)
  }

  /** What `getTransactionsWithDecryption` makes of one row while the flag is
      on and the manager is unlocked: a decrypted row becomes its data with
      the storage id; a row marked encrypted that does not decrypt is
      dropped; any other row passes through. */
  function ReadRow(key: Key, row: Row): Option<Json>
  {
    var t := row.value;
    if Attempted(row) then
      match Security.Open(key, JObj(map["data" := Field(t, "data").value, "iv" := Field(t, "iv").value]))
      case Ok(d) => Some(JObj(Spread(d.data)["id" := KeyToJson(row.key)]))
      case Err(_) => None
    else if Truthy(Field(t, "encrypted")) then None
    else Some(t)
  }

  function ReadRows(key: Key, rows: seq<Row>): seq<Json>
  {
    if rows == [] then []
    else
      var r := ReadRow(key, rows[|rows| - 1]);
      ReadRows(key, rows[..|rows| - 1]) + (if r.Some? then [r.value] else [])
  }

  /** Every row the reader returns comes from a stored row, plain rows pass
      through unchanged and in order, and the reader never returns more rows
      than are stored. */
  lemma ReadRowsFacts(key: Key, rows: seq<Row>)
    ensures |ReadRows(key, rows)| <= |rows|
    ensures (forall r :: r in rows ==> !Truthy(Field(r.value, "encrypted"))) ==> ReadRows(key, rows) == RowValues(rows)
    ensures forall v :: v in ReadRows(key, rows) ==> exists r :: r in rows && ReadRow(key, r) == Some(v)
  {
    ReadRowsLength(key, rows);
    if forall r :: r in rows ==> !Truthy(Field(r.value, "encrypted")) {
      ReadRowsPlain(key, rows);
    }
    ReadRowsFrom(key, rows);
  }

  lemma {:induction false} ReadRowsLength(key: Key, rows: seq<Row>)
    ensures |ReadRows(key, rows)| <= |rows|
  {
    if rows != [] {
      ReadRowsLength(key, rows[..|rows| - 1]);
    }
  }

  lemma {:induction false} ReadRowsPlain(key: Key, rows: seq<Row>)
    requires forall r :: r in rows ==> !Truthy(Field(r.value, "encrypted"))
    ensures ReadRows(key, rows) == RowValues(rows)
  {
    if rows != [] {
      var init := rows[..|rows| - 1];
      var last := rows[|rows| - 1];
      assert forall r :: r in init ==> r in rows;
      ReadRowsPlain(key, init);
      assert last in rows;
      assert RowValues(rows) == RowValues(init) + [last.value];
    }
  }

  lemma {:induction false} ReadRowsFrom(key: Key, rows: seq<Row>)
    ensures forall v :: v in ReadRows(key, rows) ==> exists r :: r in rows && ReadRow(key, r) == Some(v)
  {
    if rows != [] {
      var init := rows[..|rows| - 1];
      var last := rows[|rows| - 1];
      ReadRowsFrom(key, init);
      assert forall r :: r in init ==> r in rows;
      assert last in rows;
    }
  }

  /** The record `updateMetadata` puts under `database_stats`. */
  function MetadataRecord(nowIso: string, stats: Json, version: int): Json
  {
    JObj(map["key" := JStr("database_stats"), "lastUpdated" := JStr(nowIso), "stats" := stats,
             "version" := JNum(version as real)])
  }

  // ------------------------------------------------------------ the class

  class DatabaseManager {
    var version: int
    var isInitialized: bool
    var stores: map<StoreName, Store>
    const security: Security.SecurityManager

    ghost predicate Valid()
      reads this, security
    {
      AllStoresValid(stores) && security.Valid()
    }

    /** `createBackup` encrypts its record: the security manager has a salt
        and is unlocked. */
    predicate SealsBackups()
      reads this, security
    {
      security.salt.Some? && !security.isLocked
    }

    /** A manager over the database as it is on disk, not yet initialized. */
    constructor(security: Security.SecurityManager, persisted: map<StoreName, Store>)
      requires security.Valid() && AllStoresValid(persisted)
      ensures Valid()
      ensures version == SchemaVersion && !isInitialized
      ensures stores == persisted && this.security == security
    {
      version := SchemaVersion;
      isInitialized := false;
      stores := persisted;
      this.security := security;
    }

    // -------------------------------------------------------- opening

    /** `initialize()`. `probe` is what `getCurrentVersion` reports (None
        when that open fails), `diskVersion` the version of the database the
        versioned open meets, `openFails` a failure of that open other than a
        version conflict, `recoveryFails` a failure of the recovery open.
        `stats` stands for the storage statistics the maintenance pass
        records. */
    method Initialize(probe: Option<int>, diskVersion: int, openFails: bool, recoveryFails: bool,
                      now: int, nowIso: string, iv: seq<bv8>, stats: Json) returns (r: InitResult)
      requires Valid() && |iv| == Security.IvLength
      modifies this, security
      ensures Valid()
      ensures version >= old(version)
      ensures var adopted := if probe.Some? && probe.value != 0 && probe.value > old(version) then probe.value else old(version);
              if diskVersion > adopted then
                if recoveryFails then r == InitFailed(RecoveryFailed) && version == adopted && isInitialized == old(isInitialized)
                else r == Initialized(true) && version == diskVersion && isInitialized && stores == old(stores)
              else if openFails then r == InitFailed(OpenFailed) && version == adopted && isInitialized == old(isInitialized)
              else r == Initialized(false) && version == adopted && isInitialized
      ensures r.InitFailed? ==> stores == old(stores)
      ensures stores[Transactions] == old(stores)[Transactions] && stores[Budgets] == old(stores)[Budgets]
      ensures stores[Settings] == old(stores)[Settings]
      ensures r == Initialized(false) ==>
                && Find(stores[Metadata].rows, StrKey("database_stats")) == Some(MetadataRecord(nowIso, stats, version))
                && var sealWith := if old(SealsBackups()) then old(security.encryptionKey) else None;
                   stores[Backups] == MaintainedBackups(old(stores), version, sealWith, nowIso, iv, now)
      ensures r == Initialized(false) && MaintenanceBacksUp(old(stores)) && old(SealsBackups()) ==>
                var record := AutoBackupRecord(old(stores), version, old(security.encryptionKey), nowIso, iv, now);
                && security.ActiveAt(now)
                && security.integrityCache == old(security.integrityCache)[Checksum(Field(record, "data").value) := now]
      ensures !(r == Initialized(false) && MaintenanceBacksUp(old(stores)) && old(SealsBackups())) ==> unchanged(security)
    {
      if probe.Some? && probe.value != 0 && probe.value > version {
        version := probe.value;
      }
      if diskVersion > version {
        r := HandleVersionError(diskVersion, recoveryFails);
        return;
      }
      if openFails {
        return InitFailed(OpenFailed);
      }
      isInitialized := true;
      PerformMaintenance(now, nowIso, iv, stats);
      r := Initialized(false);
    }

    /** `handleVersionError`: reopen without a version and adopt the version
        found on disk. */
    method HandleVersionError(diskVersion: int, recoveryFails: bool) returns (r: InitResult)
      requires Valid()
      modifies this`version, this`isInitialized
      ensures Valid()
      ensures recoveryFails ==> r == InitFailed(RecoveryFailed) && version == old(version) && isInitialized == old(isInitialized)
      ensures !recoveryFails ==> r == Initialized(true) && version == diskVersion && isInitialized
    {
      if recoveryFails {
        return InitFailed(RecoveryFailed);
      }
      version := diskVersion;
      isInitialized := true;
      r := Initialized(true);
    }

    /** `performMaintenance`: retention, the statistics record, then the
        automatic backup; every failure is swallowed. */
    method PerformMaintenance(now: int, nowIso: string, iv: seq<bv8>, stats: Json)
      requires Valid() && |iv| == Security.IvLength
      modifies this`stores, security
      ensures Valid()
      ensures stores[Transactions] == old(stores)[Transactions] && stores[Budgets] == old(stores)[Budgets]
      ensures stores[Settings] == old(stores)[Settings]
      ensures isInitialized ==> Find(stores[Metadata].rows, StrKey("database_stats")) == Some(MetadataRecord(nowIso, stats, version))
      ensures isInitialized ==>
                var sealWith := if old(SealsBackups()) then old(security.encryptionKey) else None;
                stores[Backups] == MaintainedBackups(old(stores), version, sealWith, nowIso, iv, now)
      ensures isInitialized && MaintenanceBacksUp(old(stores)) && old(SealsBackups()) ==>
                var record := AutoBackupRecord(old(stores), version, old(security.encryptionKey), nowIso, iv, now);
                && security.ActiveAt(now)
                && security.integrityCache == old(security.integrityCache)[Checksum(Field(record, "data").value) := now]
      ensures !(isInitialized && MaintenanceBacksUp(old(stores)) && old(SealsBackups())) ==> unchanged(security)
      ensures !isInitialized ==> stores == old(stores)
    {
      ghost var s0 := stores;
      CleanupOldBackups();
      assert stores[Transactions] == s0[Transactions] && stores[Budgets] == s0[Budgets] && stores[Settings] == s0[Settings];
      ghost var s1 := stores;
      UpdateMetadata(nowIso, stats);
      assert stores[Transactions] == s1[Transactions] && stores[Budgets] == s1[Budgets] && stores[Settings] == s1[Settings];
      ghost var meta := stores[Metadata];
      ghost var record := MetadataRecord(nowIso, stats, version);
      assert isInitialized ==> Find(meta.rows, StrKey("database_stats")) == Some(record);
      var created := CreateAutomaticBackupIfNeeded(now, nowIso, iv);
      assert stores[Metadata] == meta && record == MetadataRecord(nowIso, stats, version);
      assert !isInitialized ==> !created && stores == s0;
    }


    /** `updateMetadata`: put the statistics record under `database_stats`. */
    method UpdateMetadata(nowIso: string, stats: Json)
      requires Valid()
      modifies this`stores
      ensures Valid()
      ensures isInitialized ==> Find(stores[Metadata].rows, StrKey("database_stats")) == Some(MetadataRecord(nowIso, stats, version))
      ensures forall n :: n != Metadata ==> n in stores && stores[n] == old(stores)[n]
      ensures !isInitialized ==> stores == old(stores)
    {
      var record := MetadataRecord(nowIso, stats, version);
      var _ := Put(Metadata, record);
      if isInitialized {
        WriteCorrect(Metadata, old(stores)[Metadata], record, true);
        SortedFind(stores[Metadata].rows, StrKey("database_stats"), record);
      }
    }

    // ---------------------------------------------------------- CRUD

    /** `store.add` / `store.put` behind the initialization gate. */
    method WriteRecord(name: StoreName, value: Json, overwrite: bool) returns (r: Outcome<DbKey>)
      requires Valid()
      modifies this`stores
      ensures Valid()
      ensures !isInitialized ==> r == Failed(NotInitialized) && stores == old(stores)
      ensures isInitialized ==>
                match Stores.Write(name, old(stores)[name], value, overwrite)
                case Done((st, k)) => r == Done(k) && stores == old(stores)[name := st]
                case Failed(e) => r == Failed(e) && stores == old(stores)
    {
      if !isInitialized {
        return Failed(NotInitialized);
      }
      WriteCorrect(name, stores[name], value, overwrite);
      match Stores.Write(name, stores[name], value, overwrite)
      case Done((st, k)) =>
        stores := stores[name := st];
        r := Done(k);
      case Failed(e) =>
        r := Failed(e);
    }

    /** `add(storeName, data)`. */
    method Add(name: StoreName, value: Json) returns (r: Outcome<DbKey>)
      requires Valid()
      modifies this`stores
      ensures Valid()
      ensures !isInitialized ==> r == Failed(NotInitialized) && stores == old(stores)
      ensures isInitialized ==>
                match Stores.Write(name, old(stores)[name], value, false)
                case Done((st, k)) => r == Done(k) && stores == old(stores)[name := st]
                case Failed(e) => r == Failed(e) && stores == old(stores)
    {
      r := WriteRecord(name, value, false);
    }

    /** `put(storeName, data)`. */
    method Put(name: StoreName, value: Json) returns (r: Outcome<DbKey>)
      requires Valid()
      modifies this`stores
      ensures Valid()
      ensures !isInitialized ==> r == Failed(NotInitialized) && stores == old(stores)
      ensures isInitialized ==>
                match Stores.Write(name, old(stores)[name], value, true)
                case Done((st, k)) => r == Done(k) && stores == old(stores)[name := st]
                case Failed(e) => r == Failed(e) && stores == old(stores)
    {
      r := WriteRecord(name, value, true);
    }

    /** `get(storeName, key)`: the record under the key, or None. */
    function GetRecord(name: StoreName, key: Json): (r: Outcome<Option<Json>>)
      requires Valid()
      reads this, security
      ensures !isInitialized ==> r == Failed(NotInitialized)
      ensures isInitialized ==> r == Get(stores[name], key)
      ensures isInitialized && KeyFromJson(key).None? ==> r == Failed(DataError)
      ensures isInitialized && KeyFromJson(key).Some? ==>
                var k := KeyFromJson(key).value;
                && r.Done?
                && (r.value.Some? ==> Row(k, r.value.value) in stores[name].rows)
                && (r.value.None? ==> forall v :: Row(k, v) !in stores[name].rows)
    {
      if !isInitialized then Failed(NotInitialized)
      else
        var r := Get(stores[name], key);
        if KeyFromJson(key).Some? then FindAbsent(stores[name].rows, KeyFromJson(key).value); r else r
    }

    /** `getAll(storeName)`: every record in key order. */
    function GetAll(name: StoreName): (r: Outcome<seq<Json>>)
      requires Valid()
      reads this, security
      ensures !isInitialized ==> r == Failed(NotInitialized)
      ensures isInitialized ==>
                && r.Done? && |r.value| == |stores[name].rows|
                && forall i :: 0 <= i < |r.value| ==> Row(stores[name].rows[i].key, r.value[i]) == stores[name].rows[i]
    {
      if !isInitialized then Failed(NotInitialized) else Done(RowValues(stores[name].rows))
    }

    /** `getCount(storeName)`. */
    function GetCount(name: StoreName): (r: Outcome<nat>)
      requires Valid()
      reads this, security
      ensures !isInitialized <==> r == Failed(NotInitialized)
      ensures r.Done? ==> r.value == |stores[name].rows|
    {
      if !isInitialized then Failed(NotInitialized) else Done(|stores[name].rows|)
    }

    /** `delete(storeName, key)`. */
    method Delete(name: StoreName, key: Json) returns (r: Outcome<()>)
      requires Valid()
      modifies this`stores
      ensures Valid()
      ensures !isInitialized ==> r == Failed(NotInitialized) && stores == old(stores)
      ensures isInitialized && KeyFromJson(key).None? ==> r == Failed(DataError) && stores == old(stores)
      ensures isInitialized && KeyFromJson(key).Some? ==>
                r == Done(()) && stores == old(stores)[name := Store(Remove(old(stores)[name].rows, KeyFromJson(key).value), old(stores)[name].next)]
    {
      if !isInitialized {
        return Failed(NotInitialized);
      }
      DeleteCorrect(name, stores[name], key);
      match Stores.Delete(stores[name], key)
      case Done(st) =>
        stores := stores[name := st];
        r := Done(());
      case Failed(e) =>
        r := Failed(e);
    }

    /** `clearStore(storeName)`. */
    method ClearStore(name: StoreName) returns (r: Outcome<()>)
      requires Valid()
      modifies this`stores
      ensures Valid()
      ensures !isInitialized ==> r == Failed(NotInitialized) && stores == old(stores)
      ensures isInitialized ==> r == Done(()) && stores == old(stores)[name := Clear(old(stores)[name])]
    {
      if !isInitialized {
        return Failed(NotInitialized);
      }
      stores := stores[name := Clear(stores[name])];
      r := Done(());
    }

    // ------------------------------------------------------ backups

    /** `getBackups()`: the backups in the timestamp range, in index order. */
    function GetBackups(): (r: Outcome<seq<Json>>)
      requires Valid()
      reads this, security
      ensures !isInitialized <==> r == Failed(NotInitialized)
      ensures r.Done? ==> r.value == RowValues(ByTimestamp(stores[Backups].rows))
    {
      if !isInitialized then Failed(NotInitialized) else Done(RowValues(ByTimestamp(stores[Backups].rows)))
    }

    /** `getLastBackup()`: the newest backup, if any. */
    function GetLastBackup(): (r: Outcome<Option<Json>>)
      requires Valid()
      reads this, security
      ensures !isInitialized <==> r == Failed(NotInitialized)
      ensures r.Done? ==> r.value == (var l := LastBackup(stores[Backups].rows); if l.Some? then Some(l.value.value) else None)
    {
      match GetBackups()
      case Failed(e) => Failed(e)
      case Done(bs) => Done(if |bs| > 0 then Some(bs[|bs| - 1]) else None)
    }

    /** `cleanupOldBackups()`: delete, by id, every backup but the newest
        `BackupLimit` in index order; failures are swallowed. */
    method CleanupOldBackups()
      requires Valid()
      modifies this`stores
      ensures Valid()
      ensures !isInitialized ==> stores == old(stores)
      ensures isInitialized ==> stores == old(stores)[Backups := Retained(old(stores)[Backups])]
    {
      var listed := GetBackups();
      if listed.Failed? {
        return;
      }
      var backups := listed.value;
      ghost var st0 := stores[Backups];
      DoomedIds(st0.rows);
      if |backups| <= BackupLimit {
        assert KeysOf(Doomed(st0.rows)) == [];
        assert stores == stores[Backups := Store(RemoveKeys(st0.rows, []), st0.next)];
      } else {
        var toDelete := backups[..|backups| - BackupLimit];
        DoomedIdsName(st0.rows, toDelete);
        DeleteDoomed(toDelete, KeysOf(Doomed(st0.rows)));
      }
    }

    /** The deletion loop of `cleanupOldBackups`: `delete('backups', b.id)`
        for each backup `b` of `toDelete`, whose ids name the keys `ks`. */
    method DeleteDoomed(toDelete: seq<Json>, ghost ks: seq<DbKey>)
      requires Valid() && isInitialized
      requires |ks| == |toDelete| && forall i :: 0 <= i < |toDelete| ==> IdNames(toDelete[i], ks[i])
      modifies this`stores
      ensures Valid()
      ensures var st := old(stores)[Backups];
              stores == old(stores)[Backups := Store(RemoveKeys(st.rows, ks), st.next)]
    {
      ghost var rows0 := stores[Backups].rows;
      ghost var next0 := stores[Backups].next;
      for i := 0 to |toDelete|
        invariant Valid() && isInitialized
        invariant stores == old(stores)[Backups := Store(RemoveKeys(rows0, ks[..i]), next0)]
      {
        assert ks[..i + 1][..i] == ks[..i];
        var id := Field(toDelete[i], "id");
        var _ := Delete(Backups, id.value);
      }
      assert ks[..|toDelete|] == ks;
    }

    /** `createBackup(description)`: snapshot the three data stores, checksum
        the plaintext snapshot, encrypt the record when the security manager
        has a salt and is unlocked, add it, then run retention. */
    method CreateBackup(description: string, now: int, nowIso: string, iv: seq<bv8>) returns (r: Outcome<DbKey>)
      requires Valid() && |iv| == Security.IvLength
      modifies this`stores, security
      ensures Valid()
      ensures !old(isInitialized) ==> r == Failed(NotInitialized) && stores == old(stores) && unchanged(security)
      ensures old(isInitialized) ==>
                var sealWith := if old(SealsBackups()) then old(security.encryptionKey) else None;
                var record := BackupRecord(Snapshot(old(stores)), nowIso, version, description, sealWith, iv, now);
                && r == Done(NumKey(old(stores)[Backups].next))
                && stores == old(stores)[Backups := BackupsAfterCreate(old(stores)[Backups], record)]
      ensures old(isInitialized && SealsBackups()) ==>
                var record := BackupRecord(Snapshot(old(stores)), nowIso, version, description, old(security.encryptionKey), iv, now);
                && security.ActiveAt(now)
                && security.integrityCache == old(security.integrityCache)[Checksum(Field(record, "data").value) := now]
      ensures !old(isInitialized && SealsBackups()) ==> unchanged(security)
      ensures security.encryptionKey == old(security.encryptionKey) && security.isLocked == old(security.isLocked)
      ensures security.salt == old(security.salt) && security.autoLockMinutes == old(security.autoLockMinutes)
      ensures security.storedSalt == old(security.storedSalt) && security.storedAutoLockMinutes == old(security.storedAutoLockMinutes)
    {
      if !isInitialized {
        return Failed(NotInitialized);
      }
      var backup := CollectBackup(description, now, nowIso, iv);
      var id := StoreBackup(backup);
      r := Done(id);
    }

    /** `add('backups', backup)` followed by `cleanupOldBackups()`. */
    method StoreBackup(backup: Json) returns (id: DbKey)
      requires Valid() && isInitialized
      requires backup.JObj? && Field(backup, "id").None?
      modifies this`stores
      ensures Valid()
      ensures id == NumKey(old(stores)[Backups].next)
      ensures stores == old(stores)[Backups := BackupsAfterCreate(old(stores)[Backups], backup)]
    {
      ghost var st0 := stores[Backups];
      // The record has no `id`, so `add` generates the key and cannot fail.
      GeneratedBackupKey(st0, backup);
      var r := Add(Backups, backup);
      assert stores == old(stores)[Backups := Added(st0, backup)];
      CleanupOldBackups();
      id := r.value;
    }

    /** The record `createBackup` adds: the snapshot and its checksum, then
        the encryption of the whole record when the security manager has a
        salt and is unlocked. */
    method CollectBackup(description: string, now: int, nowIso: string, iv: seq<bv8>) returns (backup: Json)
      requires Valid() && |iv| == Security.IvLength
      modifies security
      ensures Valid()
      ensures var sealWith := if old(SealsBackups()) then old(security.encryptionKey) else None;
              backup == BackupRecord(Snapshot(stores), nowIso, version, description, sealWith, iv, now)
      ensures backup.JObj? && Field(backup, "id").None?
      ensures old(SealsBackups()) ==>
                && security.ActiveAt(now) && Field(backup, "data").Some?
                && security.integrityCache == old(security.integrityCache)[Checksum(Field(backup, "data").value) := now]
      ensures !old(SealsBackups()) ==> unchanged(security)
      ensures security.encryptionKey == old(security.encryptionKey) && security.isLocked == old(security.isLocked)
      ensures security.salt == old(security.salt) && security.autoLockMinutes == old(security.autoLockMinutes)
      ensures security.storedSalt == old(security.storedSalt) && security.storedAutoLockMinutes == old(security.storedAutoLockMinutes)
    {
      var snapshot := Snapshot(stores);
      backup := PlainBackup(snapshot, nowIso, version, description);
      if SealsBackups() {
        var encrypted := security.Encrypt(backup, None, now, iv);
        if encrypted.Ok? {
          backup := JObj(Spread(backup)["encrypted" := JBool(true)]["data" := encrypted.value.ToJson()]);
        }
      }
    }

    /** `createAutomaticBackupIfNeeded()`: back up when the rule fires;
        failures are swallowed. */
    method CreateAutomaticBackupIfNeeded(now: int, nowIso: string, iv: seq<bv8>) returns (created: bool)
      requires Valid() && |iv| == Security.IvLength
      modifies this`stores, security
      ensures Valid()
      ensures created <==> old(isInitialized) && AutoBackupDue(old(GetLastBackup()).value, |old(stores)[Transactions].rows|)
      ensures !isInitialized ==> !created
      ensures !created ==> stores == old(stores) && unchanged(security)
      ensures created ==>
                var sealWith := if old(SealsBackups()) then old(security.encryptionKey) else None;
                var record := BackupRecord(Snapshot(old(stores)), nowIso, version, "Automatic backup", sealWith, iv, now);
                stores == old(stores)[Backups := BackupsAfterCreate(old(stores)[Backups], record)]
      ensures created && old(SealsBackups()) ==>
                var record := BackupRecord(Snapshot(old(stores)), nowIso, version, "Automatic backup", old(security.encryptionKey), iv, now);
                && security.ActiveAt(now)
                && security.integrityCache == old(security.integrityCache)[Checksum(Field(record, "data").value) := now]
      ensures !(created && old(SealsBackups())) ==> unchanged(security)
      ensures stores[Transactions] == old(stores)[Transactions] && stores[Budgets] == old(stores)[Budgets]
      ensures stores[Settings] == old(stores)[Settings] && stores[Metadata] == old(stores)[Metadata]
      ensures security.encryptionKey == old(security.encryptionKey) && security.isLocked == old(security.isLocked)
      ensures security.salt == old(security.salt) && security.autoLockMinutes == old(security.autoLockMinutes)
      ensures security.storedSalt == old(security.storedSalt) && security.storedAutoLockMinutes == old(security.storedAutoLockMinutes)
    {
      var last := GetLastBackup();
      if last.Failed? {
        return false;
      }
      var count := GetCount(Transactions);
      if AutoBackupDue(last.value, count.value) {
        var _ := CreateBackup("Automatic backup", now, nowIso, iv);
        created := true;
      } else {
        created := false;
      }
    }

    /** Issue one write per item, in order, recording the first failure. */
    method WriteEach(name: StoreName, items: seq<Json>, overwrite: bool) returns (err: Option<DbError>)
      requires Valid() && isInitialized
      modifies this`stores
      ensures Valid()
      ensures (stores[name], err) == WriteAll(name, old(stores)[name], items, overwrite)
      ensures stores == old(stores)[name := stores[name]]
    {
      err := None;
      for i := 0 to |items|
        invariant Valid()
        invariant (stores[name], err) == WriteAll(name, old(stores)[name], items[..i], overwrite)
        invariant stores == old(stores)[name := stores[name]]
      {
        assert items[..i + 1][..i] == items[..i];
        err := WriteNext(name, items[i], overwrite, err);
      }
      assert items[..|items|] == items;
    }

    /** One write of the loop, keeping the first failure. */
    method WriteNext(name: StoreName, item: Json, overwrite: bool, err: Option<DbError>) returns (err': Option<DbError>)
      requires Valid() && isInitialized
      modifies this`stores
      ensures Valid()
      ensures (stores[name], err') == WriteStep(name, (old(stores)[name], err), item, overwrite)
      ensures stores == old(stores)[name := stores[name]]
    {
      var r := WriteRecord(name, item, overwrite);
      err' := if r.Failed? && err.None? then Some(r.error) else err;
    }

    /** Clear the three data stores and refill them from `data`. */
    method RefillFrom(data: Option<Json>) returns (err: Option<DbError>)
      requires Valid() && isInitialized
      modifies this`stores
      ensures Valid()
      ensures (stores, err) == Refill(old(stores), data)
    {
      ghost var cleared := Cleared(stores);
      var _ := ClearStore(Transactions);
      var _ := ClearStore(Budgets);
      var _ := ClearStore(Settings);
      assert stores == cleared;
      var txs := ArrayField(data, "transactions");
      if txs.None? {
        return Some(TypeError);
      }
      var e1 := WriteEach(Transactions, txs.value, false);
      var bs := ArrayField(data, "budgets");
      if bs.None? {
        return Some(TypeError);
      }
      var e2 := WriteEach(Budgets, bs.value, true);
      var ss := ArrayField(data, "settings");
      if ss.None? {
        return Some(TypeError);
      }
      var e3 := WriteEach(Settings, ss.value, true);
      err := if e1.Some? then e1 else if e2.Some? then e2 else e3;
    }

    /** `restoreBackup(backupId)`. */
    method RestoreBackup(backupId: Json, now: int) returns (r: Outcome<()>)
      requires Valid()
      modifies this`stores, security
      ensures Valid()
      ensures (r, stores) == Restore(old(stores), old(isInitialized),
                                     if old(security.IsInitialized()) then old(security.encryptionKey) else None, backupId)
      ensures RestoreDecrypts(old(stores), old(isInitialized),
                              if old(security.IsInitialized()) then old(security.encryptionKey) else None, backupId)
              ==> security.ActiveAt(now)
      ensures !RestoreDecrypts(old(stores), old(isInitialized),
                               if old(security.IsInitialized()) then old(security.encryptionKey) else None, backupId)
              ==> unchanged(security)
      ensures security.encryptionKey == old(security.encryptionKey) && security.isLocked == old(security.isLocked)
      ensures security.salt == old(security.salt) && security.integrityCache == old(security.integrityCache)
      ensures security.autoLockMinutes == old(security.autoLockMinutes)
      ensures security.storedSalt == old(security.storedSalt) && security.storedAutoLockMinutes == old(security.storedAutoLockMinutes)
    {
      if !isInitialized {
        return Failed(NotInitialized);
      }
      var found := GetRecord(Backups, backupId);
      if found.Failed? {
        return Failed(found.error);
      }
      if found.value.None? {
        return Failed(BackupNotFound);
      }
      var backup := found.value.value;
      var data := Field(backup, "data");
      if Truthy(Field(backup, "encrypted")) && security.IsInitialized() {
        var plain := security.DecryptData(data, None, now);
        match plain
        case Err(_) =>
          return Failed(DecryptFailed);
        case Ok(v) =>
          data := Some(v);
      }
      if data.None? || Some(Checksum(data.value)) != Field(backup, "checksum") {
        return Failed(IntegrityCheckFailed);
      }
      var err := RefillFrom(data);
      r := if err.Some? then Failed(err.value) else Done(());
    }

    /** `importData(importData)`: clear the three data stores, then refill
        them from `importData.data`. */
    method ImportData(importData: Json) returns (r: Outcome<()>)
      requires Valid()
      modifies this`stores
      ensures Valid()
      ensures !isInitialized ==> r == Failed(NotInitialized) && stores == old(stores)
      ensures isInitialized ==>
                var (after, err) := Refill(old(stores), Field(importData, "data"));
                stores == after && r == (if err.Some? then Failed(err.value) else Done(()))
    {
      if !isInitialized {
        return Failed(NotInitialized);
      }
      var err := RefillFrom(Field(importData, "data"));
      r := if err.Some? then Failed(err.value) else Done(());
    }

    // ------------------------------------------------------- the reader

    /** `getTransactionsWithDecryption()`: when the `encryption_enabled`
        setting is `true` and the security manager is initialized, every row
        goes through `ReadRow` (each attempted decryption counts as activity);
        otherwise the rows are returned as stored; before initialization the
        thrown error yields []. */
    method GetTransactionsWithDecryption(now: int) returns (txs: seq<Json>)
      requires Valid()
      modifies security
      ensures Valid()
      ensures !isInitialized ==> txs == [] && unchanged(security)
      ensures isInitialized && !(EncryptionFlag(stores[Settings]) && old(security.IsInitialized())) ==>
                txs == RowValues(stores[Transactions].rows) && unchanged(security)
      ensures isInitialized && EncryptionFlag(stores[Settings]) && old(security.IsInitialized()) ==>
                && txs == ReadRows(old(security.encryptionKey).value, stores[Transactions].rows)
                && (SomeCiphertext(RowValues(stores[Transactions].rows)) ==> security.ActiveAt(now))
                && (!SomeCiphertext(RowValues(stores[Transactions].rows)) ==> unchanged(security))
      ensures security.encryptionKey == old(security.encryptionKey) && security.isLocked == old(security.isLocked)
      ensures security.salt == old(security.salt) && security.integrityCache == old(security.integrityCache)
      ensures security.autoLockMinutes == old(security.autoLockMinutes)
      ensures security.storedSalt == old(security.storedSalt) && security.storedAutoLockMinutes == old(security.storedAutoLockMinutes)
    {
      if !isInitialized {
        return [];
      }
      var rows := stores[Transactions].rows;
      var setting := GetRecord(Settings, JStr("encryption_enabled"));
      assert setting.value == Find(stores[Settings].rows, StrKey("encryption_enabled"));
      var flag := setting.value.Some? && Field(setting.value.value, "value") == Some(JBool(true));
      if !(flag && security.IsInitialized()) {
        return RowValues(rows);
      }
      txs := DecryptRows(security.encryptionKey.value, rows, now);
    }

    /** The `transactions.map(...)` pass and the null filter, row by row. */
    method DecryptRows(key: Key, rows: seq<Row>, now: int) returns (txs: seq<Json>)
      requires Valid() && security.encryptionKey == Some(key)
      modifies security
      ensures Valid()
      ensures txs == ReadRows(key, rows)
      ensures SomeCiphertext(RowValues(rows)) ==> security.ActiveAt(now)
      ensures !SomeCiphertext(RowValues(rows)) ==> unchanged(security)
      ensures security.encryptionKey == old(security.encryptionKey) && security.isLocked == old(security.isLocked)
      ensures security.salt == old(security.salt) && security.integrityCache == old(security.integrityCache)
      ensures security.autoLockMinutes == old(security.autoLockMinutes)
      ensures security.storedSalt == old(security.storedSalt) && security.storedAutoLockMinutes == old(security.storedAutoLockMinutes)
    {
      txs := [];
      ghost var touched := false;
      for i := 0 to |rows|
        invariant Valid()
        invariant security.encryptionKey == Some(key) && !security.isLocked
        invariant security.salt == old(security.salt) && security.integrityCache == old(security.integrityCache)
        invariant security.autoLockMinutes == old(security.autoLockMinutes)
        invariant security.storedSalt == old(security.storedSalt) && security.storedAutoLockMinutes == old(security.storedAutoLockMinutes)
        invariant touched <==> exists j :: 0 <= j < i && Attempted(rows[j])
        invariant touched ==> security.ActiveAt(now)
        invariant !touched ==> unchanged(security)
        invariant txs == ReadRows(key, rows[..i])
      {
        assert rows[..i + 1][..i] == rows[..i];
        var t := rows[i].value;
        var kept: Option<Json> := None;
        if Truthy(Field(t, "encrypted")) && Truthy(Field(t, "data")) && Truthy(Field(t, "iv")) {
          touched := true;
          var d := security.Decrypt(JObj(map["data" := Field(t, "data").value, "iv" := Field(t, "iv").value]), now);
          if d.Ok? {
            // `t.id` is the storage key, which every stored row carries.
            kept := Some(JObj(Spread(d.value.data)["id" := KeyToJson(rows[i].key)]));
          }
        } else if !Truthy(Field(t, "encrypted")) {
          kept := Some(t);
        }
        if kept.Some? {
          txs := txs + [kept.value];
        }
      }
      assert rows[..|rows|] == rows;
      assert touched <==> SomeCiphertext(RowValues(rows));
    }
  }

  /** The `id` of a listed backup names its storage key. */
  predicate IdNames(b: Json, k: DbKey)
  {
    Field(b, "id").Some? && KeyFromJson(Field(b, "id").value) == Some(k)
  }

  /** The backups retention deletes carry, as `id`, the keys of the doomed
      rows, in order. */
  lemma DoomedIdsName(rows: seq<Row>, toDelete: seq<Json>)
    requires RowsValid(Backups, rows)
    requires |toDelete| == |Doomed(rows)|
    requires forall i :: 0 <= i < |toDelete| ==> toDelete[i] == RowValues(ByTimestamp(rows))[i]
    ensures forall i :: 0 <= i < |toDelete| ==> IdNames(toDelete[i], KeysOf(Doomed(rows))[i])
  {
    var doomed := Doomed(rows);
    DoomedIds(rows);
    forall i | 0 <= i < |toDelete| ensures IdNames(toDelete[i], KeysOf(doomed)[i]) {
      KeyJsonRoundTrip(doomed[i].key, JNull);
    }
  }

  /** `add` of a record without an `id` takes the generator's key. */
  lemma GeneratedBackupKey(st: Store, record: Json)
    requires record.JObj? && Field(record, "id").None?
    ensures Stores.Write(Backups, st, record, false) == Done((Added(st, record), NumKey(st.next)))
  {
  }

  /** A key that is not found has no row at all. */
  lemma FindAbsent(rows: seq<Row>, k: DbKey)
    ensures Find(rows, k).None? ==> forall v :: Row(k, v) !in rows
  {
    forall v | Row(k, v) in rows ensures Find(rows, k).Some? {
      var i :| 0 <= i < |rows| && rows[i] == Row(k, v);
      assert rows[i].key in KeySet(rows);
    }
  }

  /** A sorted store's lookup finds what a write put there. */
  lemma SortedFind(rows: seq<Row>, k: DbKey, v: Json)
    requires Sorted(rows) && Row(k, v) in rows
    ensures Find(rows, k) == Some(v)
  {
    var f := Find(rows, k);
    assert k in KeySet(rows) by {
      var i :| 0 <= i < |rows| && rows[i] == Row(k, v);
    }
    SortedUniqueKeys(rows, Row(k, f.value), Row(k, v));
  }
}
