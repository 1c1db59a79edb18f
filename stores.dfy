/** The object stores of the database, in memory: each store is a sequence of
    rows kept in ascending key order (the order `getAll` returns), plus the
    key generator of the auto-increment stores. The functions here are the
    IndexedDB semantics the database manager relies on: in-line keys at a key
    path, generated keys injected into the record, `add` refusing an existing
    key, `put` replacing it. */
module Stores {
  import opened Values

  /** A primary key. IndexedDB also accepts fractional numbers, dates, binary
      keys and arrays; the model accepts integers and strings. */
  datatype DbKey = NumKey(n: int) | StrKey(s: string)

  datatype Row = Row(key: DbKey, value: Json)

  /** Rows in key order, and the key generator's current number. */
  datatype Store = Store(rows: seq<Row>, next: int)

  datatype StoreName = Transactions | Budgets | Settings | Backups | Metadata

  /** The failures the database manager reports. */
  datatype DbError =
    | NotInitialized       // 'DatabaseManager not initialized. Call initialize() first.'
    | DataError            // IndexedDB: no valid key
    | ConstraintError      // IndexedDB: `add` with a key already present
    | TypeError            // a snapshot field that is not an array
    | BackupNotFound       // 'Backup not found'
    | IntegrityCheckFailed // 'Backup integrity check failed'
    | DecryptFailed        // a decryption that threw
    | OpenFailed           // any open failure other than a version conflict
    | RecoveryFailed       // reopening without a version failed too

  datatype Outcome<T> = Done(value: T) | Failed(error: DbError)

  // ------------------------------------------------------------ the schema

  /** `createObjectStores`: transactions and backups keyed by an
      auto-incremented `id`, budgets by `category`, settings and metadata by `key`. */
  function KeyPath(name: StoreName): string
  {
    match name
    case Transactions => "id"
    case Backups => "id"
    case Budgets => "category"
    case Settings => "key"
    case Metadata => "key"
  }

  predicate AutoIncrement(name: StoreName)
  {
    name == Transactions || name == Backups
  }

  // ------------------------------------------------------------ key order

  /** Lexicographic order of strings by code point. */
  predicate StrLt(a: string, b: string)
  {
    if a == [] then b != []
    else if b == [] then false
    else if a[0] != b[0] then a[0] < b[0]
    else StrLt(a[1..], b[1..])
  }

  /** IndexedDB key order: every number before every string. */
  predicate KeyLt(a: DbKey, b: DbKey)
  {
    match (a, b)
    case (NumKey(x), NumKey(y)) => x < y
    case (NumKey(_), StrKey(_)) => true
    case (StrKey(_), NumKey(_)) => false
    case (StrKey(x), StrKey(y)) => StrLt(x, y)
  }

  lemma {:induction false} StrLtIrreflexive(a: string)
    ensures !StrLt(a, a)
  {
    if a != [] { StrLtIrreflexive(a[1..]); }
  }

  lemma {:induction false} StrLtTransitive(a: string, b: string, c: string)
    requires StrLt(a, b) && StrLt(b, c)
    ensures StrLt(a, c)
  {
    if a != [] && b != [] && c != [] && a[0] == b[0] && b[0] == c[0] {
      StrLtTransitive(a[1..], b[1..], c[1..]);
    }
  }

  lemma {:induction false} StrLtTotal(a: string, b: string)
    ensures a == b || StrLt(a, b) || StrLt(b, a)
  {
    if a != [] && b != [] && a[0] == b[0] {
      StrLtTotal(a[1..], b[1..]);
      if a[1..] == b[1..] {
        assert a == [a[0]] + a[1..] && b == [b[0]] + b[1..];
      }
    }
  }

  lemma {:induction false} StrLtAsymmetric(a: string, b: string)
    requires StrLt(a, b)
    ensures !StrLt(b, a)
  {
    if a != [] && b != [] && a[0] == b[0] {
      StrLtAsymmetric(a[1..], b[1..]);
    }
  }

  lemma KeyLtIrreflexive(a: DbKey)
    ensures !KeyLt(a, a)
  {
    if a.StrKey? { StrLtIrreflexive(a.s); }
  }

  lemma KeyLtTransitive(a: DbKey, b: DbKey, c: DbKey)
    requires KeyLt(a, b) && KeyLt(b, c)
    ensures KeyLt(a, c)
  {
    if a.StrKey? && b.StrKey? && c.StrKey? { StrLtTransitive(a.s, b.s, c.s); }
  }

  lemma KeyLtTotal(a: DbKey, b: DbKey)
    ensures a == b || KeyLt(a, b) || KeyLt(b, a)
  {
    if a.StrKey? && b.StrKey? { StrLtTotal(a.s, b.s); }
  }

  lemma KeyLtAsymmetric(a: DbKey, b: DbKey)
    requires KeyLt(a, b)
    ensures !KeyLt(b, a)
  {
    if a.StrKey? && b.StrKey? { StrLtAsymmetric(a.s, b.s); }
  }

  // ---------------------------------------------------- keys as JS values

  /** The key a value denotes, if it is one the model accepts. */
  function KeyFromJson(j: Json): Option<DbKey>
  {
    match j
    case JNum(n) => if IsIntegral(n) then Some(NumKey(n.Floor)) else None
    case JStr(s) => Some(StrKey(s))
    case _ => None
  }

  function KeyToJson(k: DbKey): Json
  {
    match k
    case NumKey(n) => JNum(n as real)
    case StrKey(s) => JStr(s)
  }

  /** A key read back from its JS value is the same key, and a value that
      denotes a key is that key's JS value. */
  lemma KeyJsonRoundTrip(k: DbKey, j: Json)
    ensures KeyFromJson(KeyToJson(k)) == Some(k)
    ensures KeyFromJson(j) == Some(k) ==> KeyToJson(k) == j
  {
  }

  // ----------------------------------------------------------- sorted rows

  ghost predicate Sorted(rows: seq<Row>)
  {
    forall i, j :: 0 <= i < j < |rows| ==> KeyLt(rows[i].key, rows[j].key)
  }

  function KeySet(rows: seq<Row>): set<DbKey>
  {
    set i | 0 <= i < |rows| :: rows[i].key
  }

  function RowValues(rows: seq<Row>): (vs: seq<Json>)
    ensures |vs| == |rows|
    ensures forall i :: 0 <= i < |rows| ==> vs[i] == rows[i].value
  {
    seq(|rows|, i requires 0 <= i < |rows| => rows[i].value)
  }

  /** The value stored under a key (the first row with that key). */
  function Find(rows: seq<Row>, k: DbKey): (r: Option<Json>)
    ensures r.Some? ==> Row(k, r.value) in rows
    ensures r.None? <==> k !in KeySet(rows)
  {
    if rows == [] then None
    else if rows[0].key == k then Some(rows[0].value)
    else
      var r := Find(rows[1..], k);
      assert forall i :: 1 <= i < |rows| ==> rows[i] == rows[1..][i - 1];
      assert KeySet(rows) == {rows[0].key} + KeySet(rows[1..]);
      r
  }

  /** Insert a row at its place in key order, replacing a row with that key. */
  function Upsert(rows: seq<Row>, k: DbKey, v: Json): seq<Row>
  {
    if rows == [] then [Row(k, v)]
    else if rows[0].key == k then [Row(k, v)] + rows[1..]
    else if KeyLt(k, rows[0].key) then [Row(k, v)] + rows
    else [rows[0]] + Upsert(rows[1..], k, v)
  }

  /** Rows without the one keyed `k`. */
  function Remove(rows: seq<Row>, k: DbKey): seq<Row>
  {
    if rows == [] then []
    else if rows[0].key == k then Remove(rows[1..], k)
    else [rows[0]] + Remove(rows[1..], k)
  }

  lemma {:induction false} SortedTail(rows: seq<Row>)
    requires Sorted(rows) && rows != []
    ensures Sorted(rows[1..])
    ensures forall r :: r in rows[1..] ==> KeyLt(rows[0].key, r.key)
  {
    forall r | r in rows[1..] ensures KeyLt(rows[0].key, r.key) {
      var j :| 0 <= j < |rows[1..]| && rows[1..][j] == r;
      assert rows[j + 1] == r;
    }
  }

  lemma {:induction false} SortedCons(r: Row, rows: seq<Row>)
    requires Sorted(rows)
    requires forall x :: x in rows ==> KeyLt(r.key, x.key)
    ensures Sorted([r] + rows)
  {
    var s := [r] + rows;
    forall i, j | 0 <= i < j < |s| ensures KeyLt(s[i].key, s[j].key) {
      if i == 0 {
        assert s[j] == rows[j - 1];
        assert s[j] in rows;
      } else {
        assert s[i] == rows[i - 1] && s[j] == rows[j - 1];
      }
    }
  }

  /** In a sorted sequence every key occurs once, so a row is determined by its key. */
  lemma SortedUniqueKeys(rows: seq<Row>, a: Row, b: Row)
    requires Sorted(rows) && a in rows && b in rows && a.key == b.key
    ensures a == b
  {
    var i :| 0 <= i < |rows| && rows[i] == a;
    var j :| 0 <= j < |rows| && rows[j] == b;
    if i < j {
      KeyLtIrreflexive(a.key);
    } else if j < i {
      KeyLtIrreflexive(a.key);
    }
  }

  /** Upsert keeps the order and changes exactly the row keyed `k`. */
  lemma {:induction false} UpsertCorrect(rows: seq<Row>, k: DbKey, v: Json)
    requires Sorted(rows)
    ensures Sorted(Upsert(rows, k, v))
    ensures forall r :: r in Upsert(rows, k, v) <==> r == Row(k, v) || (r in rows && r.key != k)
  {
    var u := Upsert(rows, k, v);
    if rows == [] {
    } else if rows[0].key == k {
      SortedTail(rows);
      SortedCons(Row(k, v), rows[1..]);
      assert rows == [rows[0]] + rows[1..];
      forall r | r in rows[1..] ensures r.key != k {
        KeyLtIrreflexive(k);
      }
    } else if KeyLt(k, rows[0].key) {
      SortedTail(rows);
      forall x | x in rows ensures KeyLt(k, x.key) {
        if x != rows[0] {
          assert x in rows[1..];
          KeyLtTransitive(k, rows[0].key, x.key);
        }
      }
      SortedCons(Row(k, v), rows);
      forall r | r in rows ensures r.key != k {
        if r.key == k {
          if r == rows[0] { KeyLtIrreflexive(k); }
          else { assert r in rows[1..]; KeyLtAsymmetric(k, rows[0].key); }
        }
      }
    } else {
      SortedTail(rows);
      UpsertCorrect(rows[1..], k, v);
      KeyLtTotal(k, rows[0].key);
      forall x | x in Upsert(rows[1..], k, v) ensures KeyLt(rows[0].key, x.key) {
      }
      SortedCons(rows[0], Upsert(rows[1..], k, v));
      assert rows == [rows[0]] + rows[1..];
    }
  }

  /** Remove keeps the order and drops exactly the row keyed `k`. */
  lemma {:induction false} RemoveCorrect(rows: seq<Row>, k: DbKey)
    requires Sorted(rows)
    ensures Sorted(Remove(rows, k))
    ensures forall r :: r in Remove(rows, k) <==> r in rows && r.key != k
  {
    if rows != [] {
      SortedTail(rows);
      RemoveCorrect(rows[1..], k);
      assert rows == [rows[0]] + rows[1..];
      if rows[0].key != k {
        SortedCons(rows[0], Remove(rows[1..], k));
      }
    }
  }

  /** Upserting a key larger than every key present appends the row. */
  lemma {:induction false} UpsertLargest(rows: seq<Row>, k: DbKey, v: Json)
    requires forall r :: r in rows ==> KeyLt(r.key, k)
    ensures Upsert(rows, k, v) == rows + [Row(k, v)]
  {
    if rows != [] {
      assert rows[0] in rows;
      KeyLtAsymmetric(rows[0].key, k);
      KeyLtIrreflexive(k);
      assert forall r :: r in rows[1..] ==> r in rows;
      UpsertLargest(rows[1..], k, v);
      assert rows == [rows[0]] + rows[1..];
    }
  }

  // ------------------------------------------------ the store operations

  /** Every row sits in key order, carries its own key at the key path, and
      (auto-increment stores) every numeric key is below the generator. */
  ghost predicate StoreValid(name: StoreName, st: Store)
  {
    && RowsValid(name, st.rows)
    && (AutoIncrement(name) ==> forall r :: r in st.rows && r.key.NumKey? ==> r.key.n < st.next)
  }

  /** Rows in key order, each carrying its own key at the key path. */
  ghost predicate RowsValid(name: StoreName, rows: seq<Row>)
  {
    && Sorted(rows)
    && (forall r :: r in rows ==> Field(r.value, KeyPath(name)) == Some(KeyToJson(r.key)))
  }

  datatype KeyChoice = Explicit(k: DbKey) | Generated | Invalid

  /** How a write finds its key: the value at the key path when present (it
      must be a valid key), else a generated one when the store
      auto-increments and the record is an object the key can be injected
      into. */
  function ChooseKey(name: StoreName, value: Json): KeyChoice
  {
    match Field(value, KeyPath(name))
    case Some(j) => (match KeyFromJson(j) case Some(k) => Explicit(k) case None => Invalid)
    case None => if AutoIncrement(name) && value.JObj? then Generated else Invalid
  }

  /** The record with a generated key written at the key path. */
  function Inject(name: StoreName, value: Json, k: DbKey): Json
  {
    JObj(Spread(value)[KeyPath(name) := KeyToJson(k)])
  }

  /** An explicit numeric key at or above the generator moves it past that key. */
  function Bump(name: StoreName, next: int, k: DbKey): int
  {
    if AutoIncrement(name) && k.NumKey? && k.n >= next then k.n + 1 else next
  }

  /** `store.add(value)` (overwrite false) and `store.put(value)` (overwrite true). */
  function Write(name: StoreName, st: Store, value: Json, overwrite: bool): Outcome<(Store, DbKey)>
  {
    match ChooseKey(name, value)
    case Invalid => Failed(DataError)
    case Generated =>
      var k := NumKey(st.next);
      Done((Store(Upsert(st.rows, k, Inject(name, value, k)), st.next + 1), k))
    case Explicit(k) =>
      if !overwrite && Find(st.rows, k).Some? then Failed(ConstraintError)
      else Done((Store(Upsert(st.rows, k, value), Bump(name, st.next, k)), k))
  }

  /** What a successful write stores: the record itself, or the record with
      its generated key injected. */
  function Stored(name: StoreName, value: Json, k: DbKey): Json
  {
    if Field(value, KeyPath(name)).Some? then value else Inject(name, value, k)
  }

  /** A write keeps the store valid; on success exactly the written key now
      holds the written record and every other row is as it was; `add` fails
      only on a missing or invalid key or a key already present. */
  lemma WriteCorrect(name: StoreName, st: Store, value: Json, overwrite: bool)
    requires StoreValid(name, st)
    ensures var w := Write(name, st, value, overwrite);
            match w
            case Done((st', k)) =>
              && StoreValid(name, st')
              && (forall r :: r in st'.rows <==> r == Row(k, Stored(name, value, k)) || (r in st.rows && r.key != k))
              && st'.next >= st.next
            case Failed(e) =>
              e == DataError <==> ChooseKey(name, value).Invalid?
  {
    match ChooseKey(name, value)
    case Invalid =>
    case Generated =>
      var k := NumKey(st.next);
      UpsertCorrect(st.rows, k, Inject(name, value, k));
    case Explicit(k) =>
      if overwrite || Find(st.rows, k).None? {
        UpsertCorrect(st.rows, k, value);
        KeyJsonRoundTrip(k, Field(value, KeyPath(name)).value);
      }
  }

  /** `store.get(key)`. */
  function Get(st: Store, key: Json): Outcome<Option<Json>>
  {
    match KeyFromJson(key)
    case None => Failed(DataError)
    case Some(k) => Done(Find(st.rows, k))
  }

  /** `store.delete(key)`: deleting an absent key succeeds and changes nothing. */
  function Delete(st: Store, key: Json): Outcome<Store>
  {
    match KeyFromJson(key)
    case None => Failed(DataError)
    case Some(k) => Done(Store(Remove(st.rows, k), st.next))
  }

  /** `store.clear()`: the key generator is not reset. */
  function Clear(st: Store): Store
  {
    Store([], st.next)
  }

  /** Deleting keeps the store valid and removes exactly the row under that key. */
  lemma DeleteCorrect(name: StoreName, st: Store, key: Json)
    requires StoreValid(name, st)
    ensures Delete(st, key).Done? <==> KeyFromJson(key).Some?
    ensures Delete(st, key).Done? ==>
              StoreValid(name, Delete(st, key).value)
              && forall r :: r in Delete(st, key).value.rows <==> r in st.rows && Some(r.key) != KeyFromJson(key)
  {
    if KeyFromJson(key).Some? {
      RemoveCorrect(st.rows, KeyFromJson(key).value);
    }
  }

  // -------------------------------------------- bulk writes and the refill

  /** The state after issuing one `add`/`put` per item in order, and the first
      failure among them (every request is issued even after one fails). */
  function WriteAll(name: StoreName, st: Store, items: seq<Json>, overwrite: bool): (Store, Option<DbError>)
    decreases |items|
  {
    if items == [] then (st, None)
    else WriteStep(name, WriteAll(name, st, items[..|items| - 1], overwrite), items[|items| - 1], overwrite)
  }

  /** One more write after `acc`: the store it leaves, and the first failure
      so far. */
  function WriteStep(name: StoreName, acc: (Store, Option<DbError>), item: Json, overwrite: bool): (Store, Option<DbError>)
  {
    match Write(name, acc.0, item, overwrite)
    case Done((s2, _)) => (s2, acc.1)
    case Failed(e) => (acc.0, if acc.1.Some? then acc.1 else Some(e))
  }

  /** A prefix of valid rows is valid. */
  lemma PrefixValid(name: StoreName, rows: seq<Row>, n: nat)
    requires RowsValid(name, rows) && n <= |rows|
    ensures RowsValid(name, rows[..n])
  {
    var prefix := rows[..n];
    forall i, j | 0 <= i < j < |prefix| ensures KeyLt(prefix[i].key, prefix[j].key) {
      assert prefix[i] == rows[i] && prefix[j] == rows[j];
    }
    assert forall r :: r in prefix ==> r in rows;
  }

  /** Writing the last of some valid rows after the others appends it. */
  lemma RefillLast(name: StoreName, rows: seq<Row>, next: int, overwrite: bool)
    requires RowsValid(name, rows) && rows != []
    ensures var last := rows[|rows| - 1];
            Write(name, Store(rows[..|rows| - 1], next), last.value, overwrite)
            == Done((Store(rows, Bump(name, next, last.key)), last.key))
  {
    var n := |rows| - 1;
    var prefix := rows[..n];
    var last := rows[n];
    assert last in rows;
    KeyJsonRoundTrip(last.key, KeyToJson(last.key));
    assert ChooseKey(name, last.value) == Explicit(last.key);
    forall r | r in prefix ensures KeyLt(r.key, last.key) {
      var i :| 0 <= i < |prefix| && prefix[i] == r;
      assert rows[i] == r;
    }
    assert Find(prefix, last.key).None? by {
      if last.key in KeySet(prefix) {
        var i :| 0 <= i < |prefix| && prefix[i].key == last.key;
        assert prefix[i] in prefix;
        KeyLtIrreflexive(last.key);
      }
    }
    UpsertLargest(prefix, last.key, last.value);
    assert prefix + [last] == rows;
  }

  /** Writing valid rows' records back, in order, into a store emptied by
      `clear()` rebuilds exactly those rows, with no failure, whatever the
      generator holds. This is why restoring an untampered snapshot gives the
      snapshot back. */
  lemma {:induction false} RefillRebuilds(name: StoreName, rows: seq<Row>, next: int, overwrite: bool)
    requires RowsValid(name, rows)
    ensures WriteAll(name, Store([], next), RowValues(rows), overwrite).0.rows == rows
    ensures WriteAll(name, Store([], next), RowValues(rows), overwrite).1 == None
    decreases |rows|
  {
    if rows != [] {
      var n := |rows| - 1;
      assert RowValues(rows)[..n] == RowValues(rows[..n]);
      PrefixValid(name, rows, n);
      RefillRebuilds(name, rows[..n], next, overwrite);
      var st := WriteAll(name, Store([], next), RowValues(rows[..n]), overwrite).0;
      RefillLast(name, rows, st.next, overwrite);
    }
  }
}
