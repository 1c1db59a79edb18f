/** The application provider (src/context/AppProvider.jsx): the reducer that
    holds the application state, and the provider steps that sit between the
    state and the managers: adding a transaction (with the encrypted wrapper
    record), loading the budgets object and loading the transactions through
    the compatibility decrypt path. `dispatch` is an assignment of the
    reducer's result to the provider's `state` field. */
module App {
  import opened Values
  import opened Crypto
  import opened Stores
  import Security
  import opened Database

  // ------------------------------------------------------------ the state

  /** The reducer state. `budgets` is a plain object whose properties may hold
      undefined, hence `Option<Json>` values. */
  datatype AppState = AppState(
    transactions: seq<Json>,
    budgets: map<string, Option<Json>>,
    currentView: Json,
    darkMode: bool,
    encryptionEnabled: Json,
    loading: Json,
    currency: Json,
    categories: Json,
    dbInitialized: Json)

  /** The `useReducer` initial state; `savedDarkMode` is the stored preference. */
  function InitialState(savedDarkMode: bool): AppState
  {
    AppState([], map[], JStr("dashboard"), savedDarkMode, JBool(false), JBool(true), JStr("USD"), JArr([]), JBool(false))
  }

  /** The actions, one per `type` string the reducer knows, plus any other
      type string. */
  datatype Action =
    | SetTransactions(txs: seq<Json>)             // 'SET_TRANSACTIONS'
    | AddTx(tx: Json)                             // 'ADD_TRANSACTION'
    | DeleteTx(id: Option<Json>)                  // 'DELETE_TRANSACTION'
    | SetBudgets(budgets: map<string, Option<Json>>) // 'SET_BUDGETS'
    | SetBudget(category: Option<Json>, amount: Option<Json>) // 'SET_BUDGET'
    | SetView(view: Json)                         // 'SET_VIEW'
    | ToggleTheme                                 // 'TOGGLE_THEME'
    | SetEncryption(enabled: Json)                // 'SET_ENCRYPTION'
    | SetLoading(loading: Json)                   // 'SET_LOADING'
    | SetCurrency(currency: Json)                 // 'SET_CURRENCY'
    | SetCategories(categories: Json)             // 'SET_CATEGORIES'
    | SetDbInitialized(ready: Json)               // 'SET_DB_INITIALIZED'
    | Unknown(tag: string)                        // any other type

  /** The property name a value becomes when used as a computed key
      (`obj[v]`), for the values budget categories take: strings, integers,
      booleans, null and undefined. */
  function PropertyKey(v: Option<Json>): string
  {
    match v
    case None => "undefined"
    case Some(JStr(s)) => s
    case Some(JNum(n)) => if IsIntegral(n) then IntToString(n.Floor) else "NaN"
    case Some(JBool(b)) => if b then "true" else "false"
    case Some(JNull) => "null"
    case Some(_) => "[object Object]"
  }

  /** `txs.filter(t => t.id !== id)`. */
  function WithoutId(txs: seq<Json>, id: Option<Json>): (r: seq<Json>)
    ensures |r| <= |txs|
  {
    if txs == [] then []
    else (if Field(txs[0], "id") != id then [txs[0]] else []) + WithoutId(txs[1..], id)
  }

  /** The filter keeps exactly the transactions with another id. */
  lemma {:induction false} WithoutIdKeeps(txs: seq<Json>, id: Option<Json>)
    ensures forall t :: t in WithoutId(txs, id) <==> t in txs && Field(t, "id") != id
  {
    if txs != [] {
      WithoutIdKeeps(txs[1..], id);
      assert forall t :: t in txs <==> t == txs[0] || t in txs[1..];
    }
  }

  /** `appReducer(state, action)`. */
  function Reduce(s: AppState, a: Action): AppState
  {
    match a
    case SetTransactions(txs) => s.(transactions := txs)
    case AddTx(tx) => s.(transactions := s.transactions + [tx])
    case DeleteTx(id) => s.(transactions := WithoutId(s.transactions, id))
    case SetBudgets(b) => s.(budgets := b)
    case SetBudget(c, amount) => s.(budgets := s.budgets[PropertyKey(c) := amount])
    case SetView(v) => s.(currentView := v)
    case ToggleTheme => s.(darkMode := !s.darkMode)
    case SetEncryption(e) => s.(encryptionEnabled := e)
    case SetLoading(l) => s.(loading := l)
    case SetCurrency(c) => s.(currency := c)
    case SetCategories(c) => s.(categories := c)
    case SetDbInitialized(d) => s.(dbInitialized := d)
    case Unknown(_) => s
  }

  /** A sequence of dispatches. */
  function ReduceAll(s: AppState, actions: seq<Action>): AppState
  {
    if actions == [] then s else Reduce(ReduceAll(s, actions[..|actions| - 1]), actions[|actions| - 1])
  }

  // ------------------------------------------------------- reducer facts

  /** Each action touches only its own field: transactions change only on the
      three transaction actions, budgets only on the two budget actions, the
      theme only on its toggle, and so on. */
  lemma ReduceFrame(s: AppState, a: Action)
    ensures var r := Reduce(s, a);
            && (!(a.SetTransactions? || a.AddTx? || a.DeleteTx?) ==> r.transactions == s.transactions)
            && (!(a.SetBudgets? || a.SetBudget?) ==> r.budgets == s.budgets)
            && (!a.SetView? ==> r.currentView == s.currentView)
            && (!a.ToggleTheme? ==> r.darkMode == s.darkMode)
            && (!a.SetEncryption? ==> r.encryptionEnabled == s.encryptionEnabled)
            && (!a.SetLoading? ==> r.loading == s.loading)
            && (!a.SetCurrency? ==> r.currency == s.currency)
            && (!a.SetCategories? ==> r.categories == s.categories)
            && (!a.SetDbInitialized? ==> r.dbInitialized == s.dbInitialized)
  {
  }

  /** ADD_TRANSACTION puts the payload last and keeps the earlier
      transactions in place. */
  lemma AddAppends(s: AppState, tx: Json)
    ensures var r := Reduce(s, AddTx(tx));
            && |r.transactions| == |s.transactions| + 1
            && r.transactions[|s.transactions|] == tx
            && r.transactions[..|s.transactions|] == s.transactions
  {
    var r := Reduce(s, AddTx(tx));
    assert r.transactions[..|s.transactions|] == s.transactions;
  }

  /** The delete filter distributes over concatenation, so the kept
      transactions stay in their original order. */
  lemma {:induction false} WithoutIdAppend(a: seq<Json>, b: seq<Json>, id: Option<Json>)
    ensures WithoutId(a + b, id) == WithoutId(a, id) + WithoutId(b, id)
  {
    if a != [] {
      assert (a + b)[0] == a[0];
      assert (a + b)[1..] == a[1..] + b;
      WithoutIdAppend(a[1..], b, id);
    } else {
      assert a + b == b;
    }
  }

  /** Deleting an id no transaction carries changes nothing. */
  lemma {:induction false} WithoutIdAbsent(txs: seq<Json>, id: Option<Json>)
    requires forall t :: t in txs ==> Field(t, "id") != id
    ensures WithoutId(txs, id) == txs
  {
    if txs != [] {
      assert forall t :: t in txs[1..] ==> t in txs;
      WithoutIdAbsent(txs[1..], id);
    }
  }

  /** DELETE_TRANSACTION keeps exactly the transactions with another id, and
      deleting twice is deleting once. */
  lemma DeleteRemovesExactly(s: AppState, id: Option<Json>)
    ensures var r := Reduce(s, DeleteTx(id));
            && (forall t :: t in r.transactions <==> t in s.transactions && Field(t, "id") != id)
            && Reduce(r, DeleteTx(id)) == r
  {
    var r := Reduce(s, DeleteTx(id));
    WithoutIdKeeps(s.transactions, id);
    WithoutIdAbsent(r.transactions, id);
  }

  /** Deleting the id of a freshly added transaction, when no earlier
      transaction shares it, gives back the state before the add. */
  lemma DeleteUndoesAdd(s: AppState, tx: Json, id: Json)
    requires Field(tx, "id") == Some(id)
    requires forall t :: t in s.transactions ==> Field(t, "id") != Some(id)
    ensures Reduce(Reduce(s, AddTx(tx)), DeleteTx(Some(id))) == s
  {
    WithoutIdAppend(s.transactions, [tx], Some(id));
    WithoutIdAbsent(s.transactions, Some(id));
  }

  /** SET_BUDGET sets the category's property and leaves every other
      property as it was. */
  lemma SetBudgetOnly(s: AppState, category: Option<Json>, amount: Option<Json>)
    ensures var r := Reduce(s, SetBudget(category, amount));
            && PropertyKey(category) in r.budgets && r.budgets[PropertyKey(category)] == amount
            && (forall k :: k != PropertyKey(category) ==> (k in r.budgets <==> k in s.budgets))
            && (forall k :: k != PropertyKey(category) && k in s.budgets ==> r.budgets[k] == s.budgets[k])
  {
  }

  /** TOGGLE_THEME is an involution. */
  lemma ToggleTwice(s: AppState)
    ensures Reduce(Reduce(s, ToggleTheme), ToggleTheme) == s
    ensures Reduce(s, ToggleTheme).darkMode != s.darkMode
  {
  }

  /** An unknown action type leaves the state as it is. */
  lemma UnknownIsIdentity(s: AppState, tag: string)
    ensures Reduce(s, Unknown(tag)) == s
  {
  }

  // ------------------------------------------------------- loadBudgets

  /** `budgets.forEach(b => { budgetObj[b.category] = b.amount })` starting
      from `{}`. */
  function BudgetObject(records: seq<Json>): map<string, Option<Json>>
  {
    if records == [] then map[]
    else
      var b := records[|records| - 1];
      BudgetObject(records[..|records| - 1])[PropertyKey(Field(b, "category")) := Field(b, "amount")]
  }

  /** The budgets object has a property for exactly the categories of the
      records. */
  lemma {:induction false} BudgetObjectKeys(records: seq<Json>)
    ensures forall k :: k in BudgetObject(records) <==>
              exists i :: 0 <= i < |records| && PropertyKey(Field(records[i], "category")) == k
  {
    if records != [] {
      var init := records[..|records| - 1];
      BudgetObjectKeys(init);
      forall k ensures k in BudgetObject(records) <==>
                       exists i :: 0 <= i < |records| && PropertyKey(Field(records[i], "category")) == k
      {
        if k in BudgetObject(init) {
          var i :| 0 <= i < |init| && PropertyKey(Field(init[i], "category")) == k;
          assert records[i] == init[i];
        }
        if exists i :: 0 <= i < |records| && PropertyKey(Field(records[i], "category")) == k {
          var i :| 0 <= i < |records| && PropertyKey(Field(records[i], "category")) == k;
          if i < |init| {
            assert init[i] == records[i];
          }
        }
      }
    }
  }

  /** The last record of a category wins: its amount is the category's
      budget. */
  lemma {:induction false} BudgetObjectLastWins(records: seq<Json>, i: int)
    requires 0 <= i < |records|
    requires forall j :: i < j < |records| ==>
               PropertyKey(Field(records[j], "category")) != PropertyKey(Field(records[i], "category"))
    ensures PropertyKey(Field(records[i], "category")) in BudgetObject(records)
    ensures BudgetObject(records)[PropertyKey(Field(records[i], "category"))] == Field(records[i], "amount")
  {
    var init := records[..|records| - 1];
    if i < |records| - 1 {
      assert forall j :: i < j < |init| ==> init[j] == records[j];
      BudgetObjectLastWins(init, i);
      assert init[i] == records[i];
    }
  }

  /** The actions `setBudget` would dispatch for the same records. */
  function SetBudgetActions(records: seq<Json>): (actions: seq<Action>)
    ensures |actions| == |records|
    ensures forall i :: 0 <= i < |records| ==>
              actions[i] == SetBudget(Field(records[i], "category"), Field(records[i], "amount"))
  {
    seq(|records|, i requires 0 <= i < |records| => SetBudget(Field(records[i], "category"), Field(records[i], "amount")))
  }

  /** Loading the budgets builds the same object as replaying one SET_BUDGET
      per record on empty budgets. */
  lemma {:induction false} BudgetObjectIsReplay(s: AppState, records: seq<Json>)
    ensures ReduceAll(s.(budgets := map[]), SetBudgetActions(records)).budgets == BudgetObject(records)
  {
    if records != [] {
      var init := records[..|records| - 1];
      assert SetBudgetActions(records)[..|records| - 1] == SetBudgetActions(init);
      BudgetObjectIsReplay(s, init);
    }
  }

  // --------------------------------------------------- loadTransactions

  /** `{...p, id: t.id}`: an undefined id is an undefined property. */
  function WithId(fields: map<string, Json>, id: Option<Json>): map<string, Json>
  {
    if id.Some? then fields["id" := id.value] else fields - {"id"}
  }

  /** What the `transactions.map(...)` of `loadTransactions` makes of one
      stored record while encryption is on and the manager unlocked: a
      record marked encrypted with data and iv goes through `decryptData`,
      whose result is spread with the record's id; if that throws, the record
      is kept with `decryptionError: true`; any other record passes through. */
  function LoadRow(key: Key, t: Json): Json
  {
    if Truthy(Field(t, "encrypted")) && Truthy(Field(t, "data")) && Truthy(Field(t, "iv")) then
      match AesGcmDecrypt(key, Security.IvBytes(Field(t, "iv")), Field(t, "data"))
      case Some(p) => JObj(WithId(Spread(p), Field(t, "id")))
      case None => JObj(Spread(t)["decryptionError" := JBool(true)])
    else t
  }

  function LoadRows(key: Key, ts: seq<Json>): (r: seq<Json>)
    ensures |r| == |ts|
  {
    if ts == [] then [] else LoadRows(key, ts[..|ts| - 1]) + [LoadRow(key, ts[|ts| - 1])]
  }

  /** `transactions.filter(tx => !tx.decryptionError)`. */
  function DropFailed(xs: seq<Json>): (r: seq<Json>)
    ensures |r| <= |xs|
  {
    if xs == [] then []
    else (if !Truthy(Field(xs[0], "decryptionError")) then [xs[0]] else []) + DropFailed(xs[1..])
  }

  /** The filter keeps exactly the entries without a truthy
      `decryptionError`. */
  lemma {:induction false} DropFailedKeeps(xs: seq<Json>)
    ensures forall x :: x in DropFailed(xs) <==> x in xs && !Truthy(Field(x, "decryptionError"))
  {
    if xs != [] {
      DropFailedKeeps(xs[1..]);
      assert forall x :: x in xs <==> x == xs[0] || x in xs[1..];
    }
  }

  /** The map step loads each record in place. */
  lemma {:induction false} LoadRowsAt(key: Key, ts: seq<Json>)
    ensures forall i :: 0 <= i < |ts| ==> LoadRows(key, ts)[i] == LoadRow(key, ts[i])
  {
    if ts != [] {
      LoadRowsAt(key, ts[..|ts| - 1]);
    }
  }

  /** The loaded list: a record whose decryption fails never appears, a
      plain record without a truthy `decryptionError` appears as stored, and
      every loaded entry comes from a stored record. */
  lemma LoadedFacts(key: Key, ts: seq<Json>)
    ensures var loaded := DropFailed(LoadRows(key, ts));
            && (forall t :: t in ts && !Truthy(Field(t, "encrypted")) && !Truthy(Field(t, "decryptionError")) ==> t in loaded)
            && (forall x :: x in loaded ==> exists t :: t in ts && LoadRow(key, t) == x)
            && (forall t :: t in ts && Truthy(Field(t, "encrypted")) && Truthy(Field(t, "data")) && Truthy(Field(t, "iv"))
                  && AesGcmDecrypt(key, Security.IvBytes(Field(t, "iv")), Field(t, "data")).None?
                  ==> LoadRow(key, t) !in loaded)
  {
    var rows := LoadRows(key, ts);
    LoadRowsAt(key, ts);
    DropFailedKeeps(rows);
    forall t | t in ts && !Truthy(Field(t, "encrypted")) && !Truthy(Field(t, "decryptionError"))
      ensures t in DropFailed(rows)
    {
      var i :| 0 <= i < |ts| && ts[i] == t;
      assert rows[i] == t;
    }
    forall x | x in DropFailed(rows) ensures exists t :: t in ts && LoadRow(key, t) == x {
      var i :| 0 <= i < |rows| && rows[i] == x;
      assert ts[i] in ts;
    }
  }

  // -------------------------------------------------------- addTransaction

  /** `{...transaction, id: transaction.id || Date.now(), timestamp:
      transaction.timestamp || new Date().toISOString()}`. */
  function Prepared(tx: Json, now: int, nowIso: string): (d: Json)
    ensures d.JObj? && Field(d, "id").Some?
    ensures Field(d, "timestamp").Some?
    ensures Truthy(Field(tx, "id")) ==> Field(d, "id") == Field(tx, "id")
    ensures Truthy(Field(tx, "timestamp")) ==> Field(d, "timestamp") == Field(tx, "timestamp")
    ensures forall f :: f != "id" && f != "timestamp" ==> Field(d, f) == Field(tx, f)
  {
    var id := if Truthy(Field(tx, "id")) then Field(tx, "id").value else JNum(now as real);
    var ts := if Truthy(Field(tx, "timestamp")) then Field(tx, "timestamp").value else JStr(nowIso);
    JObj(Spread(tx)["id" := id]["timestamp" := ts])
  }

  /** The record `addTransaction` stores in place of the transaction when
      encryption is on: `{encrypted: true, data, timestamp, iv}`. */
  function Wrapper(env: Security.Envelope, timestamp: Json): (w: Json)
    ensures w.JObj? && w.fields.Keys == {"encrypted", "data", "timestamp", "iv"}
  {
    JObj(map["encrypted" := JBool(true), "data" := env.data, "timestamp" := timestamp, "iv" := JBytes(env.iv)])
  }

  /** What `addTransaction` hands to `add`: the prepared transaction, or,
      when sealed, the wrapper whose only copy of the transaction is inside
      the ciphertext. */
  function StoredRecord(data: Json, sealWith: Option<Key>, iv: seq<bv8>, now: int): (r: Json)
    requires Field(data, "timestamp").Some?
    ensures sealWith.None? ==> r == data
    ensures sealWith.Some? ==>
              && r.JObj? && r.fields.Keys == {"encrypted", "data", "timestamp", "iv"}
              && Field(r, "data") == Some(JSealed(sealWith.value, iv, Security.Payload(data, None, now)))
              && Field(r, "timestamp") == Field(data, "timestamp")
              && Field(r, "id").None?
  {
    match sealWith
    case None => data
    case Some(key) => Wrapper(Security.Seal(key, iv, data, None, now), Field(data, "timestamp").value)
  }

  /** Without an `id` the wrapper takes the store's generated key, so its
      `add` cannot meet an existing key. */
  lemma WrapperTakesGeneratedKey(data: Json, key: Key, iv: seq<bv8>, now: int)
    requires Field(data, "timestamp").Some?
    ensures ChooseKey(Transactions, StoredRecord(data, Some(key), iv, now)) == Generated
  {
  }

  /** The database's decrypting reader gives back, for the stored wrapper,
      exactly the prepared transaction carrying its storage key as `id`. */
  lemma WrapperReadBack(data: Json, key: Key, iv: seq<bv8>, now: int, k: DbKey)
    requires Field(data, "timestamp").Some? && |iv| == Security.IvLength
    ensures var stored := Inject(Transactions, StoredRecord(data, Some(key), iv, now), k);
            ReadRow(key, Row(k, stored)) == Some(JObj(Spread(data)["id" := KeyToJson(k)]))
  {
    var w := StoredRecord(data, Some(key), iv, now);
    var stored := Inject(Transactions, w, k);
    Security.RoundTrip(key, iv, data, None, now);
    assert Field(stored, "data") == Field(w, "data");
    assert Field(stored, "iv") == Some(JBytes(iv));
    assert Attempted(Row(k, stored));
    var env := Security.Seal(key, iv, data, None, now);
    var query := JObj(map["data" := Field(stored, "data").value, "iv" := Field(stored, "iv").value]);
    assert Field(query, "iv") == Field(env.ToJson(), "iv") && Field(query, "data") == Field(env.ToJson(), "data");
    assert Security.Open(key, query) == Security.Open(key, env.ToJson());
  }

  /** As written, `loadTransactions` spreads the whole decrypted payload
      `{data, timestamp, checksum}` instead of the transaction: the loaded
      entry has no field of the transaction at top level, only the nested
      `data`, so it differs from what the database reader returns. */
  lemma LoadRowReturnsPayload(data: Json, key: Key, iv: seq<bv8>, now: int, k: DbKey)
    requires Field(data, "timestamp").Some? && |iv| == Security.IvLength
    ensures var stored := Inject(Transactions, StoredRecord(data, Some(key), iv, now), k);
            var loaded := LoadRow(key, stored);
            && loaded == JObj(map["data" := data, "timestamp" := JNum(now as real), "checksum" := Checksum(data), "id" := KeyToJson(k)])
            && Field(loaded, "data") == Some(data)
            && Field(loaded, "checksum") == Some(Checksum(data))
            && Some(loaded) != ReadRow(key, Row(k, stored))
  {
    var stored := Inject(Transactions, StoredRecord(data, Some(key), iv, now), k);
    WrapperReadBack(data, key, iv, now, k);
    assert Field(stored, "iv") == Some(JBytes(iv));
    var loaded := LoadRow(key, stored);
    var expected := JObj(Spread(data)["id" := KeyToJson(k)]);
    if loaded == expected {
      assert Field(loaded, "checksum") == Field(expected, "checksum");
      assert Field(expected, "checksum") == Field(data, "checksum");
      assert Field(data, "checksum") == Some(Checksum(data));
      ChecksumIsNotItsInput(data);
      assert false;
    }
  }

  /** A value never contains its own checksum as a field. */
  lemma ChecksumIsNotItsInput(data: Json)
    ensures Field(data, "checksum") != Some(Checksum(data))
  {
  }

  /** The evidently intended load step: open the record through `decrypt`
      (the same path as the database reader) and spread the transaction it
      carries. */
  function IntendedLoadRow(key: Key, t: Json): Option<Json>
  {
    if Truthy(Field(t, "encrypted")) && Truthy(Field(t, "data")) && Truthy(Field(t, "iv")) then
      match Security.Open(key, JObj(map["data" := Field(t, "data").value, "iv" := Field(t, "iv").value]))
      case Ok(d) => Some(JObj(WithId(Spread(d.data), Field(t, "id"))))
      case Err(_) => None
    else if Truthy(Field(t, "decryptionError")) then None
    else Some(t)
  }

  /** With the intended step, a transaction added under encryption loads
      back as the prepared transaction carrying its storage key. */
  lemma IntendedLoadRowRoundTrip(data: Json, key: Key, iv: seq<bv8>, now: int, k: DbKey)
    requires Field(data, "timestamp").Some? && |iv| == Security.IvLength
    ensures var stored := Inject(Transactions, StoredRecord(data, Some(key), iv, now), k);
            IntendedLoadRow(key, stored) == Some(JObj(Spread(data)["id" := KeyToJson(k)]))
  {
    var stored := Inject(Transactions, StoredRecord(data, Some(key), iv, now), k);
    WrapperReadBack(data, key, iv, now, k);
    assert Field(stored, "id") == Some(KeyToJson(k));
  }

  // ------------------------------------------------------------ the provider

  datatype AppError =
    | DbNotReady          // 'Database not initialized. Please wait or refresh the page.'
    | EncryptionFailed    // 'Encryption failed'
    | Storage(error: DbError)

  datatype AppResult<T> = Success(value: T) | Failure(error: AppError)

  /** The provider: the reducer state and the two manager singletons. */
  class Provider {
    var state: AppState
    const db: DatabaseManager

    ghost predicate Valid()
      reads this, db, db.security
    {
      db.Valid()
    }

    constructor(db: DatabaseManager, savedDarkMode: bool)
      requires db.Valid()
      ensures Valid() && this.db == db && state == InitialState(savedDarkMode)
    {
      this.db := db;
      state := InitialState(savedDarkMode);
    }

    /** `addTransaction` encrypts: the state says encryption is on and the
        security manager is initialized. */
    predicate SealsTransactions()
      reads this, db, db.security
    {
      Truthy(Some(state.encryptionEnabled)) && db.security.IsInitialized()
    }

    /** `dispatch(action)`. */
    method Dispatch(a: Action)
      modifies this`state
      ensures state == Reduce(old(state), a)
    {
      state := Reduce(state, a);
    }

    /** `addTransaction(transaction)`: prepare the record, seal it when the
        state says encryption is on and the manager is initialized, add it,
        then dispatch ADD_TRANSACTION with the transaction and the new id. */
    method AddTransaction(tx: Json, now: int, nowIso: string, iv: seq<bv8>) returns (r: AppResult<DbKey>)
      requires Valid() && |iv| == Security.IvLength
      modifies this`state, db`stores, db.security
      ensures Valid()
      ensures !Truthy(Some(old(state).dbInitialized)) ==>
                r == Failure(DbNotReady) && state == old(state) && db.stores == old(db.stores) && unchanged(db.security)
      ensures Truthy(Some(old(state).dbInitialized)) ==>
                var sealWith := if Truthy(Some(old(state).encryptionEnabled)) && old(db.security.IsInitialized())
                                then old(db.security.encryptionKey) else None;
                var record := StoredRecord(Prepared(tx, now, nowIso), sealWith, iv, now);
                if !db.isInitialized then
                  r == Failure(Storage(NotInitialized)) && state == old(state) && db.stores == old(db.stores)
                else
                  match Stores.Write(Transactions, old(db.stores)[Transactions], record, false)
                  case Done((st, k)) =>
                    && r == Success(k) && db.stores == old(db.stores)[Transactions := st]
                    && state == Reduce(old(state), AddTx(JObj(Spread(tx)["id" := KeyToJson(k)])))
                  case Failed(e) =>
                    r == Failure(Storage(e)) && state == old(state) && db.stores == old(db.stores)
      ensures old(Truthy(Some(state.dbInitialized)) && SealsTransactions()) ==>
                && db.security.ActiveAt(now)
                && db.security.integrityCache == old(db.security.integrityCache)[
                     Checksum(Security.Seal(old(db.security.encryptionKey).value, iv, Prepared(tx, now, nowIso), None, now).ToJson()) := now]
      ensures !old(Truthy(Some(state.dbInitialized)) && SealsTransactions()) ==> unchanged(db.security)
      ensures db.security.encryptionKey == old(db.security.encryptionKey) && db.security.isLocked == old(db.security.isLocked)
      ensures db.security.salt == old(db.security.salt) && db.security.autoLockMinutes == old(db.security.autoLockMinutes)
      ensures db.security.storedSalt == old(db.security.storedSalt)
      ensures db.security.storedAutoLockMinutes == old(db.security.storedAutoLockMinutes)
    {
      if !Truthy(Some(state.dbInitialized)) {
        return Failure(DbNotReady);
      }
      var data := Prepared(tx, now, nowIso);
      ghost var sealWith: Option<Key> := None;
      if Truthy(Some(state.encryptionEnabled)) && db.security.IsInitialized() {
        sealWith := db.security.encryptionKey;
        var result := db.security.Encrypt(data, None, now, iv);
        match result
        case Ok(env) =>
          data := Wrapper(env, Field(data, "timestamp").value);
        case Err(_) =>
          // An initialized manager is unlocked and holds a key, so `encrypt`
          // cannot report failure here.
          assert false;
      }
      var id := db.Add(Transactions, data);
      if id.Failed? {
        return Failure(Storage(id.error));
      }
      Dispatch(AddTx(JObj(Spread(tx)["id" := KeyToJson(id.value)])));
      r := Success(id.value);
    }

    /** `loadBudgets()`: every budget record, folded into an object from
        category to amount, replaces the budgets. */
    method LoadBudgets() returns (r: AppResult<()>)
      requires Valid()
      modifies this`state
      ensures Valid()
      ensures !Truthy(Some(old(state).dbInitialized)) ==> r == Failure(DbNotReady) && state == old(state)
      ensures Truthy(Some(old(state).dbInitialized)) && !db.isInitialized ==>
                r == Failure(Storage(NotInitialized)) && state == old(state)
      ensures Truthy(Some(old(state).dbInitialized)) && db.isInitialized ==>
                r == Success(()) && state == old(state).(budgets := BudgetObject(RowValues(db.stores[Budgets].rows)))
    {
      if !Truthy(Some(state.dbInitialized)) {
        return Failure(DbNotReady);
      }
      var all := db.GetAll(Budgets);
      if all.Failed? {
        return Failure(Storage(all.error));
      }
      assert all.value == RowValues(db.stores[Budgets].rows);
      var budgetObj := FoldBudgets(all.value);
      Dispatch(SetBudgets(budgetObj));
      r := Success(());
    }

    /** The `forEach` of `loadBudgets`, starting from `{}`. */
    static method FoldBudgets(budgets: seq<Json>) returns (budgetObj: map<string, Option<Json>>)
      ensures budgetObj == BudgetObject(budgets)
    {
      budgetObj := map[];
      for i := 0 to |budgets|
        invariant budgetObj == BudgetObject(budgets[..i])
      {
        assert budgets[..i + 1][..i] == budgets[..i];
        budgetObj := budgetObj[PropertyKey(Field(budgets[i], "category")) := Field(budgets[i], "amount")];
      }
      assert budgets[..|budgets|] == budgets;
    }

    /** `loadTransactions()`: read every transaction; while the state says
        encryption is on and the manager is initialized, map each record
        through `LoadRow` (each attempted decryption counts as activity) and
        drop the ones marked `decryptionError`; dispatch the result. */
    method LoadTransactions(now: int) returns (r: AppResult<()>)
      requires Valid()
      modifies this`state, db.security
      ensures Valid()
      ensures !db.isInitialized ==> r == Failure(Storage(NotInitialized)) && state == old(state) && unchanged(db.security)
      ensures db.isInitialized && !(Truthy(Some(old(state).encryptionEnabled)) && old(db.security.IsInitialized())) ==>
                && r == Success(()) && unchanged(db.security)
                && state == old(state).(transactions := RowValues(db.stores[Transactions].rows))
      ensures db.isInitialized && Truthy(Some(old(state).encryptionEnabled)) && old(db.security.IsInitialized()) ==>
                && r == Success(())
                && state == old(state).(transactions :=
                     DropFailed(LoadRows(old(db.security.encryptionKey).value, RowValues(db.stores[Transactions].rows))))
                && (SomeCiphertext(RowValues(db.stores[Transactions].rows)) ==> db.security.ActiveAt(now))
                && (!SomeCiphertext(RowValues(db.stores[Transactions].rows)) ==> unchanged(db.security))
      ensures db.security.encryptionKey == old(db.security.encryptionKey) && db.security.isLocked == old(db.security.isLocked)
      ensures db.security.salt == old(db.security.salt) && db.security.integrityCache == old(db.security.integrityCache)
      ensures db.security.autoLockMinutes == old(db.security.autoLockMinutes)
      ensures db.security.storedSalt == old(db.security.storedSalt)
      ensures db.security.storedAutoLockMinutes == old(db.security.storedAutoLockMinutes)
    {
      var all := db.GetAll(Transactions);
      if all.Failed? {
        return Failure(Storage(all.error));
      }
      var transactions := all.value;
      assert transactions == RowValues(db.stores[Transactions].rows);
      if Truthy(Some(state.encryptionEnabled)) && db.security.IsInitialized() {
        transactions := DecryptAll(db.security.encryptionKey.value, transactions, now);
        transactions := DropFailed(transactions);
      }
      Dispatch(SetTransactions(transactions));
      r := Success(());
    }

    /** The `transactions.map(async t => ...)` of `loadTransactions`. */
    method DecryptAll(key: Key, ts: seq<Json>, now: int) returns (mapped: seq<Json>)
      requires Valid() && db.security.encryptionKey == Some(key)
      modifies db.security
      ensures Valid()
      ensures mapped == LoadRows(key, ts)
      ensures SomeCiphertext(ts) ==> db.security.ActiveAt(now)
      ensures !SomeCiphertext(ts) ==> unchanged(db.security)
      ensures db.security.encryptionKey == old(db.security.encryptionKey) && db.security.isLocked == old(db.security.isLocked)
      ensures db.security.salt == old(db.security.salt) && db.security.integrityCache == old(db.security.integrityCache)
      ensures db.security.autoLockMinutes == old(db.security.autoLockMinutes)
      ensures db.security.storedSalt == old(db.security.storedSalt)
      ensures db.security.storedAutoLockMinutes == old(db.security.storedAutoLockMinutes)
    {
      mapped := [];
      ghost var touched := false;
      for i := 0 to |ts|
        invariant Valid()
        invariant db.security.encryptionKey == Some(key) && !db.security.isLocked
        invariant db.security.salt == old(db.security.salt) && db.security.integrityCache == old(db.security.integrityCache)
        invariant db.security.autoLockMinutes == old(db.security.autoLockMinutes)
        invariant db.security.storedSalt == old(db.security.storedSalt)
        invariant db.security.storedAutoLockMinutes == old(db.security.storedAutoLockMinutes)
        invariant touched <==> exists j :: 0 <= j < i && HasCiphertext(ts[j])
        invariant touched ==> db.security.ActiveAt(now)
        invariant !touched ==> unchanged(db.security)
        invariant mapped == LoadRows(key, ts[..i])
      {
        assert ts[..i + 1][..i] == ts[..i];
        var t := ts[i];
        var x := t;
        if Truthy(Field(t, "encrypted")) && Truthy(Field(t, "data")) && Truthy(Field(t, "iv")) {
          touched := true;
          var d := db.security.DecryptData(Field(t, "data"), Field(t, "iv"), now);
          match d
          case Ok(p) =>
            x := JObj(WithId(Spread(p), Field(t, "id")));
          case Err(_) =>
            x := JObj(Spread(t)["decryptionError" := JBool(true)]);
        }
        mapped := mapped + [x];
      }
      assert ts[..|ts|] == ts;
      assert touched <==> SomeCiphertext(ts);
    }
  }
}
