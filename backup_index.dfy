/** The `timestamp` index of the backups store, and the retention rule
    `cleanupOldBackups` applies through it.

    `getBackups` reads the index from the lower bound `new Date(0)`. In
    IndexedDB key order numbers sort below dates and strings above them, so
    the range holds exactly the backups whose timestamp is a string (the ISO
    text `createBackup` writes), ordered by timestamp and, for equal
    timestamps, by primary key. */
module BackupIndex {
  import opened Values
  import opened Stores

  /** `backupLimit`: how many backups retention keeps. */
  const BackupLimit: nat := 3

  predicate Indexed(r: Row)
  {
    var t := Field(r.value, "timestamp");
    t.Some? && t.value.JStr?
  }

  function Ts(r: Row): string
  {
    if Indexed(r) then Field(r.value, "timestamp").value.s else ""
  }

  /** Index order: by timestamp, then by primary key. */
  predicate IndexLt(a: Row, b: Row)
  {
    StrLt(Ts(a), Ts(b)) || (Ts(a) == Ts(b) && KeyLt(a.key, b.key))
  }

  ghost predicate IndexOrdered(s: seq<Row>)
  {
    forall i, j :: 0 <= i < j < |s| ==> IndexLt(s[i], s[j])
  }

  /** The rows inside the index range, in primary-key order. */
  function Listed(rows: seq<Row>): (s: seq<Row>)
    ensures forall r :: r in s <==> r in rows && Indexed(r)
  {
    if rows == [] then []
    else
      assert rows == [rows[0]] + rows[1..];
      (if Indexed(rows[0]) then [rows[0]] else []) + Listed(rows[1..])
  }

  /** Stable insertion by timestamp: `r` goes before the first row that is
      not older than it. */
  function InsertByTs(r: Row, s: seq<Row>): seq<Row>
  {
    if s == [] then [r]
    else if !StrLt(Ts(s[0]), Ts(r)) then [r] + s
    else [s[0]] + InsertByTs(r, s[1..])
  }

  function SortByTs(s: seq<Row>): seq<Row>
  {
    if s == [] then [] else InsertByTs(s[0], SortByTs(s[1..]))
  }

  /** `getBackups()`: the indexed backups in index order. The later
      `sort((a, b) => new Date(a.timestamp) - new Date(b.timestamp))` in
      `cleanupOldBackups` is stable and, on ISO timestamps, agrees with
      this order, so it leaves the sequence as it is. */
  function ByTimestamp(rows: seq<Row>): seq<Row>
  {
    SortByTs(Listed(rows))
  }

  /** `getLastBackup()`: the newest backup, if any. */
  function LastBackup(rows: seq<Row>): Option<Row>
  {
    var listed := ByTimestamp(rows);
    if |listed| > 0 then Some(listed[|listed| - 1]) else None
  }

  /** The backups `cleanupOldBackups` deletes: all but the newest `BackupLimit`. */
  function Doomed(rows: seq<Row>): seq<Row>
  {
    var listed := ByTimestamp(rows);
    if |listed| > BackupLimit then listed[..|listed| - BackupLimit] else []
  }

  function KeysOf(s: seq<Row>): (ks: seq<DbKey>)
    ensures |ks| == |s|
    ensures forall i :: 0 <= i < |s| ==> ks[i] == s[i].key
  {
    seq(|s|, i requires 0 <= i < |s| => s[i].key)
  }

  /** The rows left after deleting the given keys one after another. */
  function RemoveKeys(rows: seq<Row>, ks: seq<DbKey>): seq<Row>
  {
    if ks == [] then rows else Remove(RemoveKeys(rows, ks[..|ks| - 1]), ks[|ks| - 1])
  }

  // ------------------------------------------------------------- proofs

  lemma IndexLtTransitive(a: Row, b: Row, c: Row)
    requires IndexLt(a, b) && IndexLt(b, c)
    ensures IndexLt(a, c)
  {
    if StrLt(Ts(a), Ts(b)) && StrLt(Ts(b), Ts(c)) {
      StrLtTransitive(Ts(a), Ts(b), Ts(c));
    } else if Ts(a) == Ts(b) && Ts(b) == Ts(c) {
      KeyLtTransitive(a.key, b.key, c.key);
    }
  }

  lemma IndexOrderedCons(r: Row, s: seq<Row>)
    requires IndexOrdered(s)
    requires forall x :: x in s ==> IndexLt(r, x)
    ensures IndexOrdered([r] + s)
  {
    var t := [r] + s;
    forall i, j | 0 <= i < j < |t| ensures IndexLt(t[i], t[j]) {
      assert t[j] == s[j - 1];
      if i > 0 { assert t[i] == s[i - 1]; } else { assert t[j] in s; }
    }
  }

  lemma {:induction false} ListedSorted(rows: seq<Row>)
    requires Sorted(rows)
    ensures Sorted(Listed(rows))
  {
    if rows != [] {
      SortedTail(rows);
      ListedSorted(rows[1..]);
      if Indexed(rows[0]) {
        SortedCons(rows[0], Listed(rows[1..]));
      }
    }
  }

  /** Insertion keeps index order when `r` has the smallest primary key. */
  lemma InsertByTsCorrect(r: Row, s: seq<Row>)
    requires IndexOrdered(s)
    requires forall x :: x in s ==> KeyLt(r.key, x.key)
    ensures IndexOrdered(InsertByTs(r, s))
    ensures multiset(InsertByTs(r, s)) == multiset(s) + multiset{r}
  {
    InsertByTsOrdered(r, s);
    InsertByTsPerm(r, s);
  }

  /** Insertion adds `r` and loses no row. */
  lemma {:induction false} InsertByTsPerm(r: Row, s: seq<Row>)
    ensures multiset(InsertByTs(r, s)) == multiset(s) + multiset{r}
  {
    if s != [] && StrLt(Ts(s[0]), Ts(r)) {
      InsertByTsPerm(r, s[1..]);
      assert s == [s[0]] + s[1..];
    }
  }

  lemma IndexOrderedTail(s: seq<Row>)
    requires s != [] && IndexOrdered(s)
    ensures IndexOrdered(s[1..])
  {
    var tail := s[1..];
    forall i, j | 0 <= i < j < |tail| ensures IndexLt(tail[i], tail[j]) {
      assert tail[i] == s[i + 1] && tail[j] == s[j + 1];
    }
  }

  /** A row no newer than the front, with the smallest key, goes first. */
  lemma InsertFront(r: Row, s: seq<Row>)
    requires s != [] && IndexOrdered(s) && !StrLt(Ts(s[0]), Ts(r))
    requires forall x :: x in s ==> KeyLt(r.key, x.key)
    ensures IndexOrdered([r] + s)
  {
    StrLtTotal(Ts(s[0]), Ts(r));
    assert s[0] in s;
    assert IndexLt(r, s[0]);
    forall x | x in s ensures IndexLt(r, x) {
      if x != s[0] {
        var j :| 0 <= j < |s| && s[j] == x;
        IndexLtTransitive(r, s[0], x);
      }
    }
    IndexOrderedCons(r, s);
  }

  lemma {:induction false} InsertByTsOrdered(r: Row, s: seq<Row>)
    requires IndexOrdered(s)
    requires forall x :: x in s ==> KeyLt(r.key, x.key)
    ensures IndexOrdered(InsertByTs(r, s))
  {
    if s == [] {
    } else if !StrLt(Ts(s[0]), Ts(r)) {
      InsertFront(r, s);
    } else {
      var tail := s[1..];
      IndexOrderedTail(s);
      assert forall x :: x in tail ==> x in s;
      InsertByTsOrdered(r, tail);
      InsertByTsPerm(r, tail);
      forall x | x in InsertByTs(r, tail) ensures IndexLt(s[0], x) {
        assert x in multiset(InsertByTs(r, tail));
        if x != r {
          var j :| 0 <= j < |tail| && tail[j] == x;
          assert s[j + 1] == x;
        }
      }
      IndexOrderedCons(s[0], InsertByTs(r, tail));
    }
  }

  /** Sorting key-ordered rows by timestamp yields index order and loses
      or invents no row. */
  lemma {:induction false} SortByTsCorrect(s: seq<Row>)
    requires Sorted(s)
    ensures IndexOrdered(SortByTs(s))
    ensures multiset(SortByTs(s)) == multiset(s)
  {
    if s != [] {
      SortedTail(s);
      SortByTsCorrect(s[1..]);
      forall x | x in SortByTs(s[1..]) ensures KeyLt(s[0].key, x.key) {
        assert x in multiset(SortByTs(s[1..]));
      }
      InsertByTsCorrect(s[0], SortByTs(s[1..]));
      assert s == [s[0]] + s[1..];
    }
  }

  /** `getBackups` lists every indexed backup once, in index order. */
  lemma ByTimestampCorrect(rows: seq<Row>)
    requires Sorted(rows)
    ensures IndexOrdered(ByTimestamp(rows))
    ensures multiset(ByTimestamp(rows)) == multiset(Listed(rows))
    ensures forall r :: r in ByTimestamp(rows) <==> r in rows && Indexed(r)
  {
    ListedSorted(rows);
    SortByTsCorrect(Listed(rows));
    forall r ensures r in ByTimestamp(rows) <==> r in Listed(rows) {
      assert r in ByTimestamp(rows) <==> r in multiset(ByTimestamp(rows));
    }
  }

  lemma {:induction false} RemoveKeysCorrect(rows: seq<Row>, ks: seq<DbKey>)
    requires Sorted(rows)
    ensures Sorted(RemoveKeys(rows, ks))
    ensures forall r :: r in RemoveKeys(rows, ks) <==> r in rows && r.key !in ks
  {
    if ks != [] {
      var init := ks[..|ks| - 1];
      var last := ks[|ks| - 1];
      var before := RemoveKeys(rows, init);
      RemoveKeysCorrect(rows, init);
      RemoveCorrect(before, last);
      assert ks == init + [last];
      forall r ensures r in RemoveKeys(rows, ks) <==> r in rows && r.key !in ks {
        assert r.key in ks <==> r.key in init || r.key == last;
      }
    }
  }

  /** Retention: with at most `BackupLimit` indexed backups nothing is
      deleted; otherwise exactly the oldest ones beyond the limit are, every
      deleted backup precedes every kept one in index order, and rows outside
      the index are never touched. */
  lemma CleanupKeepsNewest(rows: seq<Row>)
    requires Sorted(rows)
    ensures var listed := ByTimestamp(rows);
            var doomed := Doomed(rows);
            var kept := RemoveKeys(rows, KeysOf(doomed));
            && (|listed| <= BackupLimit ==> kept == rows)
            && (|listed| > BackupLimit ==> |doomed| == |listed| - BackupLimit)
            && Sorted(kept)
            && (forall r :: r in kept <==> r in rows && r !in doomed)
            && (forall d, k :: d in doomed && k in listed && k !in doomed ==> IndexLt(d, k))
  {
    var doomed := Doomed(rows);
    DoomedPrefix(rows);
    RemoveKeysCorrect(rows, KeysOf(doomed));
    DoomedKeys(rows);
    DoomedBeforeKept(rows);
  }

  /** The doomed backups are the front of the listing. */
  lemma DoomedPrefix(rows: seq<Row>)
    ensures var listed := ByTimestamp(rows);
            var doomed := Doomed(rows);
            && (|listed| <= BackupLimit ==> doomed == [])
            && (|listed| > BackupLimit ==> |doomed| == |listed| - BackupLimit)
            && |doomed| <= |listed|
            && (forall i :: 0 <= i < |doomed| ==> doomed[i] == listed[i])
  {
  }

  /** A stored row's key is among the doomed keys exactly when the row is
      doomed, since keys are unique. */
  lemma DoomedKeys(rows: seq<Row>)
    requires Sorted(rows)
    ensures forall r :: r in rows ==> (r.key in KeysOf(Doomed(rows)) <==> r in Doomed(rows))
  {
    var listed := ByTimestamp(rows);
    var doomed := Doomed(rows);
    DoomedPrefix(rows);
    ByTimestampCorrect(rows);
    forall r | r in rows ensures r.key in KeysOf(doomed) <==> r in doomed {
      if r.key in KeysOf(doomed) {
        var i :| 0 <= i < |doomed| && doomed[i].key == r.key;
        assert doomed[i] in listed;
        SortedUniqueKeys(rows, r, doomed[i]);
      }
    }
  }

  /** Every doomed backup precedes every kept one in index order. */
  lemma DoomedBeforeKept(rows: seq<Row>)
    requires Sorted(rows)
    ensures forall d, k :: d in Doomed(rows) && k in ByTimestamp(rows) && k !in Doomed(rows) ==> IndexLt(d, k)
  {
    var listed := ByTimestamp(rows);
    var doomed := Doomed(rows);
    DoomedPrefix(rows);
    ListedSorted(rows);
    SortByTsCorrect(Listed(rows));
    assert forall m :: 0 <= m < |doomed| ==> listed[m] in doomed;
    forall d, k | d in doomed && k in listed && k !in doomed ensures IndexLt(d, k) {
      var i :| 0 <= i < |doomed| && doomed[i] == d;
      var j :| 0 <= j < |listed| && listed[j] == k;
      assert listed[i] == d && |doomed| <= j;
    }
  }

  /** The backups retention deletes are stored rows, listed by
      `getBackups` in front of the newest `BackupLimit`, each carrying its
      key as `id`. */
  lemma DoomedIds(rows: seq<Row>)
    requires RowsValid(Backups, rows)
    ensures |ByTimestamp(rows)| > BackupLimit ==> |Doomed(rows)| == |ByTimestamp(rows)| - BackupLimit
    ensures forall i :: 0 <= i < |Doomed(rows)| ==>
              && Doomed(rows)[i] == ByTimestamp(rows)[i]
              && Field(Doomed(rows)[i].value, "id") == Some(KeyToJson(Doomed(rows)[i].key))
  {
    var listed := ByTimestamp(rows);
    var doomed := Doomed(rows);
    ByTimestampCorrect(rows);
    assert forall i :: 0 <= i < |doomed| ==> doomed[i] == listed[i];
    forall i | 0 <= i < |doomed|
      ensures Field(doomed[i].value, "id") == Some(KeyToJson(doomed[i].key))
    {
      assert doomed[i] in listed;
      DoomedStored(rows, doomed[i]);
    }
  }

  /** A listed backup is a stored row, so it carries its key as `id`. */
  lemma DoomedStored(rows: seq<Row>, d: Row)
    requires RowsValid(Backups, rows) && d in rows
    ensures Field(d.value, "id") == Some(KeyToJson(d.key))
  {
  }
}
