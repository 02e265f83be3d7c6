/** What the store promises: fresh AUTOINCREMENT ids that survive a clear,
    the NOT NULL failures, the write/read round trip, the order and bound of
    the two queries, and the effect of the schema migration. */
module TableProperties {

  import opened Nullable
  import opened CellRecord
  import opened Table
  import opened RowCodec

  // ---------------------------------------------------------------------------
  // Insert

  /** Once the migrated columns exist, the ContentValues name exactly the
      table's columns other than `_id`. */
  lemma ContentValuesKeys(t: Table, c: CellData)
    requires HasInsertColumns(t.columns)
    ensures ContentValues(c).Keys == ColumnSet(t.columns) - {ColId}
  {
    forall col | col in ContentValues(c).Keys
      ensures col in ColumnSet(t.columns) - {ColId}
    {
      assert col in t.columns;
    }
  }

  lemma InsertedRowFits(t: Table, c: CellData)
    requires !InsertRejected(t, c)
    ensures RowFits(Row(t.sequence + 1, ContentValues(c)), t.columns)
  {
    var cells := ContentValues(c);
    ContentValuesKeys(t, c);
    forall col | col in cells
      ensures Fits(col, cells[col])
    {
      EncodeFits(c, col);
    }
    forall col | col in cells && NotNull(col)
      ensures !cells[col].Null?
    {
    }
  }

  /** Appending a fitting row with the next id keeps the table valid. */
  lemma AppendRowValid(t: Table, row: Row)
    requires TableValid(t) && t.version > 0
    requires RowFits(row, t.columns) && row.id == t.sequence + 1 <= MaxRowId
    ensures TableValid(Append(t, row))
  {
    var u := Append(t, row);
    forall i | 0 <= i < |u.rows|
      ensures RowFits(u.rows[i], u.columns) && 0 < u.rows[i].id <= u.sequence
    {
      if i < |t.rows| { assert u.rows[i] == t.rows[i]; }
    }
    forall i, j | 0 <= i < j < |u.rows|
      ensures u.rows[i].id < u.rows[j].id
    {
      assert u.rows[i] == t.rows[i];
      if j < |t.rows| { assert u.rows[j] == t.rows[j]; }
    }
  }

  /** A table that holds the inserted columns has been created. */
  lemma InsertableIsCreated(t: Table)
    requires TableValid(t) && HasInsertColumns(t.columns)
    ensures t.version > 0
  {
    assert ColTimestamp in t.columns;
  }

  /** Inserting keeps every guarantee of the table. */
  lemma InsertPreservesValid(t: Table, c: CellData)
    requires TableValid(t)
    ensures TableValid(Insert(t, c).table)
  {
    if InsertRejected(t, c) {
      assert Insert(t, c).table == t;
    } else {
      var row := Row(t.sequence + 1, ContentValues(c));
      assert Insert(t, c).table == Append(t, row);
      InsertedRowFits(t, c);
      InsertableIsCreated(t);
      AppendRowValid(t, row);
    }
  }

  /** A successful insert returns a positive id above every id in the table
      and above every id issued before; a failed one returns -1 and changes
      nothing. */
  lemma InsertIssuesFreshId(t: Table, c: CellData)
    requires TableValid(t)
    ensures var o := Insert(t, c);
      && (o.id > 0 <==> !InsertRejected(t, c))
      && (o.id > 0 ==> o.id > t.sequence && o.table.sequence == o.id)
      && (o.id > 0 ==> forall i :: 0 <= i < |t.rows| ==> t.rows[i].id < o.id)
      && (o.id > 0 ==> o.table.rows == t.rows + [Row(o.id, ContentValues(c))])
      && (o.id <= 0 ==> o.id == -1 && o.table == t)
  {
    var o := Insert(t, c);
    if InsertRejected(t, c) {
      assert o == Inserted(t, -1);
    } else {
      assert o.id == t.sequence + 1;
    }
  }

  /** A null timestamp, technology or cell id violates NOT NULL: -1 and no
      change. */
  lemma NullRequiredFieldRejected(t: Table, c: CellData)
    requires c.timestamp.None? || c.technology.None? || c.cellId.None?
    ensures Insert(t, c) == Inserted(t, -1)
  {
  }

  /** No uniqueness constraint: the same record inserted twice gives two rows
      with the same content and different ids. */
  lemma SameContentTwice(t: Table, c: CellData)
    requires TableValid(t) && !InsertRejected(t, c) && t.sequence + 1 < MaxRowId
    ensures var o1 := Insert(t, c); var o2 := Insert(o1.table, c);
      && o1.id > 0 && o2.id > 0 && o1.id != o2.id
      && |o2.table.rows| == |t.rows| + 2
      && o2.table.rows[|t.rows|].cells == o2.table.rows[|t.rows| + 1].cells
  {
  }

  // ---------------------------------------------------------------------------
  // Ids are never reused, not even after clearAllData

  datatype StoreOp = InsertOp(record: CellData) | ClearOp

  function Apply(t: Table, op: StoreOp): Inserted
  {
    match op
    case InsertOp(c) => Insert(t, c)
    case ClearOp => Inserted(Clear(t), -1)
  }

  function Run(t: Table, ops: seq<StoreOp>): Table
    decreases |ops|
  {
    if ops == [] then t else Apply(Run(t, ops[..|ops| - 1]), ops[|ops| - 1]).table
  }

  /** The ids handed out by the successful inserts of `ops`, in order. */
  function Issued(t: Table, ops: seq<StoreOp>): seq<int>
    decreases |ops|
  {
    if ops == [] then []
    else
      var o := Apply(Run(t, ops[..|ops| - 1]), ops[|ops| - 1]);
      Issued(t, ops[..|ops| - 1]) + (if o.id > 0 then [o.id] else [])
  }

  lemma {:induction false} IssuedBelowSequence(t: Table, ops: seq<StoreOp>)
    requires TableValid(t)
    ensures TableValid(Run(t, ops))
    ensures t.sequence <= Run(t, ops).sequence
    ensures forall k :: 0 <= k < |Issued(t, ops)| ==> t.sequence < Issued(t, ops)[k] <= Run(t, ops).sequence
    decreases |ops|
  {
    if ops != [] {
      var prefix := ops[..|ops| - 1];
      IssuedBelowSequence(t, prefix);
      var before := Run(t, prefix);
      match ops[|ops| - 1]
      case InsertOp(c) =>
        InsertPreservesValid(before, c);
      case ClearOp =>
    }
  }

  /** After any history of inserts and clears, a successful insert returns an
      id above every id issued before and above every id the table held at
      the start. */
  lemma IdsNeverReused(t: Table, ops: seq<StoreOp>, c: CellData)
    requires TableValid(t)
    ensures var o := Insert(Run(t, ops), c);
      o.id > 0 ==>
        && (forall k :: 0 <= k < |Issued(t, ops)| ==> Issued(t, ops)[k] < o.id)
        && (forall i :: 0 <= i < |t.rows| ==> t.rows[i].id < o.id)
  {
    IssuedBelowSequence(t, ops);
  }

  /** `clearAllData` empties the table but keeps the id sequence. */
  lemma ClearKeepsSequence(t: Table, c: CellData)
    requires TableValid(t)
    ensures TableValid(Clear(t)) && |Clear(t).rows| == 0
    ensures var o := Insert(Clear(t), c);
      o.id > 0 ==> o.id > t.sequence && forall i :: 0 <= i < |t.rows| ==> t.rows[i].id < o.id
  {
  }

  // ---------------------------------------------------------------------------
  // ORDER BY timestamp DESC

  /** No row of `s` is later than `v`. */
  predicate NoLaterThan(v: int, s: seq<Row>)
  {
    forall k :: 0 <= k < |s| ==> Time(s[k]) <= v
  }

  lemma NoLaterThanPermutation(v: int, a: seq<Row>, b: seq<Row>)
    requires NoLaterThan(v, a) && multiset(a) == multiset(b)
    ensures NoLaterThan(v, b)
  {
    forall k | 0 <= k < |b| ensures Time(b[k]) <= v {
      assert b[k] in multiset(a);
      var j :| 0 <= j < |a| && a[j] == b[k];
    }
  }

  lemma PrependDescending(x: Row, s: seq<Row>)
    requires TimeDescending(s) && NoLaterThan(Time(x), s)
    ensures TimeDescending([x] + s)
  {
    var r := [x] + s;
    forall i, j | 0 <= i < j < |r| ensures Time(r[i]) >= Time(r[j]) {
      assert r[j] == s[j - 1];
      if i > 0 { assert r[i] == s[i - 1]; }
    }
  }

  lemma DescendingTail(s: seq<Row>)
    requires TimeDescending(s) && s != []
    ensures TimeDescending(s[1..])
  {
    var tail := s[1..];
    forall i, j | 0 <= i < j < |tail| ensures Time(tail[i]) >= Time(tail[j]) {
      assert tail[i] == s[i + 1] && tail[j] == s[j + 1];
    }
  }

  /** The head of a descending list bounds its tail and any row older than
      the head. */
  lemma HeadBoundsRest(s: seq<Row>, x: Row)
    requires TimeDescending(s) && s != [] && Time(x) < Time(s[0])
    ensures NoLaterThan(Time(s[0]), s[1..] + [x])
  {
    var r := s[1..] + [x];
    forall k | 0 <= k < |r| ensures Time(r[k]) <= Time(s[0]) {
      if k < |s| - 1 { assert r[k] == s[k + 1]; }
    }
  }

  lemma {:induction false} InsertByTimeSorted(x: Row, s: seq<Row>)
    requires TimeDescending(s)
    ensures TimeDescending(InsertByTime(x, s))
    ensures multiset(InsertByTime(x, s)) == multiset(s) + multiset{x}
    ensures |InsertByTime(x, s)| == |s| + 1
    decreases |s|
  {
    if s == [] {
    } else if Time(x) >= Time(s[0]) {
      assert NoLaterThan(Time(x), s);
      PrependDescending(x, s);
    } else {
      var tail := s[1..];
      DescendingTail(s);
      InsertByTimeSorted(x, tail);
      var rest := InsertByTime(x, tail);
      HeadBoundsRest(s, x);
      NoLaterThanPermutation(Time(s[0]), tail + [x], rest);
      PrependDescending(s[0], rest);
      assert s == [s[0]] + tail;
    }
  }

  /** The query order is non-increasing in time and a permutation of the rows. */
  lemma {:induction false} SortByTimeDescSorted(s: seq<Row>)
    ensures TimeDescending(SortByTimeDesc(s))
    ensures multiset(SortByTimeDesc(s)) == multiset(s)
    ensures |SortByTimeDesc(s)| == |s|
    decreases |s|
  {
    if s != [] {
      var tail := s[1..];
      SortByTimeDescSorted(tail);
      var sorted := SortByTimeDesc(tail);
      assert SortByTimeDesc(s) == InsertByTime(s[0], sorted);
      InsertByTimeSorted(s[0], sorted);
      SplitHead(s);
    }
  }

  lemma SplitHead(s: seq<Row>)
    requires s != []
    ensures multiset(s) == multiset(s[1..]) + multiset{s[0]}
  {
    assert s == [s[0]] + s[1..];
  }

  // ---------------------------------------------------------------------------
  // The cursor loop

  /** With every column present the loop reads every row, in order; with one
      missing the first read throws and the query returns nothing. */
  lemma {:induction false} ReadCursorComplete(cursor: seq<Row>, cols: seq<Column>)
    ensures HasReadColumns(cols) ==>
      && |ReadCursor(cursor, cols)| == |cursor|
      && forall i :: 0 <= i < |cursor| ==> ReadCursor(cursor, cols)[i] == CursorToCellData(cursor[i], cols).value
    ensures !HasReadColumns(cols) ==> ReadCursor(cursor, cols) == []
    decreases |cursor|
  {
    if cursor != [] {
      ReadCursorComplete(cursor[1..], cols);
      if HasReadColumns(cols) {
        var r := ReadCursor(cursor, cols);
        forall i | 0 <= i < |cursor|
          ensures r[i] == CursorToCellData(cursor[i], cols).value
        {
          if i > 0 { assert cursor[1..][i - 1] == cursor[i]; }
        }
      }
    }
  }

  lemma {:induction false} ReadCursorAppend(u: seq<Row>, v: seq<Row>, cols: seq<Column>)
    requires HasReadColumns(cols)
    ensures ReadCursor(u + v, cols) == ReadCursor(u, cols) + ReadCursor(v, cols)
    decreases |u|
  {
    if u != [] {
      ReadCursorAppend(u[1..], v, cols);
      assert (u + v)[1..] == u[1..] + v;
    } else {
      assert u + v == v;
    }
  }

  /** Taking the first row of `a` out of `a`, and the same row out of a
      permutation `b` of `a`, leaves permutations of each other. */
  lemma RemoveMatched(a: seq<Row>, b: seq<Row>, p: nat)
    requires a != [] && p < |b| && b[p] == a[0] && multiset(a) == multiset(b)
    ensures multiset(a[1..]) == multiset(b[..p] + b[p + 1..])
  {
    var x := a[0];
    assert a == [x] + a[1..];
    assert b == b[..p] + [x] + b[p + 1..];
    assert multiset(a) == multiset{x} + multiset(a[1..]);
    assert multiset(b) == multiset(b[..p]) + multiset{x} + multiset(b[p + 1..]);
    assert multiset(b[..p] + b[p + 1..]) == multiset(b[..p]) + multiset(b[p + 1..]);
    assert multiset(a[1..]) == multiset(a) - multiset{x};
    assert multiset(b[..p] + b[p + 1..]) == multiset(b) - multiset{x};
  }

  /** Reading a cursor is reading it without row `p`, plus the record of
      row `p`. */
  lemma ReadCursorRemove(b: seq<Row>, p: nat, cols: seq<Column>)
    requires HasReadColumns(cols) && p < |b|
    ensures multiset(ReadCursor(b, cols))
      == multiset(ReadCursor(b[..p] + b[p + 1..], cols)) + multiset{Decode(b[p])}
  {
    var rest := b[p + 1..];
    var pre, post := ReadCursor(b[..p], cols), ReadCursor(rest, cols);
    assert b == b[..p] + ([b[p]] + rest);
    ReadCursorAppend(b[..p], [b[p]] + rest, cols);
    ReadCursorCons(b[p], rest, cols);
    ReadCursorAppend(b[..p], rest, cols);
    assert ReadCursor(b, cols) == pre + ([Decode(b[p])] + post);
    assert ReadCursor(b[..p] + rest, cols) == pre + post;
    MultisetMiddle(pre, Decode(b[p]), post);
  }

  lemma MultisetMiddle(pre: seq<CellData>, d: CellData, post: seq<CellData>)
    ensures multiset(pre + ([d] + post)) == multiset(pre + post) + multiset{d}
  {
  }

  lemma ReadCursorCons(x: Row, rest: seq<Row>, cols: seq<Column>)
    requires HasReadColumns(cols)
    ensures ReadCursor([x] + rest, cols) == [Decode(x)] + ReadCursor(rest, cols)
  {
    assert ([x] + rest)[1..] == rest;
  }

  /** Reading a permutation of the rows gives a permutation of the records. */
  lemma {:induction false} ReadCursorPermutation(a: seq<Row>, b: seq<Row>, cols: seq<Column>)
    requires HasReadColumns(cols)
    requires multiset(a) == multiset(b)
    ensures multiset(ReadCursor(a, cols)) == multiset(ReadCursor(b, cols))
    decreases |a|
  {
    if a == [] {
      assert |b| == |multiset(b)| == 0;
    } else {
      var x := a[0];
      assert x in multiset(b);
      var p :| 0 <= p < |b| && b[p] == x;
      RemoveMatched(a, b, p);
      ReadCursorPermutation(a[1..], b[..p] + b[p + 1..], cols);
      ReadCursorRemove(b, p, cols);
      assert ReadCursor(a, cols) == [Decode(x)] + ReadCursor(a[1..], cols);
    }
  }

  // ---------------------------------------------------------------------------
  // The queries

  /** `getAllCellData` returns the records of all rows, each once, newest
      first. */
  lemma AllCellDataSpec(t: Table)
    requires TableValid(t) && HasReadColumns(t.columns)
    ensures var res := AllCellData(t);
      && |res| == |t.rows|
      && (forall i :: 0 <= i < |res| ==> res[i].timestamp.Some?)
      && (forall i, j :: 0 <= i < j < |res| ==> res[i].timestamp.value >= res[j].timestamp.value)
      && multiset(res) == multiset(ReadCursor(t.rows, t.columns))
  {
    var s := SortByTimeDesc(t.rows);
    SortByTimeDescSorted(t.rows);
    ReadCursorComplete(s, t.columns);
    ReadCursorPermutation(s, t.rows, t.columns);
  }

  /** The rows are stored in ascending id order, so reading them in storage
      order yields each record once. */
  lemma StoredRecordsDistinct(t: Table)
    requires TableValid(t) && HasReadColumns(t.columns)
    ensures var recs := ReadCursor(t.rows, t.columns);
      forall i, j :: 0 <= i < j < |recs| ==> recs[i].id < recs[j].id
  {
    ReadCursorComplete(t.rows, t.columns);
  }

  /** A row that the first `k` rows of a descending order leave out is no
      later than any of them. */
  lemma OmittedNotNewer(s: seq<Row>, k: nat, cols: seq<Column>, x: Row, i: nat)
    requires TimeDescending(s) && k <= |s| && i < k
    requires HasReadColumns(cols)
    requires x in s
    requires CursorToCellData(x, cols).value !in ReadCursor(s[..k], cols)
    ensures Time(s[i]) >= Time(x)
  {
    ReadCursorComplete(s[..k], cols);
    var p :| 0 <= p < |s| && s[p] == x;
    if p < k {
      assert false;
    }
  }

  /** The records of the bounded query carry the times of the first rows of
      the descending order. */
  lemma RecentTimes(t: Table, limit: nat)
    requires HasReadColumns(t.columns)
    ensures var s := SortByTimeDesc(t.rows); var res := RecentCellData(t, limit);
      && |s| == |t.rows|
      && |res| == Min(limit, |s|)
      && (forall i :: 0 <= i < |res| ==> res[i].timestamp == Some(Time(s[i])))
  {
    var s := SortByTimeDesc(t.rows);
    SortByTimeDescSorted(t.rows);
    var k := Min(limit, |s|);
    var res := RecentCellData(t, limit);
    ReadCursorComplete(s[..k], t.columns);
    forall i | 0 <= i < |res| ensures res[i].timestamp == Some(Time(s[i])) {
      assert s[..k][i] == s[i];
    }
  }

  /** No row whose record the bounded query leaves out is newer than a
      returned record. */
  lemma RecentOmitsOnlyOlder(t: Table, limit: nat, i: nat, j: nat)
    requires HasReadColumns(t.columns)
    requires i < |RecentCellData(t, limit)| && j < |t.rows|
    requires CursorToCellData(t.rows[j], t.columns).value !in RecentCellData(t, limit)
    ensures RecentCellData(t, limit)[i].timestamp.Some?
      && RecentCellData(t, limit)[i].timestamp.value >= Time(t.rows[j])
  {
    var s := SortByTimeDesc(t.rows);
    SortByTimeDescSorted(t.rows);
    RecentTimes(t, limit);
    assert t.rows[j] in multiset(s);
    OmittedNotNewer(s, Min(limit, |s|), t.columns, t.rows[j], i);
  }

  /** `getRecentCellData(limit)` returns `min(limit, count)` records newest
      first, and none it omits is newer than one it returns. */
  lemma RecentCellDataSpec(t: Table, limit: nat)
    requires HasReadColumns(t.columns)
    ensures var res := RecentCellData(t, limit);
      && |res| == Min(limit, |t.rows|)
      && (forall i :: 0 <= i < |res| ==> res[i].timestamp.Some?)
      && (forall i, j :: 0 <= i < j < |res| ==> res[i].timestamp.value >= res[j].timestamp.value)
      && (forall i, j :: 0 <= i < |res| && 0 <= j < |t.rows|
            && CursorToCellData(t.rows[j], t.columns).value !in res
            ==> res[i].timestamp.value >= Time(t.rows[j]))
      && multiset(res) <= multiset(ReadCursor(t.rows, t.columns))
  {
    var s := SortByTimeDesc(t.rows);
    SortByTimeDescSorted(t.rows);
    RecentTimes(t, limit);
    RecentFromStored(t, limit);
    var res := RecentCellData(t, limit);
    forall i, j | 0 <= i < |res| && 0 <= j < |t.rows|
        && CursorToCellData(t.rows[j], t.columns).value !in res
      ensures res[i].timestamp.value >= Time(t.rows[j])
    {
      RecentOmitsOnlyOlder(t, limit, i, j);
    }
  }

  /** Every record the bounded query returns is the record of a stored row,
      and no record comes back more often than the stored rows hold it. */
  lemma RecentFromStored(t: Table, limit: nat)
    requires HasReadColumns(t.columns)
    ensures multiset(RecentCellData(t, limit)) <= multiset(ReadCursor(t.rows, t.columns))
  {
    var s := SortByTimeDesc(t.rows);
    SortByTimeDescSorted(t.rows);
    ReadCursorPermutation(s, t.rows, t.columns);
    RecentIsPrefixOfAll(t, limit);
    PrefixMultiset(AllCellData(t), Min(limit, |t.rows|));
  }

  lemma PrefixMultiset<T>(a: seq<T>, k: nat)
    requires k <= |a|
    ensures multiset(a[..k]) <= multiset(a)
  {
    assert a == a[..k] + a[k..];
  }

  /** The bounded query is a prefix of the full one. */
  lemma RecentIsPrefixOfAll(t: Table, limit: nat)
    requires HasReadColumns(t.columns)
    ensures |AllCellData(t)| == |t.rows|
    ensures RecentCellData(t, limit) == AllCellData(t)[..Min(limit, |t.rows|)]
  {
    var s := SortByTimeDesc(t.rows);
    SortByTimeDescSorted(t.rows);
    var k := Min(limit, |s|);
    ReadCursorComplete(s, t.columns);
    ReadCursorComplete(s[..k], t.columns);
  }

  /** A record newer than everything stored comes back first, equal to what
      was inserted except for the id the store assigned. */
  lemma NewestInsertReadFirst(t: Table, c: CellData)
    requires HasReadColumns(t.columns)
    requires !InsertRejected(t, c)
    requires forall i :: 0 <= i < |t.rows| ==> Time(t.rows[i]) < c.timestamp.value
    ensures var o := Insert(t, c);
      RecentCellData(o.table, 1) == [c.(id := o.id)]
  {
    var id := t.sequence + 1;
    var row := Row(id, ContentValues(c));
    assert Insert(t, c) == Inserted(Append(t, row), id);
    assert Time(row) == c.timestamp.value;
    NewestSortsFirst(t.rows, row);
    ReadBackRoundTrip(c, id, t.columns);
    FirstReadBack(Append(t, row), row, c.(id := id));
  }

  /** When the query order starts with a row that reads back as `d`, the
      query with LIMIT 1 returns exactly `d`. */
  lemma FirstReadBack(t: Table, row: Row, d: CellData)
    requires |SortByTimeDesc(t.rows)| > 0 && SortByTimeDesc(t.rows)[0] == row
    requires CursorToCellData(row, t.columns) == Some(d)
    ensures RecentCellData(t, 1) == [d]
  {
    var s := SortByTimeDesc(t.rows);
    assert s[..1] == [row];
    assert ReadCursor([row], t.columns) == [d] + ReadCursor([], t.columns);
  }

  /** A row strictly newer than all others is first in the query order. */
  lemma NewestSortsFirst(rows: seq<Row>, row: Row)
    requires forall i :: 0 <= i < |rows| ==> Time(rows[i]) < Time(row)
    ensures |SortByTimeDesc(rows + [row])| == |rows| + 1
    ensures SortByTimeDesc(rows + [row])[0] == row
  {
    var all := rows + [row];
    var s := SortByTimeDesc(all);
    SortByTimeDescSorted(all);
    assert row in multiset(s);
    var p :| 0 <= p < |s| && s[p] == row;
    assert s[0] in multiset(all);
    if s[0] != row {
      assert false;
    }
  }

  // ---------------------------------------------------------------------------
  // Schema

  /** The position of each column in `CREATE_TABLE_CELL_DATA`. */
  function Ordinal(c: Column): nat
  {
    match c
    case ColId => 0 case ColTimestamp => 1 case ColTechnology => 2 case ColCellId => 3
    case ColLac => 4 case ColMcc => 5 case ColMnc => 6 case ColSignalStrength => 7
    case ColIsRegistered => 8 case ColLatitude => 9 case ColLongitude => 10
    case ColAccuracy => 11 case ColPci => 12 case ColPsc => 13 case ColBsic => 14
    case ColEarfcn => 15 case ColUarfcn => 16 case ColArfcn => 17 case ColNrarfcn => 18
    case ColAdditionalInfo => 19
  }

  lemma SchemaOrdinals()
    ensures forall i :: 0 <= i < |CreateColumns| ==> Ordinal(CreateColumns[i]) == i
    ensures forall i :: 0 <= i < |UpgradeColumns| ==> Ordinal(UpgradeColumns[i]) == 12 + i
  {
  }

  lemma SchemaDistinct()
    ensures Distinct(CreateColumns) && Distinct(UpgradeColumns)
  {
    SchemaOrdinals();
  }

  /** A freshly created table: twenty distinct columns, every column the
      cursor reads among them, -1 defaults for the seven auxiliary ones, 0 for
      the registration flag and the location. */
  lemma CreatedSchema()
    ensures |CreateColumns| == 20 && Distinct(CreateColumns)
    ensures forall j :: 0 <= j < |UpgradeColumns| ==> ColumnDefault(UpgradeColumns[j]) == Int(-1)
    ensures ColumnDefault(ColIsRegistered) == Int(0)
    ensures ColumnDefault(ColLatitude) == Real(0.0) && ColumnDefault(ColLongitude) == Real(0.0)
    ensures ColumnDefault(ColAccuracy) == Real(0.0)
    ensures HasReadColumns(CreateColumns)
  {
    SchemaDistinct();
    UpgradeDefaults();
    CreatedColumnsAreRead();
  }

  lemma UpgradeDefaults()
    ensures forall j :: 0 <= j < |UpgradeColumns| ==> ColumnDefault(UpgradeColumns[j]) == Int(-1)
  {
  }

  /** The cursor finds every column it looks up in a freshly created table,
      and insert finds every column of its ContentValues. */
  lemma CreatedColumnsAreRead()
    ensures HasReadColumns(CreateColumns) && HasInsertColumns(CreateColumns)
  {
    forall c: Column ensures c in CreateColumns {
      EveryColumnCreated(c);
    }
  }

  lemma EveryColumnCreated(c: Column)
    ensures c in CreateColumns
  {
  }

  function DefaultCells(cs: set<Column>): map<Column, Value>
  {
    map c | c in cs :: ColumnDefault(c)
  }

  /** SQLite adds neither a second primary key nor a NOT NULL column
      without a default; every column of the migration qualifies. */
  predicate Addable(c: Column)
  {
    c != ColId && !NotNull(c)
  }

  lemma AddColumnDistinct(cols: seq<Column>, c: Column)
    requires Distinct(cols) && c !in cols
    ensures Distinct(cols + [c])
  {
    var u := cols + [c];
    forall i, j | 0 <= i < j < |u| ensures u[i] != u[j] {
      assert u[i] == cols[i];
      if j < |cols| { assert u[j] == cols[j]; }
    }
  }

  /** Every default is a value of its column's declared type. */
  lemma DefaultFits(c: Column)
    ensures Fits(c, ColumnDefault(c))
  {
  }

  lemma AddColumnRowFits(r: Row, cols: seq<Column>, c: Column)
    requires RowFits(r, cols) && c !in cols && Addable(c)
    ensures RowFits(r.(cells := r.cells[c := ColumnDefault(c)]), cols + [c])
  {
    assert ColumnSet(cols + [c]) == ColumnSet(cols) + {c};
    DefaultFits(c);
  }

  lemma AddColumnValid(t: Table, c: Column)
    requires TableValid(t) && t.version > 0 && c !in t.columns && Addable(c)
    ensures TableValid(AddColumn(t, c))
  {
    var u := AddColumn(t, c);
    AddColumnDistinct(t.columns, c);
    forall i | 0 <= i < |u.rows| ensures RowFits(u.rows[i], u.columns) {
      AddColumnRowFits(t.rows[i], t.columns, c);
    }
  }

  lemma DefaultCellsStep(cells: map<Column, Value>, c: Column, rest: set<Column>)
    ensures cells[c := ColumnDefault(c)] + DefaultCells(rest) == cells + DefaultCells({c} + rest)
  {
  }

  /** The ALTER statements in order add a prefix of their columns: each one
      new and not failing, up to the first that fails. */
  lemma {:induction false} AlterAllColumns(t: Table, cols: seq<Column>, failing: set<Column>)
    ensures var u := AlterAll(t, cols, failing); var k := |u.columns| - |t.columns|;
      && 0 <= k <= |cols|
      && u.columns == t.columns + cols[..k]
      && (forall j :: 0 <= j < k ==> cols[j] !in failing && cols[j] !in t.columns + cols[..j])
      && (k < |cols| ==> cols[k] in failing || cols[k] in t.columns + cols[..k])
      && |u.rows| == |t.rows|
      && u.sequence == t.sequence && u.version == t.version
    decreases |cols|
  {
    if cols == [] || AlterFails(t, cols[0], failing) {
      assert cols[..0] == [] && t.columns + cols[..0] == t.columns;
    } else {
      var c := cols[0];
      var t1 := AddColumn(t, c);
      AlterAllColumns(t1, cols[1..], failing);
      var u := AlterAll(t1, cols[1..], failing);
      var k1 := |u.columns| - |t1.columns|;
      var k := k1 + 1;
      PrefixAfterFirst(t.columns, cols, k);
      forall j | 0 <= j < k ensures cols[j] !in failing && cols[j] !in t.columns + cols[..j] {
        if j > 0 {
          assert cols[j] == cols[1..][j - 1];
          PrefixAfterFirst(t.columns, cols, j);
        }
      }
      if k < |cols| {
        assert cols[k] == cols[1..][k1];
      }
    }
  }

  /** The columns after one ALTER plus the next `j - 1` equal the columns
      plus the first `j`. */
  lemma PrefixAfterFirst(columns: seq<Column>, cols: seq<Column>, j: nat)
    requires 0 < j <= |cols|
    ensures (columns + [cols[0]]) + cols[1..][..j - 1] == columns + cols[..j]
  {
    assert cols[..j] == [cols[0]] + cols[1..][..j - 1];
  }

  /** Every existing row reads the defaults of exactly the added columns. */
  lemma {:induction false} AlterAllRows(t: Table, cols: seq<Column>, failing: set<Column>)
    ensures var u := AlterAll(t, cols, failing); var k := |u.columns| - |t.columns|;
      && 0 <= k <= |cols| && |u.rows| == |t.rows|
      && forall i :: 0 <= i < |t.rows| ==>
           u.rows[i] == t.rows[i].(cells := t.rows[i].cells + DefaultCells(ColumnSet(cols[..k])))
    decreases |cols|
  {
    var u := AlterAll(t, cols, failing);
    if cols == [] || AlterFails(t, cols[0], failing) {
      assert u == t && ColumnSet(cols[..0]) == {};
      forall i | 0 <= i < |t.rows|
        ensures u.rows[i] == t.rows[i].(cells := t.rows[i].cells + DefaultCells(ColumnSet(cols[..0])))
      {
        assert t.rows[i].cells + DefaultCells({}) == t.rows[i].cells;
      }
    } else {
      var c := cols[0];
      var t1 := AddColumn(t, c);
      AlterAllRows(t1, cols[1..], failing);
      assert u == AlterAll(t1, cols[1..], failing);
      var k1 := |u.columns| - |t1.columns|;
      var k := k1 + 1;
      ColumnSetStep(cols, k);
      forall i | 0 <= i < |t.rows|
        ensures u.rows[i] == t.rows[i].(cells := t.rows[i].cells + DefaultCells(ColumnSet(cols[..k])))
      {
        assert t1.rows[i] == t.rows[i].(cells := t.rows[i].cells[c := ColumnDefault(c)]);
        DefaultCellsStep(t.rows[i].cells, c, ColumnSet(cols[1..][..k1]));
      }
    }
  }

  /** With distinct ALTER columns, each applied one was missing from the
      table, and the first one not applied failed or names an existing
      column. */
  lemma AlterAllStops(t: Table, cols: seq<Column>, failing: set<Column>)
    requires Distinct(cols)
    ensures var u := AlterAll(t, cols, failing); var k := |u.columns| - |t.columns|;
      && 0 <= k <= |cols|
      && (forall j :: 0 <= j < k ==> cols[j] !in failing && cols[j] !in t.columns)
      && (k < |cols| ==> cols[k] in failing || cols[k] in t.columns)
  {
    AlterAllColumns(t, cols, failing);
    var k := |AlterAll(t, cols, failing).columns| - |t.columns|;
    if k < |cols| {
      forall j | 0 <= j < k ensures cols[..k][j] != cols[k] {
        assert cols[..k][j] == cols[j];
      }
      assert cols[k] !in cols[..k];
    }
    forall j | 0 <= j < k ensures cols[j] !in t.columns {
      assert cols[j] !in t.columns + cols[..j];
    }
  }

  lemma ColumnSetStep(cols: seq<Column>, k: nat)
    requires 0 < k <= |cols|
    ensures ColumnSet(cols[..k]) == {cols[0]} + ColumnSet(cols[1..][..k - 1])
  {
    assert cols[..k] == [cols[0]] + cols[1..][..k - 1];
  }

  /** Adding columns SQLite accepts keeps the table valid. */
  lemma {:induction false} AlterAllValid(t: Table, cols: seq<Column>, failing: set<Column>)
    requires TableValid(t) && t.version > 0
    requires forall j :: 0 <= j < |cols| ==> Addable(cols[j])
    ensures TableValid(AlterAll(t, cols, failing))
    decreases |cols|
  {
    if cols != [] && !AlterFails(t, cols[0], failing) {
      AddColumnValid(t, cols[0]);
      assert forall j :: 0 <= j < |cols[1..]| ==> cols[1..][j] == cols[j + 1];
      AlterAllValid(AddColumn(t, cols[0]), cols[1..], failing);
    }
  }

  /** The ALTER statements run in order until the first one that fails: the
      table gains a prefix of the columns, every existing row reads their
      defaults, and nothing else changes. */
  lemma {:induction false} AlterAllEffect(t: Table, cols: seq<Column>, failing: set<Column>)
    requires TableValid(t) && t.version > 0
    requires forall j :: 0 <= j < |cols| ==> Addable(cols[j])
    ensures var u := AlterAll(t, cols, failing); var k := |u.columns| - |t.columns|;
      && 0 <= k <= |cols|
      && u.columns == t.columns + cols[..k]
      && (forall j :: 0 <= j < k ==> cols[j] !in failing && cols[j] !in t.columns + cols[..j])
      && (k < |cols| ==> cols[k] in failing || cols[k] in t.columns + cols[..k])
      && |u.rows| == |t.rows|
      && (forall i :: 0 <= i < |t.rows| ==>
            u.rows[i] == t.rows[i].(cells := t.rows[i].cells + DefaultCells(ColumnSet(cols[..k]))))
      && u.sequence == t.sequence && u.version == t.version
      && TableValid(u)
  {
    AlterAllColumns(t, cols, failing);
    AlterAllRows(t, cols, failing);
    AlterAllValid(t, cols, failing);
  }

  /** `onUpgrade`: from version 1 the seven auxiliary columns are added in
      order, existing rows read -1 in each and keep everything else; the
      first failing ALTER ends the migration with the columns added so far.
      From version 2 on nothing happens. */
  lemma UpgradeEffect(t: Table, oldVersion: int, failing: set<Column>)
    requires TableValid(t) && t.version > 0
    ensures oldVersion >= 2 ==> UpgradeTable(t, oldVersion, failing) == t
    ensures oldVersion < 2 ==>
      var u := UpgradeTable(t, oldVersion, failing); var k := |u.columns| - |t.columns|;
      && 0 <= k <= |UpgradeColumns|
      && u.columns == t.columns + UpgradeColumns[..k]
      && (forall j :: 0 <= j < k ==> UpgradeColumns[j] !in failing && UpgradeColumns[j] !in t.columns)
      && (k < |UpgradeColumns| ==> UpgradeColumns[k] in failing || UpgradeColumns[k] in t.columns)
      && |u.rows| == |t.rows|
      && (forall i :: 0 <= i < |t.rows| ==>
            && u.rows[i].id == t.rows[i].id
            && u.rows[i].cells.Keys == t.rows[i].cells.Keys + ColumnSet(UpgradeColumns[..k])
            && (forall col :: col in t.rows[i].cells ==> u.rows[i].cells[col] == t.rows[i].cells[col])
            && (forall j :: 0 <= j < k ==> u.rows[i].cells[UpgradeColumns[j]] == Int(-1)))
      && u.sequence == t.sequence
      && TableValid(u)
  {
    if oldVersion < 2 {
      UpgradeSchema(t, failing);
      UpgradeKeepsRows(t, failing);
    }
  }

  /** The migration's ALTERs: the columns a prefix adds and where it stops. */
  lemma UpgradeSchema(t: Table, failing: set<Column>)
    requires TableValid(t) && t.version > 0
    ensures var u := AlterAll(t, UpgradeColumns, failing); var k := |u.columns| - |t.columns|;
      && 0 <= k <= |UpgradeColumns|
      && u.columns == t.columns + UpgradeColumns[..k]
      && (forall j :: 0 <= j < k ==> UpgradeColumns[j] !in failing && UpgradeColumns[j] !in t.columns)
      && (k < |UpgradeColumns| ==> UpgradeColumns[k] in failing || UpgradeColumns[k] in t.columns)
      && |u.rows| == |t.rows|
      && u.sequence == t.sequence
      && TableValid(u)
  {
    SchemaDistinct();
    AlterAllStops(t, UpgradeColumns, failing);
    AlterAllColumns(t, UpgradeColumns, failing);
    UpgradeAddable();
    AlterAllValid(t, UpgradeColumns, failing);
  }

  lemma UpgradeAddable()
    ensures forall j :: 0 <= j < |UpgradeColumns| ==> Addable(UpgradeColumns[j])
  {
  }

  /** Each existing row keeps its id and values and reads -1 in every column
      the migration added. */
  lemma UpgradeKeepsRows(t: Table, failing: set<Column>)
    requires TableValid(t) && t.version > 0
    ensures var u := AlterAll(t, UpgradeColumns, failing); var k := |u.columns| - |t.columns|;
      0 <= k <= |UpgradeColumns| && |u.rows| == |t.rows| &&
      forall i :: 0 <= i < |t.rows| ==>
        && u.rows[i].id == t.rows[i].id
        && u.rows[i].cells.Keys == t.rows[i].cells.Keys + ColumnSet(UpgradeColumns[..k])
        && (forall col :: col in t.rows[i].cells ==> u.rows[i].cells[col] == t.rows[i].cells[col])
        && (forall j :: 0 <= j < k ==> u.rows[i].cells[UpgradeColumns[j]] == Int(-1))
  {
    var u := AlterAll(t, UpgradeColumns, failing);
    UpgradeSchema(t, failing);
    AlterAllRows(t, UpgradeColumns, failing);
    var k := |u.columns| - |t.columns|;
    forall i | 0 <= i < |t.rows|
      ensures && u.rows[i].id == t.rows[i].id
              && u.rows[i].cells.Keys == t.rows[i].cells.Keys + ColumnSet(UpgradeColumns[..k])
              && (forall col :: col in t.rows[i].cells ==> u.rows[i].cells[col] == t.rows[i].cells[col])
              && (forall j :: 0 <= j < k ==> u.rows[i].cells[UpgradeColumns[j]] == Int(-1))
    {
      assert RowFits(t.rows[i], t.columns);
      forall j | 0 <= j < k ensures UpgradeColumns[j] !in t.rows[i].cells {
        assert UpgradeColumns[j] !in ColumnSet(t.columns);
      }
      UpgradedCells(t.rows[i].cells, k);
    }
  }

  /** A row the first `k` ALTERs extend keeps its values and reads -1 in
      each new column. */
  lemma UpgradedCells(cells: map<Column, Value>, k: nat)
    requires k <= |UpgradeColumns|
    requires forall j :: 0 <= j < k ==> UpgradeColumns[j] !in cells
    ensures var m := cells + DefaultCells(ColumnSet(UpgradeColumns[..k]));
      && m.Keys == cells.Keys + ColumnSet(UpgradeColumns[..k])
      && (forall col :: col in cells ==> m[col] == cells[col])
      && (forall j :: 0 <= j < k ==> m[UpgradeColumns[j]] == Int(-1))
  {
    var added := UpgradeColumns[..k];
    forall j | 0 <= j < |added| ensures added[j] !in cells {
      assert added[j] == UpgradeColumns[j];
    }
    DefaultsExtendRow(cells, added);
    UpgradeDefaults();
    forall j | 0 <= j < k
      ensures (cells + DefaultCells(ColumnSet(added)))[UpgradeColumns[j]] == Int(-1)
    {
      assert added[j] == UpgradeColumns[j];
    }
  }

  lemma DefaultsExtendRow(cells: map<Column, Value>, added: seq<Column>)
    requires forall j :: 0 <= j < |added| ==> added[j] !in cells
    ensures var m := cells + DefaultCells(ColumnSet(added));
      && m.Keys == cells.Keys + ColumnSet(added)
      && (forall col :: col in cells ==> m[col] == cells[col])
      && (forall j :: 0 <= j < |added| ==> m[added[j]] == ColumnDefault(added[j]))
  {
  }

  /** With no ALTER failing, the upgrade completes the schema. */
  lemma UpgradeCompletes(t: Table, oldVersion: int, failing: set<Column>)
    requires TableValid(t) && t.version > 0 && oldVersion < 2
    requires forall j :: 0 <= j < |UpgradeColumns| ==> UpgradeColumns[j] !in failing && UpgradeColumns[j] !in t.columns
    ensures UpgradeTable(t, oldVersion, failing).columns == t.columns + UpgradeColumns
  {
    UpgradeEffect(t, oldVersion, failing);
    var k := |UpgradeTable(t, oldVersion, failing).columns| - |t.columns|;
    assert UpgradeColumns[..|UpgradeColumns|] == UpgradeColumns;
  }

  /** Opening leaves a valid table at the current version, keeps the rows and
      the id sequence of an existing file, and opening again changes nothing. */
  lemma OpenSpec(t: Table, failing: set<Column>, again: set<Column>)
    requires TableValid(t)
    ensures var u := Open(t, failing);
      && TableValid(u) && u.version == DatabaseVersion
      && (t.version == 0 ==> u.columns == CreateColumns && u.rows == [])
      && (t.version > 0 ==>
            && |u.rows| == |t.rows| && u.sequence == t.sequence
            && (forall i :: 0 <= i < |t.rows| ==> u.rows[i].id == t.rows[i].id))
      && Open(u, again) == u
  {
    if t.version == 0 {
      CreatedSchema();
    } else if t.version < DatabaseVersion {
      UpgradeEffect(t, t.version, failing);
    }
  }

  /** After a migration that stopped early, every insert fails and both
      queries return nothing. */
  lemma PartialSchemaUnusable(t: Table, c: CellData, limit: nat)
    requires exists j :: 0 <= j < |UpgradeColumns| && UpgradeColumns[j] !in t.columns
    ensures Insert(t, c).id == -1
    ensures AllCellData(t) == [] && RecentCellData(t, limit) == []
  {
    var j :| 0 <= j < |UpgradeColumns| && UpgradeColumns[j] !in t.columns;
    assert UpgradeColumns[j] !in ColumnSet(t.columns);
    ReadCursorComplete(SortByTimeDesc(t.rows), t.columns);
    var s := SortByTimeDesc(t.rows);
    ReadCursorComplete(s[..Min(limit, |s|)], t.columns);
  }
}
