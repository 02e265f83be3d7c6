/** The `cell_data` table of `DatabaseHelper`, as SQLite keeps it: a column
    list, rows keyed by an AUTOINCREMENT id, the `sqlite_sequence` entry that
    remembers the largest id ever issued, and the schema version. Every
    operation of the store is a function on this value; the class in module
    Database runs them step by step. */
module Table {

  import opened Nullable
  import opened Strings
  import opened CellRecord

  /** `DATABASE_VERSION` */
  const DatabaseVersion: int := 2

  /** The largest rowid SQLite issues. Once it has been issued, an
      AUTOINCREMENT table refuses further inserts (SQLITE_FULL). */
  const MaxRowId: int := 0x7fff_ffff_ffff_ffff

  datatype Column =
    | ColId | ColTimestamp | ColTechnology | ColCellId | ColLac | ColMcc | ColMnc
    | ColSignalStrength | ColIsRegistered | ColLatitude | ColLongitude | ColAccuracy
    | ColPci | ColPsc | ColBsic | ColEarfcn | ColUarfcn | ColArfcn | ColNrarfcn
    | ColAdditionalInfo

  /** The columns of `CREATE_TABLE_CELL_DATA`, in declaration order. */
  const CreateColumns: seq<Column> :=
    [ColId, ColTimestamp, ColTechnology, ColCellId, ColLac, ColMcc, ColMnc,
     ColSignalStrength, ColIsRegistered, ColLatitude, ColLongitude, ColAccuracy,
     ColPci, ColPsc, ColBsic, ColEarfcn, ColUarfcn, ColArfcn, ColNrarfcn,
     ColAdditionalInfo]

  /** The columns `onUpgrade` adds, in the order of its ALTER statements. */
  const UpgradeColumns: seq<Column> :=
    [ColPci, ColPsc, ColBsic, ColEarfcn, ColUarfcn, ColArfcn, ColNrarfcn]

  /** The NOT NULL constraints of the schema. */
  predicate NotNull(c: Column)
  {
    c == ColTimestamp || c == ColTechnology || c == ColCellId
  }

  /** The declared type of each column. */
  datatype Affinity = IntegerType | RealType | TextType

  function Declared(c: Column): Affinity
  {
    match c
    case ColTechnology => TextType
    case ColCellId => TextType
    case ColLac => TextType
    case ColMcc => TextType
    case ColMnc => TextType
    case ColAdditionalInfo => TextType
    case ColLatitude => RealType
    case ColLongitude => RealType
    case ColAccuracy => RealType
    case _ => IntegerType
  }

  /** A stored SQLite value. */
  datatype Value = Null | Int(i: int) | Real(r: real) | Text(s: string)

  /** The DEFAULT clause of each column; columns without one default to NULL. */
  function ColumnDefault(c: Column): Value
  {
    match c
    case ColIsRegistered => Int(0)
    case ColLatitude => Real(0.0)
    case ColLongitude => Real(0.0)
    case ColAccuracy => Real(0.0)
    case ColPci => Int(-1)
    case ColPsc => Int(-1)
    case ColBsic => Int(-1)
    case ColEarfcn => Int(-1)
    case ColUarfcn => Int(-1)
    case ColArfcn => Int(-1)
    case ColNrarfcn => Int(-1)
    case _ => Null
  }

  function ColumnSet(cols: seq<Column>): set<Column>
  {
    set c | c in cols
  }

  predicate Distinct(cols: seq<Column>)
  {
    forall i, j :: 0 <= i < j < |cols| ==> cols[i] != cols[j]
  }

  /** One row: its `_id` and the values of its other columns. */
  datatype Row = Row(id: int, cells: map<Column, Value>)

  /** The table and its bookkeeping: `sequence` is the `sqlite_sequence`
      entry (the largest id ever issued), `version` the user version of the
      file (0 for a file no table has been created in yet). */
  datatype Table = Table(rows: seq<Row>, sequence: int, version: int, columns: seq<Column>)

  /** A value of the storage class its column's type declares, or NULL. */
  predicate Fits(c: Column, v: Value)
  {
    || v.Null?
    || (v.Int? && Declared(c) == IntegerType)
    || (v.Real? && Declared(c) == RealType)
    || (v.Text? && Declared(c) == TextType)
  }

  predicate RowFits(r: Row, cols: seq<Column>)
  {
    && r.cells.Keys == ColumnSet(cols) - {ColId}
    && (forall c :: c in r.cells ==> Fits(c, r.cells[c]))
    && (forall c :: c in r.cells && NotNull(c) ==> !r.cells[c].Null?)
  }

  predicate IdsAscending(rows: seq<Row>)
  {
    forall i, j :: 0 <= i < j < |rows| ==> rows[i].id < rows[j].id
  }

  /** What SQLite guarantees of the table at every point. */
  predicate TableValid(t: Table)
  {
    && 0 <= t.version <= DatabaseVersion
    && Distinct(t.columns)
    && (t.version == 0 ==> t.columns == [] && t.rows == [] && t.sequence == 0)
    && 0 <= t.sequence <= MaxRowId
    && (forall i :: 0 <= i < |t.rows| ==> RowFits(t.rows[i], t.columns))
    && (forall i :: 0 <= i < |t.rows| ==> 0 < t.rows[i].id <= t.sequence)
    && IdsAscending(t.rows)
  }

  // ---------------------------------------------------------------------------
  // insertCellData

  function TextOrNull(s: Option<string>): Value
  {
    if s.Some? then Text(s.value) else Null
  }

  /** The value `insertCellData` puts for column `col`: booleans as 1/0. */
  function Encode(c: CellData, col: Column): Value
  {
    match col
    case ColId => Null
    case ColTimestamp => if c.timestamp.Some? then Int(c.timestamp.value) else Null
    case ColTechnology => TextOrNull(c.technology)
    case ColCellId => TextOrNull(c.cellId)
    case ColLac => TextOrNull(c.lac)
    case ColMcc => TextOrNull(c.mcc)
    case ColMnc => TextOrNull(c.mnc)
    case ColSignalStrength => Int(c.signalStrength)
    case ColIsRegistered => Int(if c.isRegistered then 1 else 0)
    case ColLatitude => Real(c.latitude)
    case ColLongitude => Real(c.longitude)
    case ColAccuracy => Real(c.accuracy)
    case ColPci => Int(c.pci)
    case ColPsc => Int(c.psc)
    case ColBsic => Int(c.bsic)
    case ColEarfcn => Int(c.earfcn)
    case ColUarfcn => Int(c.uarfcn)
    case ColArfcn => Int(c.arfcn)
    case ColNrarfcn => Int(c.nrarfcn)
    case ColAdditionalInfo => TextOrNull(c.additionalInfo)
  }

  /** The ContentValues `insertCellData` builds: a value for every column
      but `_id`. */
  function ContentValues(c: CellData): map<Column, Value>
  {
    map col: Column | col != ColId :: Encode(c, col)
  }

  /** The table has every column the ContentValues name: all but `_id`. */
  predicate HasInsertColumns(cols: seq<Column>)
  {
    forall c: Column :: c != ColId ==> c in cols
  }

  /** The table has every column `cursorToCellData` looks up: all twenty. */
  predicate HasReadColumns(cols: seq<Column>)
  {
    forall c: Column :: c in cols
  }

  /** When `SQLiteDatabase.insert` returns -1: a ContentValues column the
      table lacks, a NULL in a NOT NULL column, or an exhausted id sequence. */
  predicate InsertRejected(t: Table, c: CellData)
  {
    || !HasInsertColumns(t.columns)
    || c.timestamp.None? || c.technology.None? || c.cellId.None?
    || t.sequence >= MaxRowId
  }

  datatype Inserted = Inserted(table: Table, id: int)

  /** The table after a row is added under a newly issued id. */
  function Append(t: Table, row: Row): Table
  {
    t.(rows := t.rows + [row], sequence := row.id)
  }

  function Insert(t: Table, c: CellData): Inserted
  {
    if InsertRejected(t, c) then Inserted(t, -1)
    else
      var id := t.sequence + 1;
      Inserted(Append(t, Row(id, ContentValues(c))), id)
  }

  // ---------------------------------------------------------------------------
  // cursorToCellData

  function Cell(r: Row, c: Column): Value
  {
    if c in r.cells then r.cells[c] else Null
  }

  /** `Cursor.getLong` and `getInt`: NULL reads as 0. Rows only ever hold
      integers in integer columns (RowFits), so other storage classes do not
      arise. */
  function GetLong(v: Value): int
  {
    if v.Int? then v.i else 0
  }

  /** `Cursor.getDouble` and `getFloat` on a REAL column. */
  function GetReal(v: Value): real
  {
    if v.Real? then v.r else 0.0
  }

  /** `Cursor.getString` on a TEXT column: NULL reads as null. */
  function GetString(v: Value): Option<string>
  {
    if v.Text? then Some(v.s) else None
  }

  function Time(r: Row): int
  {
    GetLong(Cell(r, ColTimestamp))
  }

  /** The getters of `cursorToCellData`, once every column has been found. */
  function Decode(r: Row): (d: CellData)
    ensures d.id == r.id && d.timestamp == Some(Time(r))
  {
    CellData(
      id := r.id,
      timestamp := Some(GetLong(Cell(r, ColTimestamp))),
      technology := GetString(Cell(r, ColTechnology)),
      cellId := GetString(Cell(r, ColCellId)),
      lac := GetString(Cell(r, ColLac)),
      mcc := GetString(Cell(r, ColMcc)),
      mnc := GetString(Cell(r, ColMnc)),
      signalStrength := GetLong(Cell(r, ColSignalStrength)),
      isRegistered := GetLong(Cell(r, ColIsRegistered)) == 1,
      latitude := GetReal(Cell(r, ColLatitude)),
      longitude := GetReal(Cell(r, ColLongitude)),
      accuracy := GetReal(Cell(r, ColAccuracy)),
      pci := GetLong(Cell(r, ColPci)),
      psc := GetLong(Cell(r, ColPsc)),
      bsic := GetLong(Cell(r, ColBsic)),
      earfcn := GetLong(Cell(r, ColEarfcn)),
      uarfcn := GetLong(Cell(r, ColUarfcn)),
      arfcn := GetLong(Cell(r, ColArfcn)),
      nrarfcn := GetLong(Cell(r, ColNrarfcn)),
      additionalInfo := GetString(Cell(r, ColAdditionalInfo)))
  }

  /** `cursorToCellData`: `getColumnIndexOrThrow` throws when a column is
      missing, which is `None` here. */
  function CursorToCellData(r: Row, cols: seq<Column>): (d: Option<CellData>)
    ensures d.Some? <==> HasReadColumns(cols)
    ensures d.Some? ==> d.value.id == r.id && d.value.timestamp == Some(Time(r))
  {
    if !HasReadColumns(cols) then None else Some(Decode(r))
  }

  // ---------------------------------------------------------------------------
  // ORDER BY timestamp DESC

  predicate TimeDescending(rs: seq<Row>)
  {
    forall i, j :: 0 <= i < j < |rs| ==> Time(rs[i]) >= Time(rs[j])
  }

  function InsertByTime(x: Row, s: seq<Row>): seq<Row>
    decreases |s|
  {
    if s == [] then [x]
    else if Time(x) >= Time(s[0]) then [x] + s
    else [s[0]] + InsertByTime(x, s[1..])
  }

  /** The result order of `ORDER BY timestamp DESC`. SQLite leaves the order
      of equal timestamps open; this insertion sort is one admissible order,
      in which the row stored earlier comes first among equal times. */
  function SortByTimeDesc(s: seq<Row>): seq<Row>
  {
    if s == [] then [] else InsertByTime(s[0], SortByTimeDesc(s[1..]))
  }

  // ---------------------------------------------------------------------------
  // Queries

  /** The `do { ... } while (cursor.moveToNext())` loop inside its `try`: rows
      are read in cursor order and the first exception ends the query,
      keeping what was read. */
  function ReadCursor(cursor: seq<Row>, cols: seq<Column>): seq<CellData>
  {
    if cursor == [] then []
    else match CursorToCellData(cursor[0], cols)
      case None => []
      case Some(d) => [d] + ReadCursor(cursor[1..], cols)
  }

  function Min(a: int, b: int): int
  {
    if a <= b then a else b
  }

  /** `getAllCellData` */
  function AllCellData(t: Table): seq<CellData>
  {
    ReadCursor(SortByTimeDesc(t.rows), t.columns)
  }

  /** `getRecentCellData(limit)` */
  function RecentCellData(t: Table, limit: nat): seq<CellData>
  {
    var s := SortByTimeDesc(t.rows);
    ReadCursor(s[..Min(limit, |s|)], t.columns)
  }

  /** `clearAllData`: DELETE keeps the `sqlite_sequence` entry. */
  function Clear(t: Table): Table
  {
    t.(rows := [])
  }

  // ---------------------------------------------------------------------------
  // Schema: onCreate, onUpgrade and the version check of SQLiteOpenHelper

  /** `onCreate`: the table with all twenty columns, empty. */
  function CreateTable(t: Table): Table
  {
    Table([], 0, t.version, CreateColumns)
  }

  /** `ALTER TABLE cell_data ADD COLUMN c ... DEFAULT d`: existing rows read
      the default. */
  function AddColumn(t: Table, c: Column): Table
  {
    t.(columns := t.columns + [c],
       rows := seq(|t.rows|, i requires 0 <= i < |t.rows| =>
                 t.rows[i].(cells := t.rows[i].cells[c := ColumnDefault(c)])))
  }

  /** An ALTER fails when the column exists already ("duplicate column
      name") or for a reason outside the model (`failing`). */
  predicate AlterFails(t: Table, c: Column, failing: set<Column>)
  {
    c in t.columns || c in failing
  }

  /** The ALTER statements in order; the first failure skips the rest. */
  function AlterAll(t: Table, cols: seq<Column>, failing: set<Column>): Table
    decreases |cols|
  {
    if cols == [] then t
    else if AlterFails(t, cols[0], failing) then t
    else AlterAll(AddColumn(t, cols[0]), cols[1..], failing)
  }

  /** `onUpgrade(db, oldVersion, newVersion)`: the caught exception leaves the
      columns added so far in place. */
  function UpgradeTable(t: Table, oldVersion: int, failing: set<Column>): Table
  {
    if oldVersion < 2 then AlterAll(t, UpgradeColumns, failing) else t
  }

  /** What `getWritableDatabase` does on first use: create or upgrade, then
      record the current version. */
  function Open(t: Table, failing: set<Column>): Table
  {
    if t.version == 0 then CreateTable(t).(version := DatabaseVersion)
    else if t.version < DatabaseVersion then UpgradeTable(t, t.version, failing).(version := DatabaseVersion)
    else t
  }
}
