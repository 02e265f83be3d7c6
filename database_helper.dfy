/** `DatabaseHelper` as an object: the open `cell_data` table held in four
    fields that its methods update in place. Each method is proved against
    the function of module Table that gives its meaning, and keeps the
    table's guarantees (`Valid`). */
module Database {

  import opened Nullable
  import opened CellRecord
  import opened Table
  import opened TableProperties

  class DatabaseHelper {
    /** The rows in id order. */
    var rows: seq<Row>
    /** The `sqlite_sequence` entry of the table. */
    var sequence: int
    /** The user version of the database file. */
    var version: int
    /** The table's columns, in order. */
    var columns: seq<Column>

    function Model(): Table
      reads this
    {
      Table(rows, sequence, version, columns)
    }

    ghost predicate Valid()
      reads this
    {
      TableValid(Model()) && version == DatabaseVersion
    }

    /** `new DatabaseHelper(context)` followed by the first
        `getWritableDatabase()`: the file on disk is created or upgraded to
        `DATABASE_VERSION`. `failing` names the ALTER statements that fail for
        reasons outside the model. */
    constructor (disk: Table, failing: set<Column>)
      requires TableValid(disk)
      ensures Model() == Open(disk, failing)
      ensures Valid()
    {
      rows, sequence, version, columns := disk.rows, disk.sequence, disk.version, disk.columns;
      new;
      if version == 0 {
        OnCreate();
      } else if version < DatabaseVersion {
        OnUpgrade(version, DatabaseVersion, failing);
      }
      version := DatabaseVersion;
      OpenSpec(disk, failing, {});
    }

    /** `onCreate`: CREATE TABLE with the twenty columns (the indexes are not
        modelled). */
    method OnCreate()
      modifies this
      ensures Model() == CreateTable(old(Model()))
    {
      rows, sequence, columns := [], 0, CreateColumns;
    }

    /** One `ALTER TABLE cell_data ADD COLUMN`. */
    method AlterAddColumn(c: Column)
      modifies this
      ensures Model() == AddColumn(old(Model()), c)
    {
      rows := AddColumn(Model(), c).rows;
      columns := columns + [c];
    }

    /** `onUpgrade`: below version 2 the seven ALTER statements run in order
        inside one `try`; the first that throws skips the rest. */
    method OnUpgrade(oldVersion: int, newVersion: int, failing: set<Column>)
      modifies this
      ensures Model() == UpgradeTable(old(Model()), oldVersion, failing)
    {
      if oldVersion < 2 {
        var k := 0;
        var thrown := false;
        while k < |UpgradeColumns| && !thrown
          invariant 0 <= k <= |UpgradeColumns|
          invariant AlterAll(Model(), UpgradeColumns[k..], failing)
                    == AlterAll(old(Model()), UpgradeColumns, failing)
          invariant thrown ==> k < |UpgradeColumns| && AlterFails(Model(), UpgradeColumns[k], failing)
          decreases |UpgradeColumns| - k, !thrown
        {
          var c := UpgradeColumns[k];
          if AlterFails(Model(), c, failing) {
            thrown := true;
          } else {
            assert UpgradeColumns[k..] == [c] + UpgradeColumns[k + 1..];
            AlterAddColumn(c);
            k := k + 1;
          }
        }
      }
    }

    /** `insertCellData`: the id SQLite returns, and the record with that id
        set when it is positive (`cellData.id = id`). */
    method InsertCellData(c: CellData) returns (id: int, stored: CellData)
      requires Valid()
      modifies this
      ensures Inserted(Model(), id) == Insert(old(Model()), c)
      ensures stored == (if id > 0 then c.(id := id) else c)
      ensures Valid()
    {
      InsertPreservesValid(Model(), c);
      if InsertRejected(Model(), c) {
        id, stored := -1, c;
      } else {
        id := sequence + 1;
        rows := rows + [Row(id, ContentValues(c))];
        sequence := id;
        stored := c.(id := id);
      }
    }

    /** The `do { ... } while (cursor.moveToNext())` loop: records are added
        one at a time, and a missing column ends the loop with what was read. */
    method DrainCursor(cursor: seq<Row>) returns (list: seq<CellData>)
      ensures list == ReadCursor(cursor, columns)
    {
      list := [];
      var i := 0;
      while i < |cursor|
        invariant 0 <= i <= |cursor|
        invariant list + ReadCursor(cursor[i..], columns) == ReadCursor(cursor, columns)
      {
        assert cursor[i..][0] == cursor[i] && cursor[i..][1..] == cursor[i + 1..];
        var d := CursorToCellData(cursor[i], columns);
        if d.None? {
          return;
        }
        list := list + [d.value];
        i := i + 1;
      }
    }

    /** `getAllCellData` */
    method GetAllCellData() returns (list: seq<CellData>)
      ensures list == AllCellData(Model())
    {
      list := DrainCursor(SortByTimeDesc(rows));
    }

    /** `getRecentCellData(limit)`: SQLite reads a negative LIMIT as no limit. */
    method GetRecentCellData(limit: int) returns (list: seq<CellData>)
      ensures limit >= 0 ==> list == RecentCellData(Model(), limit)
      ensures limit < 0 ==> list == AllCellData(Model())
    {
      var cursor := SortByTimeDesc(rows);
      if limit >= 0 {
        cursor := cursor[..Min(limit, |cursor|)];
      }
      list := DrainCursor(cursor);
    }

    /** `getTotalCellCount`: `SELECT COUNT(*)`, which agrees with the number
        of records `getAllCellData` returns whenever the schema is complete. */
    method GetTotalCellCount() returns (n: int)
      ensures n == |rows| >= 0
      ensures HasReadColumns(columns) ==> n == |AllCellData(Model())|
    {
      n := |rows|;
      if HasReadColumns(columns) {
        RecentIsPrefixOfAll(Model(), 0);
      }
    }

    /** `clearAllData`: DELETE without a WHERE clause. */
    method ClearAllData()
      requires Valid()
      modifies this
      ensures Model() == Clear(old(Model()))
      ensures Valid()
    {
      rows := [];
    }
  }
}
