/** `CellMonitorService`: turning one reading into a stored record, one scan
    tick over the visible cells, and the single current location the records
    are stamped with. */
module Service {

  import opened Nullable
  import opened Strings
  import opened CellRecord
  import opened Normalizers
  import opened Table
  import opened TableProperties
  import opened Database

  /** The fields of `android.location.Location` the service reads. */
  datatype Location = Location(latitude: real, longitude: real, accuracy: real, time: int)

  // ---------------------------------------------------------------------------
  // Fix arbitration of startLocationUpdates

  /** The last known fix `startLocationUpdates` adopts, if any: GPS when it is
      strictly newer than the network fix or the only one, else the network
      fix. */
  function PreferredFix(gps: Option<Location>, network: Option<Location>): (r: Option<Location>)
    ensures r.None? <==> gps.None? && network.None?
    ensures r.Some? ==> r == gps || r == network
    ensures r.Some? && gps.Some? ==> r.value.time >= gps.value.time
    ensures r.Some? && network.Some? ==> r.value.time >= network.value.time
    ensures gps.Some? && network.Some? && gps.value.time == network.value.time ==> r == network
  {
    if gps.Some? && (network.None? || gps.value.time > network.value.time) then gps
    else if network.Some? then network
    else None
  }

  /** GPS is adopted exactly when it exists and no network fix is as new. */
  lemma GpsChosenIff(gps: Option<Location>, network: Option<Location>)
    ensures PreferredFix(gps, network) == gps && gps.Some? <==>
      gps.Some? && (network.None? || gps.value.time > network.value.time
                    || gps == network)
  {
  }

  // ---------------------------------------------------------------------------
  // processCellInfo, as a value

  /** The location fields stamped on a record: copied when a location is
      known, left as they were otherwise. */
  function WithLocation(c: CellData, location: Option<Location>): (r: CellData)
    ensures location.Some? ==>
      (r.latitude == location.value.latitude && r.longitude == location.value.longitude
       && r.accuracy == location.value.accuracy)
    ensures location.None? ==> r == c
    ensures r == c.(latitude := r.latitude, longitude := r.longitude, accuracy := r.accuracy)
  {
    match location
    case None => c
    case Some(l) => c.(latitude := l.latitude, longitude := l.longitude, accuracy := l.accuracy)
  }

  /** The record `processCellInfo` hands to the store: the time and the
      registration flag of the reading, the current location, then the one
      normaliser the kind of reading selects. `blank` is the record a new
      `CellData` starts out as. */
  function BuildRecord(info: CellInfo, now: int, location: Option<Location>, blank: CellData): CellData
  {
    var stamped := blank.(timestamp := Some(now), isRegistered := info.registered);
    Dispatch(info.kind, WithLocation(stamped, location))
  }

  /** Every record carries the reading's time and flag and the current
      location (or the blank's, with none); a recognised reading gets its
      technology and decimal cell id, an unrecognised one keeps the blank's. */
  lemma BuildRecordSpec(info: CellInfo, now: int, location: Option<Location>, blank: CellData)
    ensures var r := BuildRecord(info, now, location, blank);
      && r.id == blank.id
      && r.timestamp == Some(now)
      && r.isRegistered == info.registered
      && (location.Some? ==>
            (r.latitude == location.value.latitude && r.longitude == location.value.longitude
             && r.accuracy == location.value.accuracy))
      && (location.None? ==>
            (r.latitude == blank.latitude && r.longitude == blank.longitude
             && r.accuracy == blank.accuracy))
      && (!info.kind.Unrecognized? ==>
            (r.technology == Some(TechnologyName(info.kind))
             && r.cellId == Some(DecimalString(PrimaryId(info.kind)))))
      && (info.kind.Unrecognized? ==> r.technology == blank.technology && r.cellId == blank.cellId)
      && AuxUnchangedExcept(blank, r, OwnAux(info.kind))
  {
    var stamped := blank.(timestamp := Some(now), isRegistered := info.registered);
    var located := WithLocation(stamped, location);
    var r := Dispatch(info.kind, located);
    assert AuxUnchangedExcept(blank, located, {});
  }

  /** `ProviderHelper.enrichCellDataWithProvider` is not part of this model:
      the service takes it as an opaque step applied to the normaliser's
      record just before the insert. Some claims need it to leave alone the
      three fields the table declares NOT NULL. */
  ghost predicate KeepsRequired(enrich: CellData -> CellData)
  {
    forall c: CellData :: enrich(c).timestamp == c.timestamp && enrich(c).technology == c.technology
                          && enrich(c).cellId == c.cellId
  }

  /** With the full schema and ids to spare, and an enrichment step that
      keeps the required fields, a reading is stored exactly when it is
      recognised or the blank record already names a technology and a cell
      id. */
  lemma StoredIff(t: Table, info: CellInfo, now: int, location: Option<Location>, blank: CellData,
                  enrich: CellData -> CellData)
    requires TableValid(t) && HasInsertColumns(t.columns) && t.sequence < MaxRowId
    requires KeepsRequired(enrich)
    ensures Insert(t, enrich(BuildRecord(info, now, location, blank))).id > 0 <==>
      !info.kind.Unrecognized? || (blank.technology.Some? && blank.cellId.Some?)
  {
    BuildRecordSpec(info, now, location, blank);
    var r := BuildRecord(info, now, location, blank);
    assert enrich(r).timestamp == r.timestamp && enrich(r).technology == r.technology
      && enrich(r).cellId == r.cellId;
  }

  // ---------------------------------------------------------------------------
  // One scan tick, as a value

  /** One record per cell, each built from the cell and the time read for it,
      in list order. */
  function MapCells(infos: seq<CellInfo>, clock: seq<int>, build: (CellInfo, int) -> CellData)
    : (recs: seq<CellData>)
    requires |clock| >= |infos|
    ensures |recs| == |infos|
    decreases |infos|
  {
    if infos == [] then []
    else
      var n := |infos| - 1;
      MapCells(infos[..n], clock, build) + [build(infos[n], clock[n])]
  }

  /** Record i is built from cell i and its time. */
  lemma {:induction false} MapCellsAt(infos: seq<CellInfo>, clock: seq<int>,
                                      build: (CellInfo, int) -> CellData, i: nat)
    requires i < |infos| <= |clock|
    ensures MapCells(infos, clock, build)[i] == build(infos[i], clock[i])
    decreases |infos|
  {
    var n := |infos| - 1;
    if i < n {
      MapCellsAt(infos[..n], clock, build, i);
      assert infos[..n][i] == infos[i];
    }
  }

  /** One more cell adds its record at the end. */
  lemma MapCellsSnoc(infos: seq<CellInfo>, clock: seq<int>, build: (CellInfo, int) -> CellData, i: nat)
    requires i < |infos| <= |clock|
    ensures MapCells(infos[..i + 1], clock, build)
      == MapCells(infos[..i], clock, build) + [build(infos[i], clock[i])]
  {
    assert infos[..i + 1][..i] == infos[..i] && infos[..i + 1][i] == infos[i];
  }

  /** What `processCellInfo` hands to the store for a cell read at a time:
      the built record after the enrichment step. */
  function Builder(location: Option<Location>, blank: CellData, enrich: CellData -> CellData)
    : (CellInfo, int) -> CellData
  {
    (info: CellInfo, now: int) => enrich(BuildRecord(info, now, location, blank))
  }

  /** The records one tick hands to the store, one per visible cell. */
  function ScanRecords(infos: seq<CellInfo>, clock: seq<int>, location: Option<Location>,
                       blank: CellData, enrich: CellData -> CellData): (recs: seq<CellData>)
    requires |clock| >= |infos|
    ensures |recs| == |infos|
  {
    MapCells(infos, clock, Builder(location, blank, enrich))
  }

  /** Record i of a tick is the enriched record built from cell i at the time
      read for it, so the records follow the list order. */
  lemma ScanRecordsContents(infos: seq<CellInfo>, clock: seq<int>, location: Option<Location>,
                            blank: CellData, enrich: CellData -> CellData)
    requires |clock| >= |infos|
    ensures var recs := ScanRecords(infos, clock, location, blank, enrich);
      forall i :: 0 <= i < |infos| ==> recs[i] == enrich(BuildRecord(infos[i], clock[i], location, blank))
  {
    forall i | 0 <= i < |infos|
      ensures ScanRecords(infos, clock, location, blank, enrich)[i]
        == enrich(BuildRecord(infos[i], clock[i], location, blank))
    {
      MapCellsAt(infos, clock, Builder(location, blank, enrich), i);
    }
  }

  /** The records inserted in order: the final table and how many inserts
      returned a positive id. */
  function StoreAll(t: Table, recs: seq<CellData>): (Table, nat)
    decreases |recs|
  {
    if recs == [] then (t, 0)
    else
      var prev := StoreAll(t, recs[..|recs| - 1]);
      var o := Insert(prev.0, recs[|recs| - 1]);
      (o.table, prev.1 + (if o.id > 0 then 1 else 0))
  }

  /** One more cell of the tick is one more record at the end. */
  lemma ScanRecordsSnoc(infos: seq<CellInfo>, clock: seq<int>, location: Option<Location>,
                        blank: CellData, enrich: CellData -> CellData, i: nat)
    requires i < |infos| <= |clock|
    ensures ScanRecords(infos[..i + 1], clock, location, blank, enrich)
      == ScanRecords(infos[..i], clock, location, blank, enrich)
         + [enrich(BuildRecord(infos[i], clock[i], location, blank))]
  {
    MapCellsSnoc(infos, clock, Builder(location, blank, enrich), i);
  }

  /** Storing one more record is one more insert after the others. */
  lemma StoreAllSnoc(t: Table, recs: seq<CellData>, r: CellData)
    ensures var prev := StoreAll(t, recs); var o := Insert(prev.0, r);
      StoreAll(t, recs + [r]) == (o.table, prev.1 + (if o.id > 0 then 1 else 0))
  {
    var all := recs + [r];
    assert all != [] && all[..|all| - 1] == recs && all[|all| - 1] == r;
  }

  /** Storing a batch keeps the table valid, keeps the old rows in front, and
      adds exactly as many rows as inserts succeeded. */
  lemma {:induction false} StoreAllCounts(t: Table, recs: seq<CellData>)
    requires TableValid(t)
    ensures var s := StoreAll(t, recs);
      && TableValid(s.0)
      && s.1 <= |recs|
      && |s.0.rows| == |t.rows| + s.1
      && s.0.rows[..|t.rows|] == t.rows
      && s.0.sequence == t.sequence + s.1
    decreases |recs|
  {
    if recs != [] {
      var prefix := recs[..|recs| - 1];
      StoreAllCounts(t, prefix);
      var prev := StoreAll(t, prefix);
      InsertPreservesValid(prev.0, recs[|recs| - 1]);
      InsertIssuesFreshId(prev.0, recs[|recs| - 1]);
      var o := Insert(prev.0, recs[|recs| - 1]);
      if o.id > 0 {
        assert o.table.rows[..|t.rows|] == prev.0.rows[..|t.rows|];
      }
    }
  }

  /** A batch of complete records all land when the schema is complete and
      the id sequence has room. */
  lemma {:induction false} StoreAllComplete(t: Table, recs: seq<CellData>)
    requires HasInsertColumns(t.columns)
    requires 0 <= t.sequence && t.sequence + |recs| <= MaxRowId
    requires forall i :: 0 <= i < |recs| ==>
      recs[i].timestamp.Some? && recs[i].technology.Some? && recs[i].cellId.Some?
    ensures StoreAll(t, recs).1 == |recs|
    ensures StoreAll(t, recs).0.sequence == t.sequence + |recs|
    ensures StoreAll(t, recs).0.columns == t.columns
    decreases |recs|
  {
    if recs != [] {
      var prefix := recs[..|recs| - 1];
      assert forall i :: 0 <= i < |prefix| ==> prefix[i] == recs[i];
      StoreAllComplete(t, prefix);
    }
  }

  /** A tick over recognised cells stores every one of them when the schema
      is complete, ids are to spare and the enrichment step keeps the
      required fields. */
  lemma ScanStoresAll(t: Table, infos: seq<CellInfo>, clock: seq<int>, location: Option<Location>,
                      blank: CellData, enrich: CellData -> CellData)
    requires HasInsertColumns(t.columns)
    requires 0 <= t.sequence && t.sequence + |infos| <= MaxRowId
    requires |clock| >= |infos| && KeepsRequired(enrich)
    requires forall i :: 0 <= i < |infos| ==> !infos[i].kind.Unrecognized?
    ensures StoreAll(t, ScanRecords(infos, clock, location, blank, enrich)).1 == |infos|
  {
    var recs := ScanRecords(infos, clock, location, blank, enrich);
    ScanRecordsContents(infos, clock, location, blank, enrich);
    forall i | 0 <= i < |recs|
      ensures recs[i].timestamp.Some? && recs[i].technology.Some? && recs[i].cellId.Some?
    {
      BuildRecordSpec(infos[i], clock[i], location, blank);
      var r := BuildRecord(infos[i], clock[i], location, blank);
      assert enrich(r).timestamp == r.timestamp && enrich(r).technology == r.technology
        && enrich(r).cellId == r.cellId;
    }
    StoreAllComplete(t, recs);
  }

  // ---------------------------------------------------------------------------
  // The service object

  class CellMonitorService {
    /** `currentLocation`; `None` is null. */
    var currentLocation: Option<Location>
    /** `totalCellsDetected` */
    var totalCellsDetected: int
    /** How many `CELL_DATA_UPDATE` broadcasts (each followed by a
        notification refresh) have been sent. */
    var broadcasts: nat
    const dbHelper: DatabaseHelper
    /** The provider enrichment step, applied to each record before it is
        inserted. */
    const enrich: CellData -> CellData
    /** The id sequence when the service started. */
    ghost var startSequence: int

    /** The counter counts every id the service's inserts were issued: it
        starts at 0 and follows the table's id sequence. */
    ghost predicate Valid()
      reads this, dbHelper
    {
      && dbHelper.Valid()
      && totalCellsDetected == dbHelper.sequence - startSequence
      && totalCellsDetected >= 0
    }

    /** `onCreate`: open the store, then `startLocationUpdates`. */
    constructor (disk: Table, failing: set<Column>, granted: bool,
                 lastGps: Option<Location>, lastNetwork: Option<Location>,
                 enrich: CellData -> CellData)
      requires TableValid(disk)
      ensures fresh(dbHelper) && dbHelper.Model() == Open(disk, failing)
      ensures this.enrich == enrich
      ensures totalCellsDetected == 0 && broadcasts == 0
      ensures currentLocation == (if granted then PreferredFix(lastGps, lastNetwork) else None)
      ensures Valid()
    {
      var helper := new DatabaseHelper(disk, failing);
      dbHelper := helper;
      this.enrich := enrich;
      currentLocation := None;
      totalCellsDetected := 0;
      broadcasts := 0;
      startSequence := helper.sequence;
      new;
      StartLocationUpdates(granted, lastGps, lastNetwork);
    }

    /** `startLocationUpdates`: adopt the preferred last known fix, if there
        is one. When the permission is missing (`granted` false) the first
        request throws and nothing changes. */
    method StartLocationUpdates(granted: bool, lastGps: Option<Location>, lastNetwork: Option<Location>)
      modifies this
      ensures !granted ==> currentLocation == old(currentLocation)
      ensures granted && PreferredFix(lastGps, lastNetwork).Some? ==>
        currentLocation == PreferredFix(lastGps, lastNetwork)
      ensures granted && PreferredFix(lastGps, lastNetwork).None? ==>
        currentLocation == old(currentLocation)
      ensures totalCellsDetected == old(totalCellsDetected) && broadcasts == old(broadcasts)
      ensures startSequence == old(startSequence)
    {
      if granted {
        if lastGps.Some? && (lastNetwork.None? || lastGps.value.time > lastNetwork.value.time) {
          currentLocation := lastGps;
        } else if lastNetwork.Some? {
          currentLocation := lastNetwork;
        }
      }
    }

    /** `onLocationChanged`: the newest update replaces the location. */
    method OnLocationChanged(location: Location)
      modifies this
      ensures currentLocation == Some(location)
      ensures totalCellsDetected == old(totalCellsDetected) && broadcasts == old(broadcasts)
      ensures startSequence == old(startSequence)
    {
      currentLocation := Some(location);
    }

    /** `processCellInfo`: build the record, enrich it, insert it, and count
        it when the store returned a positive id. `now` is
        `System.currentTimeMillis()`. */
    method ProcessCellInfo(info: CellInfo, now: int, blank: CellData)
      requires Valid()
      modifies this, dbHelper
      ensures var o := Insert(old(dbHelper.Model()), enrich(BuildRecord(info, now, old(currentLocation), blank)));
        && dbHelper.Model() == o.table
        && totalCellsDetected == old(totalCellsDetected) + (if o.id > 0 then 1 else 0)
      ensures currentLocation == old(currentLocation) && broadcasts == old(broadcasts)
      ensures startSequence == old(startSequence)
      ensures Valid()
    {
      var cellData := enrich(BuildRecord(info, now, currentLocation, blank));
      InsertIssuesFreshId(dbHelper.Model(), cellData);
      var id, stored := dbHelper.InsertCellData(cellData);
      if id > 0 {
        totalCellsDetected := totalCellsDetected + 1;
      }
    }

    /** `scanCellTowers`: a null list does nothing; otherwise every cell is
        processed once, in list order, and one broadcast follows. `clock`
        holds the time read for each cell. */
    method ScanCellTowers(cellInfoList: Option<seq<CellInfo>>, clock: seq<int>, blank: CellData)
      requires Valid()
      requires cellInfoList.Some? ==> |clock| >= |cellInfoList.value|
      modifies this, dbHelper
      ensures cellInfoList.None? ==>
        dbHelper.Model() == old(dbHelper.Model()) && totalCellsDetected == old(totalCellsDetected)
        && broadcasts == old(broadcasts)
      ensures cellInfoList.Some? ==>
        var s := StoreAll(old(dbHelper.Model()),
                          ScanRecords(cellInfoList.value, clock, old(currentLocation), blank, enrich));
        && dbHelper.Model() == s.0
        && totalCellsDetected == old(totalCellsDetected) + s.1
        && broadcasts == old(broadcasts) + 1
      ensures |dbHelper.rows| - |old(dbHelper.rows)| == totalCellsDetected - old(totalCellsDetected)
      ensures currentLocation == old(currentLocation) && startSequence == old(startSequence)
      ensures Valid()
    {
      if cellInfoList.Some? {
        ghost var recs := ScanRecords(cellInfoList.value, clock, currentLocation, blank, enrich);
        StoreAllCounts(dbHelper.Model(), recs);
        ProcessEach(cellInfoList.value, clock, blank);
        broadcasts := broadcasts + 1;
      }
    }

    /** The `for` loop of `scanCellTowers`: `processCellInfo` for each cell in
        list order. */
    method ProcessEach(infos: seq<CellInfo>, clock: seq<int>, blank: CellData)
      requires Valid() && |clock| >= |infos|
      modifies this, dbHelper
      ensures var s := StoreAll(old(dbHelper.Model()), ScanRecords(infos, clock, old(currentLocation), blank, enrich));
        && dbHelper.Model() == s.0
        && totalCellsDetected == old(totalCellsDetected) + s.1
      ensures currentLocation == old(currentLocation) && broadcasts == old(broadcasts)
      ensures startSequence == old(startSequence)
      ensures Valid()
    {
      ghost var location := currentLocation;
      ghost var t0 := dbHelper.Model();
      ghost var n0 := totalCellsDetected;
      var i := 0;
      while i < |infos|
        invariant 0 <= i <= |infos|
        invariant Valid()
        invariant currentLocation == location && startSequence == old(startSequence)
        invariant broadcasts == old(broadcasts)
        invariant var s := StoreAll(t0, ScanRecords(infos[..i], clock, location, blank, enrich));
          dbHelper.Model() == s.0 && totalCellsDetected == n0 + s.1
      {
        ScanRecordsSnoc(infos, clock, location, blank, enrich, i);
        StoreAllSnoc(t0, ScanRecords(infos[..i], clock, location, blank, enrich),
                     enrich(BuildRecord(infos[i], clock[i], location, blank)));
        ProcessCellInfo(infos[i], clock[i], blank);
        i := i + 1;
      }
      assert infos[..|infos|] == infos;
    }

    /** `getTotalCellsDetected` */
    method GetTotalCellsDetected() returns (n: int)
      requires Valid()
      ensures n >= 0 && n == dbHelper.sequence - startSequence
    {
      n := totalCellsDetected;
    }
  }
}
