# Cell ID collector: normaliser, sampling tick and record store

This project models the core of an Android cell-tower logger. A background
service (`CellMonitorService`) turns each visible cell reading (LTE, GSM,
WCDMA or NR) into a flat `CellData` record. It stamps the record with the
time, the registration flag and the current location, passes it through a
provider enrichment step, stores it through `DatabaseHelper` in an SQLite
table, and counts the successful inserts.

The model has these parts:

- `JavaBits` (`java_bits.dfy`): Java's `>>` and `& (2^k-1)` defined bit by bit, proved equal to floor division and remainder.
- `Strings` (`strings.dfy`): what `String.valueOf` and `%d` print for integers and possibly-null strings, with a parse round trip.
- `CellRecord` (`cell_data.dfy`): the record type, with the fields used at `DatabaseHelper.java:116-134`.
- `Normalizers` (`normalizers.dfy`): the four per-technology normalisers and the `instanceof` dispatch, as pure functions. The diagnostic strings are lists of labelled integers rendered as `label:value,...`.
- `Table` (`table.dfy`): the `cell_data` table as SQLite keeps it. It has columns, rows keyed by an AUTOINCREMENT id, the `sqlite_sequence` entry and the user version. Each store operation is a function here.
- `RowCodec` (`row_codec.dfy`): the ContentValues encoding of `insertCellData` against the getters of `cursorToCellData`.
- `TableProperties` (`table_properties.dfy`): what those operations guarantee.
- `Database` (`database_helper.dfy`): class `DatabaseHelper`. Its fields are updated in place, and each method is proved against its `Table` function.
- `Service` (`cell_monitor_service.dfy`): fix arbitration, record building and the batch insert of one tick, plus class `CellMonitorService` with `currentLocation` and `totalCellsDetected`.

Where the documented intent and the code differ, the model follows the code:

- Unavailable platform readings are not converted to -1. Getter values go into the record unchanged.
- A migration can stop part-way and still be recorded as done. `onUpgrade` swallows the exception of the first failing ALTER, and the helper still records version 2. When the run stops while a migrated column is still missing, every insert names a column the table lacks and returns -1, and both list queries return an empty list (`TableProperties.PartialSchemaUnusable`). `getTotalCellCount` still returns the row count. When the ALTER that stops the run names a column that already exists, and the remaining migrated columns exist too, the store stays usable.
- `totalCellsDetected` is never reset. `clearAllData` empties the table but keeps the id sequence. So the counter keeps following the id sequence (`Service.CellMonitorService.Valid`), not the row count.
- SQLite reads a negative `LIMIT` as "no limit", and `GetRecentCellData` models that case too.

## Model

| member | source | states |
|---|---|---|
| JavaBits.ShiftMaskSplit | app/src/main/java/com/forensics/cellidcollector/CellMonitorService.java:279-280 | `x >> k` times 2^k plus `x & (2^k-1)` gives x back, and the masked part lies in [0, 2^k) |
| JavaBits.ShiftIsFloorDiv | app/src/main/java/com/forensics/cellidcollector/CellMonitorService.java:279-280 | arithmetic `>> k` is floor division by 2^k and the mask is the non-negative remainder, negative values included |
| Strings.NatDigits | app/src/main/java/com/forensics/cellidcollector/CellMonitorService.java:269-270 | the decimal rendering of a non-negative number is a non-empty string of digits |
| Strings.DecimalRoundTrip | app/src/main/java/com/forensics/cellidcollector/CellMonitorService.java:269-270 | parsing the decimal rendering of any integer gives that integer back |
| Strings.DecimalInjective | app/src/main/java/com/forensics/cellidcollector/CellMonitorService.java:269 | two ids with the same rendered cell id are the same id |
| Strings.ParseNatDigits | app/src/main/java/com/forensics/cellidcollector/CellMonitorService.java:269 | parsing the digits of a natural number gives the number |
| Normalizers.ProcessCellInfoLte | app/src/main/java/com/forensics/cellidcollector/CellMonitorService.java:264-287 | writes tag "LTE", the decimal ci and tac, mcc/mnc as `String.valueOf` prints them, the dBm and pci/earfcn. The other five auxiliary fields and the id, time, flag and location keep their values. The diagnostic is the rendered LTE field list |
| Normalizers.ProcessCellInfoGsm | app/src/main/java/com/forensics/cellidcollector/CellMonitorService.java:289-308 | writes tag "GSM", the decimal cid and lac, mcc/mnc, the dBm and arfcn/bsic; no other auxiliary or capture field changes |
| Normalizers.ProcessCellInfoWcdma | app/src/main/java/com/forensics/cellidcollector/CellMonitorService.java:310-329 | writes tag "WCDMA", the decimal cid and lac, mcc/mnc, the dBm and psc/uarfcn; no other auxiliary or capture field changes |
| Normalizers.ProcessCellInfoNr | app/src/main/java/com/forensics/cellidcollector/CellMonitorService.java:331-351 | writes tag "NR", the decimal nci and tac, mcc/mnc, the dBm and pci/nrarfcn; no other auxiliary or capture field changes |
| Normalizers.Dispatch | app/src/main/java/com/forensics/cellidcollector/CellMonitorService.java:241-249 | exactly the normaliser of the reading's class runs. It changes only that technology's auxiliary fields and never the capture fields. An unrecognised reading leaves the record exactly as it was |
| Normalizers.CellIdRoundTrip | app/src/main/java/com/forensics/cellidcollector/CellMonitorService.java:269 | for every recognised reading, parsing the stored cell id gives the reading's ci/cid/nci |
| Normalizers.LteSiteSectorSplit | app/src/main/java/com/forensics/cellidcollector/CellMonitorService.java:279-280 | the sector `ci & 0xFF` lies in 0..255, `eNodeB*256 + Sector == ci`, and the two are `ci / 256` and `ci % 256` |
| Normalizers.NrSiteIsFloorDiv | app/src/main/java/com/forensics/cellidcollector/CellMonitorService.java:346 | `nci >> 12` is `floor(nci / 4096)`, bracketing nci between site*4096 and (site+1)*4096 |
| Normalizers.RenderUnfold | app/src/main/java/com/forensics/cellidcollector/CellMonitorService.java:277-278 | a rendered list of two or more fields is the first entry, a comma and the rest |
| Normalizers.RenderStartsWithFirstTwo | app/src/main/java/com/forensics/cellidcollector/CellMonitorService.java:277-278 | a rendered list of three or more fields starts with its first two entries, each followed by a comma |
| Normalizers.RenderContains | app/src/main/java/com/forensics/cellidcollector/CellMonitorService.java:277-286 | every field of a diagnostic list appears, as `label:value`, in the rendered string |
| Normalizers.LteDiagnosticLeadsWithSplit | app/src/main/java/com/forensics/cellidcollector/CellMonitorService.java:277-286 | the LTE diagnostic starts with `eNodeB:<ci>>8>,Sector:<ci&0xFF>,`, and those two numbers rebuild ci |
| Normalizers.NrDiagnosticShape | app/src/main/java/com/forensics/cellidcollector/CellMonitorService.java:344-350 | the NR diagnostic starts with `gNodeB:<floor(nci/4096)>,`. Its labels are gNodeB, SS-RSRP, SS-RSRQ and SS-SINR, with no Sector |
| Normalizers.WcdmaRscpAgrees | app/src/main/java/com/forensics/cellidcollector/CellMonitorService.java:319-328 | the WCDMA diagnostic opens with `PSC:<psc>,CPICH_RSCP:<dBm>,` for the record's own psc and signal strength, and `CPICH_RSCP:<dBm>,` occurs in it |
| Normalizers.RenderContainsDelimited | app/src/main/java/com/forensics/cellidcollector/CellMonitorService.java:277-286 | every field of a diagnostic list except the last appears as `label:value,` in the rendered string |
| Normalizers.GsmBsicAgrees | app/src/main/java/com/forensics/cellidcollector/CellMonitorService.java:300-306 | the GSM diagnostic opens with `BSIC:<bsic>,` for the record's own bsic |
| Table.Decode | app/src/main/java/com/forensics/cellidcollector/DatabaseHelper.java:222-223 | the decoded record carries the row's id and its timestamp |
| Table.CursorToCellData | app/src/main/java/com/forensics/cellidcollector/DatabaseHelper.java:219-244 | a row decodes exactly when every one of the twenty columns exists (`getColumnIndexOrThrow`), and then carries the row's id and timestamp |
| TableProperties.ContentValuesKeys | app/src/main/java/com/forensics/cellidcollector/DatabaseHelper.java:115-134 | once the migrated columns exist, the ContentValues name exactly the table's columns other than `_id` |
| TableProperties.InsertedRowFits | app/src/main/java/com/forensics/cellidcollector/DatabaseHelper.java:115-136 | an accepted insert writes exactly the table's non-id columns, with values of their declared types, and no NULL in a NOT NULL column |
| TableProperties.InsertableIsCreated | app/src/main/java/com/forensics/cellidcollector/DatabaseHelper.java:74-76 | a valid table that holds the inserted columns has a version above 0, so it was created |
| TableProperties.AppendRowValid | app/src/main/java/com/forensics/cellidcollector/DatabaseHelper.java:43 | appending a fitting row under the next id keeps ids ascending, positive and within the sequence |
| TableProperties.InsertPreservesValid | app/src/main/java/com/forensics/cellidcollector/DatabaseHelper.java:110-150 | every insert, accepted or not, leaves a valid table |
| TableProperties.InsertIssuesFreshId | app/src/main/java/com/forensics/cellidcollector/DatabaseHelper.java:136-143 | the id is positive iff the insert is accepted. Then it exceeds the sequence and every stored id, and exactly one row is appended. Otherwise it is -1 and nothing changes |
| TableProperties.NullRequiredFieldRejected | app/src/main/java/com/forensics/cellidcollector/DatabaseHelper.java:44-46 | a null timestamp, technology or cell id gives -1 and leaves the table unchanged |
| TableProperties.SameContentTwice | app/src/main/java/com/forensics/cellidcollector/DatabaseHelper.java:41-63 | inserting the same record twice adds two rows with equal content and different ids |
| RowCodec.EncodeFits | app/src/main/java/com/forensics/cellidcollector/DatabaseHelper.java:115-134 | every value `insertCellData` puts in a column has that column's declared storage class |
| RowCodec.StoredCell | app/src/main/java/com/forensics/cellidcollector/DatabaseHelper.java:116-134 | each stored column holds the encoded field |
| RowCodec.DecodeEncoded | app/src/main/java/com/forensics/cellidcollector/DatabaseHelper.java:222-241 | decoding a stored row gives back the inserted record with the new id. `isRegistered` survives the 1/0 encoding and null texts come back null |
| RowCodec.ReadBackRoundTrip | app/src/main/java/com/forensics/cellidcollector/DatabaseHelper.java:219-244 | with the full schema, `cursorToCellData` of a stored row is the inserted record with its id |
| TableProperties.IssuedBelowSequence | app/src/main/java/com/forensics/cellidcollector/DatabaseHelper.java:136 | over any history of inserts and clears the table stays valid, and every issued id lies above the starting sequence and at or below the current one |
| TableProperties.IdsNeverReused | app/src/main/java/com/forensics/cellidcollector/DatabaseHelper.java:208-213 | after any history of inserts and clears, a successful insert's id exceeds every id issued before and every id initially stored |
| TableProperties.ClearKeepsSequence | app/src/main/java/com/forensics/cellidcollector/DatabaseHelper.java:208-217 | after `clearAllData` the table is empty and valid, and the next id still exceeds every id it held |
| TableProperties.NoLaterThanPermutation | app/src/main/java/com/forensics/cellidcollector/DatabaseHelper.java:156 | a bound on the times of a sequence of rows holds for any permutation of it |
| TableProperties.PrependDescending | app/src/main/java/com/forensics/cellidcollector/DatabaseHelper.java:156 | putting a row no older than all others in front keeps the order descending |
| TableProperties.InsertByTimeSorted | app/src/main/java/com/forensics/cellidcollector/DatabaseHelper.java:156 | inserting a row into a time-descending list keeps it descending and adds exactly that row |
| TableProperties.SortByTimeDescSorted | app/src/main/java/com/forensics/cellidcollector/DatabaseHelper.java:156 | `ORDER BY timestamp DESC` yields a time-descending permutation of the rows |
| TableProperties.ReadCursorComplete | app/src/main/java/com/forensics/cellidcollector/DatabaseHelper.java:158-167 | with every column present the cursor loop decodes every row in order. With one missing, the first read throws and the list stays empty |
| TableProperties.ReadCursorAppend | app/src/main/java/com/forensics/cellidcollector/DatabaseHelper.java:159-163 | with the full schema, reading two cursor segments one after the other is reading them joined |
| TableProperties.ReadCursorRemove | app/src/main/java/com/forensics/cellidcollector/DatabaseHelper.java:159-163 | as a multiset, reading a cursor is reading it without row p plus the record of row p |
| TableProperties.ReadCursorPermutation | app/src/main/java/com/forensics/cellidcollector/DatabaseHelper.java:159-163 | reading a permutation of rows gives a permutation of records |
| TableProperties.AllCellDataSpec | app/src/main/java/com/forensics/cellidcollector/DatabaseHelper.java:152-170 | one record per row, timestamps non-increasing, and as a multiset exactly the records of the stored rows |
| TableProperties.StoredRecordsDistinct | app/src/main/java/com/forensics/cellidcollector/DatabaseHelper.java:43 | the stored rows decode to records with strictly ascending, hence distinct, ids, so each row is returned exactly once |
| TableProperties.OmittedNotNewer | app/src/main/java/com/forensics/cellidcollector/DatabaseHelper.java:176-177 | a row left out of the first k rows of a descending order is no newer than any row kept |
| TableProperties.RecentCellDataSpec | app/src/main/java/com/forensics/cellidcollector/DatabaseHelper.java:172-191 | `min(limit, count)` records, all records of stored rows (as a multiset, contained in the records of the rows), timestamps non-increasing, and every returned timestamp at least that of every row whose record was left out |
| TableProperties.RecentFromStored | app/src/main/java/com/forensics/cellidcollector/DatabaseHelper.java:172-191 | as a multiset, the bounded query returns only records of stored rows, none more often than the rows hold it |
| TableProperties.RecentIsPrefixOfAll | app/src/main/java/com/forensics/cellidcollector/DatabaseHelper.java:172-191 | the bounded query is the first `min(limit, count)` records of the full query, which has one record per row |
| TableProperties.RecentTimes | app/src/main/java/com/forensics/cellidcollector/DatabaseHelper.java:172-191 | the bounded query returns `min(limit, count)` records carrying, in order, the times of the first rows of the descending order |
| TableProperties.RecentOmitsOnlyOlder | app/src/main/java/com/forensics/cellidcollector/DatabaseHelper.java:172-191 | a row whose record the bounded query leaves out is no newer than any record it returns |
| TableProperties.NewestInsertReadFirst | app/src/main/java/com/forensics/cellidcollector/DatabaseHelper.java:110-191 | after inserting a record newer than every stored row, `getRecentCellData(1)` returns exactly that record with its new id |
| TableProperties.NewestSortsFirst | app/src/main/java/com/forensics/cellidcollector/DatabaseHelper.java:156 | a row strictly newer than all others comes first in `ORDER BY timestamp DESC` |
| TableProperties.FirstReadBack | app/src/main/java/com/forensics/cellidcollector/DatabaseHelper.java:172-191 | when the query order starts with a row that decodes to d, `getRecentCellData(1)` returns exactly d |
| TableProperties.SchemaOrdinals | app/src/main/java/com/forensics/cellidcollector/DatabaseHelper.java:41-63 | the create statement lists the columns in declaration order, and the ALTERs add pci..nrarfcn in that order |
| TableProperties.SchemaDistinct | app/src/main/java/com/forensics/cellidcollector/DatabaseHelper.java:41-63 | no column is declared twice, by the create statement or by the migration |
| TableProperties.CreatedSchema | app/src/main/java/com/forensics/cellidcollector/DatabaseHelper.java:41-63 | a fresh table has twenty distinct columns, among them every column the cursor reads. The seven auxiliary columns default to -1; `is_registered`, latitude, longitude and accuracy default to 0 |
| TableProperties.UpgradeDefaults | app/src/main/java/com/forensics/cellidcollector/DatabaseHelper.java:96-102 | each migrated column defaults to -1 |
| TableProperties.CreatedColumnsAreRead | app/src/main/java/com/forensics/cellidcollector/DatabaseHelper.java:41-63 | the create statement declares every column `cursorToCellData` reads and every column the ContentValues name |
| TableProperties.EveryColumnCreated | app/src/main/java/com/forensics/cellidcollector/DatabaseHelper.java:41-63 | every column of the record is in the create statement |
| TableProperties.AddColumnValid | app/src/main/java/com/forensics/cellidcollector/DatabaseHelper.java:96-102 | adding a missing column with its default keeps the table valid |
| TableProperties.AddColumnRowFits | app/src/main/java/com/forensics/cellidcollector/DatabaseHelper.java:96-102 | a fitting row given the default of a new nullable column fits the extended column list |
| TableProperties.DefaultCellsStep | app/src/main/java/com/forensics/cellidcollector/DatabaseHelper.java:96-102 | adding defaults one column at a time equals adding them all at once |
| TableProperties.AlterAllColumns | app/src/main/java/com/forensics/cellidcollector/DatabaseHelper.java:94-107 | the ALTERs in order append a prefix of their columns, each new and not failing; the first not applied failed or already exists; the row count, sequence and version are kept |
| TableProperties.AlterAllRows | app/src/main/java/com/forensics/cellidcollector/DatabaseHelper.java:94-107 | after the ALTERs every existing row holds its old cells plus exactly the defaults of the added columns |
| TableProperties.AlterAllValid | app/src/main/java/com/forensics/cellidcollector/DatabaseHelper.java:94-107 | ALTERs of nullable non-key columns keep the table valid |
| TableProperties.AlterAllStops | app/src/main/java/com/forensics/cellidcollector/DatabaseHelper.java:94-107 | with distinct ALTER columns, each applied one was missing from the table, and the first not applied failed or names an existing column |
| TableProperties.AlterAllEffect | app/src/main/java/com/forensics/cellidcollector/DatabaseHelper.java:94-107 | the ALTERs add a prefix of their columns, each one new and not failing. The first failure ends the run. Rows get exactly the defaults of the added columns, and nothing else changes |
| TableProperties.DefaultsExtendRow | app/src/main/java/com/forensics/cellidcollector/DatabaseHelper.java:96-102 | adding defaults for new columns keeps every old value and gives each new column its default |
| TableProperties.UpgradeSchema | app/src/main/java/com/forensics/cellidcollector/DatabaseHelper.java:94-107 | the migration adds a prefix of pci..nrarfcn, each missing before and not failing, stops at the first failure, keeps the row count and the sequence, and leaves a valid table |
| TableProperties.UpgradeKeepsRows | app/src/main/java/com/forensics/cellidcollector/DatabaseHelper.java:96-102 | after the migration every row keeps its id and values and reads -1 in each added column |
| TableProperties.UpgradedCells | app/src/main/java/com/forensics/cellidcollector/DatabaseHelper.java:96-102 | a row lacking the first k migrated columns, once extended by them, keeps its cells and reads -1 in each new one |
| TableProperties.UpgradeEffect | app/src/main/java/com/forensics/cellidcollector/DatabaseHelper.java:91-108 | below version 2 a prefix of pci, psc, bsic, earfcn, uarfcn, arfcn, nrarfcn is added in order. Each existing row reads -1 there and keeps all its other values, and the first failure stops the run. From version 2 on nothing changes |
| TableProperties.UpgradeCompletes | app/src/main/java/com/forensics/cellidcollector/DatabaseHelper.java:94-103 | when no ALTER fails, all seven columns are added |
| TableProperties.OpenSpec | app/src/main/java/com/forensics/cellidcollector/DatabaseHelper.java:74-76 | opening creates or upgrades to a valid version-2 table. An existing file keeps its rows, ids and sequence, and opening again changes nothing |
| TableProperties.PartialSchemaUnusable | app/src/main/java/com/forensics/cellidcollector/DatabaseHelper.java:104-106 | if a migrated column is missing, every insert returns -1 and both queries return nothing |
| Database.DatabaseHelper.constructor | app/src/main/java/com/forensics/cellidcollector/DatabaseHelper.java:74-76 | the helper holds the opened table, valid and at version 2 |
| Database.DatabaseHelper.OnCreate | app/src/main/java/com/forensics/cellidcollector/DatabaseHelper.java:78-88 | the table becomes empty with the twenty created columns |
| Database.DatabaseHelper.AlterAddColumn | app/src/main/java/com/forensics/cellidcollector/DatabaseHelper.java:96 | one ALTER appends the column and gives every row its default |
| Database.DatabaseHelper.OnUpgrade | app/src/main/java/com/forensics/cellidcollector/DatabaseHelper.java:90-108 | the step-by-step ALTER loop ends in the state `UpgradeTable` describes, whose properties `UpgradeEffect` proves |
| Database.DatabaseHelper.InsertCellData | app/src/main/java/com/forensics/cellidcollector/DatabaseHelper.java:110-150 | the new state and returned id are those of `Insert`. The record gets the id iff it is positive, and validity is kept |
| Database.DatabaseHelper.DrainCursor | app/src/main/java/com/forensics/cellidcollector/DatabaseHelper.java:158-167 | the do/while loop returns exactly `ReadCursor`: all rows decoded in order, or the prefix before the first failed read |
| Database.DatabaseHelper.GetAllCellData | app/src/main/java/com/forensics/cellidcollector/DatabaseHelper.java:152-170 | returns `AllCellData` of the current table |
| Database.DatabaseHelper.GetRecentCellData | app/src/main/java/com/forensics/cellidcollector/DatabaseHelper.java:172-191 | returns `RecentCellData(limit)` for `limit >= 0`, and the full query for a negative limit |
| Database.DatabaseHelper.GetTotalCellCount | app/src/main/java/com/forensics/cellidcollector/DatabaseHelper.java:193-206 | the number of rows. With the full schema, that is also the number of records `getAllCellData` returns |
| Database.DatabaseHelper.ClearAllData | app/src/main/java/com/forensics/cellidcollector/DatabaseHelper.java:208-217 | all rows go and the id sequence stays, keeping the table valid |
| Service.PreferredFix | app/src/main/java/com/forensics/cellidcollector/CellMonitorService.java:158-165 | a fix is chosen iff one exists, and it is one of the two. It is at least as new as each existing fix, and on equal times the network fix wins |
| Service.GpsChosenIff | app/src/main/java/com/forensics/cellidcollector/CellMonitorService.java:161-162 | GPS is adopted iff it exists and the network fix is absent, strictly older, or the same fix |
| Service.WithLocation | app/src/main/java/com/forensics/cellidcollector/CellMonitorService.java:235-239 | latitude, longitude and accuracy are copied iff a location exists. Without one the record is unchanged, and only those three fields ever change |
| Service.BuildRecordSpec | app/src/main/java/com/forensics/cellidcollector/CellMonitorService.java:230-249 | the record gets the time and flag and the location (if any). A recognised reading also gets its tag and decimal id. An unrecognised one keeps the initial technology and cell id, and only the technology's own auxiliary fields differ from the initial record |
| Service.StoredIff | app/src/main/java/com/forensics/cellidcollector/CellMonitorService.java:241-261 | with the full schema, ids to spare and an enrichment step that keeps the required fields, a reading is stored iff it is recognised or the initial record already has a technology and a cell id |
| Service.ScanRecords | app/src/main/java/com/forensics/cellidcollector/CellMonitorService.java:216-218 | one record per visible cell |
| Service.ScanRecordsContents | app/src/main/java/com/forensics/cellidcollector/CellMonitorService.java:216-218 | record i of a tick is the enriched record built from cell i at the time read for it, so the records follow the list order |
| Service.ScanRecordsSnoc | app/src/main/java/com/forensics/cellidcollector/CellMonitorService.java:216-218 | one more cell of the list adds its record at the end |
| Service.StoreAllSnoc | app/src/main/java/com/forensics/cellidcollector/CellMonitorService.java:216-218 | storing one more record is one more insert on the table so far, counted iff its id is positive |
| Service.StoreAllCounts | app/src/main/java/com/forensics/cellidcollector/CellMonitorService.java:257-261 | a batch keeps the table valid and the old rows in front. Rows added and the sequence increase both equal the number of successful inserts, which is at most the batch size |
| Service.StoreAllComplete | app/src/main/java/com/forensics/cellidcollector/CellMonitorService.java:257-261 | with the full schema and room in the sequence, every complete record of a batch is stored |
| Service.ScanStoresAll | app/src/main/java/com/forensics/cellidcollector/CellMonitorService.java:211-261 | with the full schema, room in the sequence and an enrichment step that keeps the required fields, a tick over recognised cells stores every one of them |
| Service.CellMonitorService.constructor | app/src/main/java/com/forensics/cellidcollector/CellMonitorService.java:62-75 | the store is opened, the counter is 0, and the location is the preferred last known fix when permitted |
| Service.CellMonitorService.StartLocationUpdates | app/src/main/java/com/forensics/cellidcollector/CellMonitorService.java:142-170 | adopts the preferred fix when there is one. With neither fix, or without permission, the location is unchanged |
| Service.CellMonitorService.OnLocationChanged | app/src/main/java/com/forensics/cellidcollector/CellMonitorService.java:361-365 | the new location replaces the old one unconditionally |
| Service.CellMonitorService.ProcessCellInfo | app/src/main/java/com/forensics/cellidcollector/CellMonitorService.java:230-262 | the built record, after the enrichment step, is inserted. The counter rises by 1 iff the id is positive and is otherwise unchanged, and it keeps following the id sequence |
| Service.CellMonitorService.ScanCellTowers | app/src/main/java/com/forensics/cellidcollector/CellMonitorService.java:211-228 | a null list changes nothing and sends no broadcast. Otherwise the cells are stored in list order and one broadcast follows, and the counter rises by exactly the number of rows added |
| Service.CellMonitorService.ProcessEach | app/src/main/java/com/forensics/cellidcollector/CellMonitorService.java:216-218 | the `for` loop calls `processCellInfo` once per cell in list order. The table ends as the in-order inserts of the built and enriched records leave it, and the counter rises by the number of positive ids |
| Service.CellMonitorService.GetTotalCellsDetected | app/src/main/java/com/forensics/cellidcollector/CellMonitorService.java:380-382 | the counter is non-negative and equals the number of ids issued since the service started |

## Left out

- Notifications: the channel, notification building and `updateNotification` are presentation only. `broadcasts` counts the `CELL_DATA_UPDATE` broadcast that each is paired with.
- Android timing and lifecycle: the `Handler` rescheduling every 5 s, `PhoneStateListener`, `onStartCommand`/`onDestroy` and `stopLocationUpdates` are not modelled. A tick, including one triggered by a cell-location change, is one call of `ScanCellTowers`.
- I/O and the environment become parameters: the clock (`now`, `clock`), the location fixes, the permission outcome (`granted`; a missing permission in `scanCellTowers` is a null list), and the ALTER statements that fail for reasons other than a duplicate column (`failing`).
- `ProviderHelper` is not part of this model. `enrichCellDataWithProvider` is the opaque function `enrich`, given to the service's constructor and applied to each built record just before the insert. The provider-name lookup only feeds log lines and is left out.
- Service.StoredIff: assumes that `enrich` keeps the timestamp, technology and cell id (`KeepsRequired`), because `ProviderHelper` is not part of this model.
- Service.ScanStoresAll: assumes that `enrich` keeps the timestamp, technology and cell id (`KeepsRequired`), because `ProviderHelper` is not part of this model.
- The `CellData` class is not part of this model. Its initial field values are the parameter `blank`.
- `String.format` locale digits and SQL text are not modelled. Integers print in plain decimal.
- Indexes, cursor windows and failures of `getWritableDatabase`/`getReadableDatabase` are not modelled.
- Latitude, longitude and accuracy are real values that are only copied; float rounding, including `getFloat` on accuracy, is not modelled.
- SQLite leaves the order of rows with equal timestamps unspecified. The model fixes one admissible order (`Table.SortByTimeDesc`: among equal times, the row stored earlier comes first). `AllCellDataSpec`, `RecentCellDataSpec`, `RecentTimes`, `RecentOmitsOnlyOlder` and `NewestInsertReadFirst` hold for every admissible order, because they speak only of time order, multisets or a strictly newest row. The members named on the next three lines depend on the fixed order.
- TableProperties.RecentIsPrefixOfAll: holds for the model's fixed tie order only. Two SQLite queries may break ties differently, so against SQLite only the timestamps of the bounded result are a prefix of the full result's timestamps (`RecentTimes`).
- Database.DatabaseHelper.GetAllCellData: the exact list it ensures orders records of equal timestamp by the model's fixed tie order. SQLite may return those records in another order.
- Database.DatabaseHelper.GetRecentCellData: the exact list it ensures orders records of equal timestamp by the model's fixed tie order. When the limit cuts through a group of equal timestamps, SQLite may also return different members of that group.
- Downgrades (a file newer than version 2) are not modelled.
- The Android helper opens the file lazily, at the first `getWritableDatabase`/`getReadableDatabase`. The model opens it in the constructor. Nothing observable differs, because every modelled operation opens the file first.
- Logging and `MainActivity` are not modelled.
- Database.DatabaseHelper.InsertCellData: Java sets `id` on the caller's `CellData` object. The model returns the updated record instead, so aliasing of that object is not captured.
- Database.DatabaseHelper.GetTotalCellCount: the count is unbounded. `Cursor.getInt` truncation of a count above 2^31-1 is not modelled.
- Service.CellMonitorService.ProcessCellInfo: `totalCellsDetected` is unbounded. The 32-bit wrap-around after 2^31-1 inserts is not modelled.
- Service.CellMonitorService.Valid: the counter follows the id sequence only while this service is the only writer. An insert from elsewhere would break that.
