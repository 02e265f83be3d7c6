/** The ContentValues encoding of `insertCellData` against the getters of
    `cursorToCellData`: what is written is what is read. */
module RowCodec {

  import opened Nullable
  import opened CellRecord
  import opened Table

  /** Every encoded value has its column's declared storage class. */
  lemma EncodeFits(c: CellData, col: Column)
    ensures Fits(col, Encode(c, col))
  {
  }

  /** Each column but `_id` of the inserted row holds its encoded field. */
  lemma StoredCell(c: CellData, id: int, col: Column)
    requires col != ColId
    ensures Cell(Row(id, ContentValues(c)), col) == Encode(c, col)
  {
  }

  /** The getters undo the ContentValues encoding: `isRegistered` goes in as
      1/0 and comes out as `== 1`, a null text as NULL and back. */
  lemma DecodeEncoded(c: CellData, id: int)
    requires c.timestamp.Some?
    ensures Decode(Row(id, ContentValues(c))) == c.(id := id)
  {
    TimestampReadsBack(c, id);
    TechnologyReadsBack(c, id);
    CellIdReadsBack(c, id);
    LacReadsBack(c, id);
    MccReadsBack(c, id);
    MncReadsBack(c, id);
    SignalStrengthReadsBack(c, id);
    IsRegisteredReadsBack(c, id);
    LatitudeReadsBack(c, id);
    LongitudeReadsBack(c, id);
    AccuracyReadsBack(c, id);
    PciReadsBack(c, id);
    PscReadsBack(c, id);
    BsicReadsBack(c, id);
    EarfcnReadsBack(c, id);
    UarfcnReadsBack(c, id);
    ArfcnReadsBack(c, id);
    NrarfcnReadsBack(c, id);
    AdditionalInfoReadsBack(c, id);
  }

  // One lemma per column: each getter of `cursorToCellData` returns the field
  // that `insertCellData` put into that column.

  lemma TimestampReadsBack(c: CellData, id: int)
    requires c.timestamp.Some?
    ensures Decode(Row(id, ContentValues(c))).timestamp == c.timestamp
  {
    StoredCell(c, id, ColTimestamp);
  }

  lemma TechnologyReadsBack(c: CellData, id: int)
    ensures Decode(Row(id, ContentValues(c))).technology == c.technology
  {
    StoredCell(c, id, ColTechnology);
  }

  lemma CellIdReadsBack(c: CellData, id: int)
    ensures Decode(Row(id, ContentValues(c))).cellId == c.cellId
  {
    StoredCell(c, id, ColCellId);
  }

  lemma LacReadsBack(c: CellData, id: int)
    ensures Decode(Row(id, ContentValues(c))).lac == c.lac
  {
    StoredCell(c, id, ColLac);
  }

  lemma MccReadsBack(c: CellData, id: int)
    ensures Decode(Row(id, ContentValues(c))).mcc == c.mcc
  {
    StoredCell(c, id, ColMcc);
  }

  lemma MncReadsBack(c: CellData, id: int)
    ensures Decode(Row(id, ContentValues(c))).mnc == c.mnc
  {
    StoredCell(c, id, ColMnc);
  }

  lemma SignalStrengthReadsBack(c: CellData, id: int)
    ensures Decode(Row(id, ContentValues(c))).signalStrength == c.signalStrength
  {
    StoredCell(c, id, ColSignalStrength);
  }

  lemma IsRegisteredReadsBack(c: CellData, id: int)
    ensures Decode(Row(id, ContentValues(c))).isRegistered == c.isRegistered
  {
    StoredCell(c, id, ColIsRegistered);
  }

  lemma LatitudeReadsBack(c: CellData, id: int)
    ensures Decode(Row(id, ContentValues(c))).latitude == c.latitude
  {
    StoredCell(c, id, ColLatitude);
  }

  lemma LongitudeReadsBack(c: CellData, id: int)
    ensures Decode(Row(id, ContentValues(c))).longitude == c.longitude
  {
    StoredCell(c, id, ColLongitude);
  }

  lemma AccuracyReadsBack(c: CellData, id: int)
    ensures Decode(Row(id, ContentValues(c))).accuracy == c.accuracy
  {
    StoredCell(c, id, ColAccuracy);
  }

  lemma PciReadsBack(c: CellData, id: int)
    ensures Decode(Row(id, ContentValues(c))).pci == c.pci
  {
    StoredCell(c, id, ColPci);
  }

  lemma PscReadsBack(c: CellData, id: int)
    ensures Decode(Row(id, ContentValues(c))).psc == c.psc
  {
    StoredCell(c, id, ColPsc);
  }

  lemma BsicReadsBack(c: CellData, id: int)
    ensures Decode(Row(id, ContentValues(c))).bsic == c.bsic
  {
    StoredCell(c, id, ColBsic);
  }

  lemma EarfcnReadsBack(c: CellData, id: int)
    ensures Decode(Row(id, ContentValues(c))).earfcn == c.earfcn
  {
    StoredCell(c, id, ColEarfcn);
  }

  lemma UarfcnReadsBack(c: CellData, id: int)
    ensures Decode(Row(id, ContentValues(c))).uarfcn == c.uarfcn
  {
    StoredCell(c, id, ColUarfcn);
  }

  lemma ArfcnReadsBack(c: CellData, id: int)
    ensures Decode(Row(id, ContentValues(c))).arfcn == c.arfcn
  {
    StoredCell(c, id, ColArfcn);
  }

  lemma NrarfcnReadsBack(c: CellData, id: int)
    ensures Decode(Row(id, ContentValues(c))).nrarfcn == c.nrarfcn
  {
    StoredCell(c, id, ColNrarfcn);
  }

  lemma AdditionalInfoReadsBack(c: CellData, id: int)
    ensures Decode(Row(id, ContentValues(c))).additionalInfo == c.additionalInfo
  {
    StoredCell(c, id, ColAdditionalInfo);
  }

  /** Reading back a stored row gives the inserted record with its id. */
  lemma ReadBackRoundTrip(c: CellData, id: int, cols: seq<Column>)
    requires HasReadColumns(cols)
    requires c.timestamp.Some?
    ensures CursorToCellData(Row(id, ContentValues(c)), cols) == Some(c.(id := id))
  {
    DecodeEncoded(c, id);
  }
}
