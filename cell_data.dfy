/** The flat record one cell reading becomes (`CellData`), with the field
    types its uses in the store give it. */
module CellRecord {

  import opened Nullable

  /** One normalised observation. String fields may be null; `timestamp` is
      kept nullable so that the store's NOT NULL check can be stated. */
  datatype CellData = CellData(
    id: int,
    timestamp: Option<int>,
    technology: Option<string>,
    cellId: Option<string>,
    lac: Option<string>,
    mcc: Option<string>,
    mnc: Option<string>,
    signalStrength: int,
    isRegistered: bool,
    latitude: real,
    longitude: real,
    accuracy: real,
    pci: int,
    psc: int,
    bsic: int,
    earfcn: int,
    uarfcn: int,
    arfcn: int,
    nrarfcn: int,
    additionalInfo: Option<string>)

  /** The seven technology-specific auxiliary fields. */
  datatype Aux = Pci | Psc | Bsic | Earfcn | Uarfcn | Arfcn | Nrarfcn

  function AuxValue(c: CellData, a: Aux): int
  {
    match a
    case Pci => c.pci
    case Psc => c.psc
    case Bsic => c.bsic
    case Earfcn => c.earfcn
    case Uarfcn => c.uarfcn
    case Arfcn => c.arfcn
    case Nrarfcn => c.nrarfcn
  }

  /** `r` differs from `c` at most in the auxiliary fields listed in `own`. */
  predicate AuxUnchangedExcept(c: CellData, r: CellData, own: set<Aux>)
  {
    forall a :: a !in own ==> AuxValue(r, a) == AuxValue(c, a)
  }

  /** The capture context a normaliser must not touch: the store id, the time
      stamp, the registration flag and the location. */
  predicate SameCapture(c: CellData, r: CellData)
  {
    && r.id == c.id
    && r.timestamp == c.timestamp
    && r.isRegistered == c.isRegistered
    && r.latitude == c.latitude
    && r.longitude == c.longitude
    && r.accuracy == c.accuracy
  }
}
