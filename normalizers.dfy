/** The four per-technology normalisers of `CellMonitorService` and the
    dispatch over the kind of reading. Each normaliser is a function from a
    reading and the record built so far to the updated record. */
module Normalizers {

  import opened Nullable
  import opened JavaBits
  import opened Strings
  import opened CellRecord

  // ---------------------------------------------------------------------------
  // Readings: identity and signal-strength pairs, as the platform getters
  // return them (no conversion of "unavailable" values is applied).

  datatype LteIdentity = LteIdentity(ci: Int32, tac: Int32, mccString: Option<string>,
                                     mncString: Option<string>, pci: Int32, earfcn: Int32)
  datatype LteSignal = LteSignal(dbm: Int32, rsrp: Int32, rsrq: Int32, rssnr: Int32,
                                 cqi: Int32, timingAdvance: Int32)

  datatype GsmIdentity = GsmIdentity(cid: Int32, lac: Int32, mccString: Option<string>,
                                     mncString: Option<string>, arfcn: Int32, bsic: Int32)
  datatype GsmSignal = GsmSignal(dbm: Int32, timingAdvance: Int32, bitErrorRate: Int32)

  datatype WcdmaIdentity = WcdmaIdentity(cid: Int32, lac: Int32, mccString: Option<string>,
                                         mncString: Option<string>, psc: Int32, uarfcn: Int32)
  datatype WcdmaSignal = WcdmaSignal(dbm: Int32, ecNo: Int32)

  datatype NrIdentity = NrIdentity(nci: Int64, tac: Int32, mccString: Option<string>,
                                   mncString: Option<string>, pci: Int32, nrarfcn: Int32)
  datatype NrSignal = NrSignal(dbm: Int32, ssRsrp: Int32, ssRsrq: Int32, ssSinr: Int32)

  /** The run-time class of a `CellInfo`: one case per class the dispatch
      recognises, and one for every other class. */
  datatype CellKind =
    | Lte(lteId: LteIdentity, lteSignal: LteSignal)
    | Gsm(gsmId: GsmIdentity, gsmSignal: GsmSignal)
    | Wcdma(wcdmaId: WcdmaIdentity, wcdmaSignal: WcdmaSignal)
    | Nr(nrId: NrIdentity, nrSignal: NrSignal)
    | Unrecognized

  datatype CellInfo = CellInfo(registered: bool, kind: CellKind)

  // ---------------------------------------------------------------------------
  // Diagnostic strings: a list of labelled integers rendered as
  // `label:value,label:value,...`, which is what the format strings print.

  datatype DiagField = DiagField(name: string, value: int)

  function Entry(f: DiagField): string
  {
    f.name + ":" + DecimalString(f.value)
  }

  function Render(fs: seq<DiagField>): string
  {
    if |fs| == 0 then ""
    else if |fs| == 1 then Entry(fs[0])
    else Entry(fs[0]) + "," + Render(fs[1..])
  }

  function Labels(fs: seq<DiagField>): seq<string>
  {
    seq(|fs|, i requires 0 <= i < |fs| => fs[i].name)
  }

  function LteDiagnostic(id: LteIdentity, sig: LteSignal): seq<DiagField>
  {
    [DiagField("eNodeB", ShiftRight(id.ci, 8)), DiagField("Sector", MaskLow(id.ci, 8)),
     DiagField("RSRP", sig.rsrp), DiagField("RSRQ", sig.rsrq), DiagField("RSSNR", sig.rssnr),
     DiagField("CQI", sig.cqi), DiagField("TimingAdvance", sig.timingAdvance)]
  }

  function GsmDiagnostic(id: GsmIdentity, sig: GsmSignal): seq<DiagField>
  {
    [DiagField("BSIC", id.bsic), DiagField("TimingAdvance", sig.timingAdvance),
     DiagField("BitErrorRate", sig.bitErrorRate)]
  }

  function WcdmaDiagnostic(id: WcdmaIdentity, sig: WcdmaSignal): seq<DiagField>
  {
    [DiagField("PSC", id.psc), DiagField("CPICH_RSCP", sig.dbm), DiagField("CPICH_EcNo", sig.ecNo)]
  }

  function NrDiagnostic(id: NrIdentity, sig: NrSignal): seq<DiagField>
  {
    [DiagField("gNodeB", ShiftRight(id.nci, 12)), DiagField("SS-RSRP", sig.ssRsrp),
     DiagField("SS-RSRQ", sig.ssRsrq), DiagField("SS-SINR", sig.ssSinr)]
  }

  // ---------------------------------------------------------------------------
  // The normalisers.

  function ProcessCellInfoLte(id: LteIdentity, sig: LteSignal, c: CellData): (r: CellData)
    ensures r.technology == Some("LTE")
    ensures r.cellId == Some(DecimalString(id.ci)) && r.lac == Some(DecimalString(id.tac))
    ensures r.mcc == Some(ValueOf(id.mccString)) && r.mnc == Some(ValueOf(id.mncString))
    ensures r.signalStrength == sig.dbm
    ensures r.pci == id.pci && r.earfcn == id.earfcn
    ensures AuxUnchangedExcept(c, r, {Pci, Earfcn})
    ensures SameCapture(c, r)
    ensures r.additionalInfo == Some(Render(LteDiagnostic(id, sig)))
  {
    c.(technology := Some("LTE"),
       cellId := Some(DecimalString(id.ci)),
       lac := Some(DecimalString(id.tac)),
       mcc := Some(ValueOf(id.mccString)),
       mnc := Some(ValueOf(id.mncString)),
       signalStrength := sig.dbm,
       pci := id.pci,
       earfcn := id.earfcn,
       additionalInfo := Some(Render(LteDiagnostic(id, sig))))
  }

  function ProcessCellInfoGsm(id: GsmIdentity, sig: GsmSignal, c: CellData): (r: CellData)
    ensures r.technology == Some("GSM")
    ensures r.cellId == Some(DecimalString(id.cid)) && r.lac == Some(DecimalString(id.lac))
    ensures r.mcc == Some(ValueOf(id.mccString)) && r.mnc == Some(ValueOf(id.mncString))
    ensures r.signalStrength == sig.dbm
    ensures r.arfcn == id.arfcn && r.bsic == id.bsic
    ensures AuxUnchangedExcept(c, r, {Arfcn, Bsic})
    ensures SameCapture(c, r)
    ensures r.additionalInfo == Some(Render(GsmDiagnostic(id, sig)))
  {
    c.(technology := Some("GSM"),
       cellId := Some(DecimalString(id.cid)),
       lac := Some(DecimalString(id.lac)),
       mcc := Some(ValueOf(id.mccString)),
       mnc := Some(ValueOf(id.mncString)),
       signalStrength := sig.dbm,
       arfcn := id.arfcn,
       bsic := id.bsic,
       additionalInfo := Some(Render(GsmDiagnostic(id, sig))))
  }

  function ProcessCellInfoWcdma(id: WcdmaIdentity, sig: WcdmaSignal, c: CellData): (r: CellData)
    ensures r.technology == Some("WCDMA")
    ensures r.cellId == Some(DecimalString(id.cid)) && r.lac == Some(DecimalString(id.lac))
    ensures r.mcc == Some(ValueOf(id.mccString)) && r.mnc == Some(ValueOf(id.mncString))
    ensures r.signalStrength == sig.dbm
    ensures r.psc == id.psc && r.uarfcn == id.uarfcn
    ensures AuxUnchangedExcept(c, r, {Psc, Uarfcn})
    ensures SameCapture(c, r)
    ensures r.additionalInfo == Some(Render(WcdmaDiagnostic(id, sig)))
  {
    c.(technology := Some("WCDMA"),
       cellId := Some(DecimalString(id.cid)),
       lac := Some(DecimalString(id.lac)),
       mcc := Some(ValueOf(id.mccString)),
       mnc := Some(ValueOf(id.mncString)),
       signalStrength := sig.dbm,
       psc := id.psc,
       uarfcn := id.uarfcn,
       additionalInfo := Some(Render(WcdmaDiagnostic(id, sig))))
  }

  function ProcessCellInfoNr(id: NrIdentity, sig: NrSignal, c: CellData): (r: CellData)
    ensures r.technology == Some("NR")
    ensures r.cellId == Some(DecimalString(id.nci)) && r.lac == Some(DecimalString(id.tac))
    ensures r.mcc == Some(ValueOf(id.mccString)) && r.mnc == Some(ValueOf(id.mncString))
    ensures r.signalStrength == sig.dbm
    ensures r.pci == id.pci && r.nrarfcn == id.nrarfcn
    ensures AuxUnchangedExcept(c, r, {Pci, Nrarfcn})
    ensures SameCapture(c, r)
    ensures r.additionalInfo == Some(Render(NrDiagnostic(id, sig)))
  {
    c.(technology := Some("NR"),
       cellId := Some(DecimalString(id.nci)),
       lac := Some(DecimalString(id.tac)),
       mcc := Some(ValueOf(id.mccString)),
       mnc := Some(ValueOf(id.mncString)),
       signalStrength := sig.dbm,
       pci := id.pci,
       nrarfcn := id.nrarfcn,
       additionalInfo := Some(Render(NrDiagnostic(id, sig))))
  }

  // ---------------------------------------------------------------------------
  // Dispatch.

  function TechnologyName(k: CellKind): string
    requires !k.Unrecognized?
  {
    match k
    case Lte(_, _) => "LTE"
    case Gsm(_, _) => "GSM"
    case Wcdma(_, _) => "WCDMA"
    case Nr(_, _) => "NR"
  }

  /** The auxiliary fields the normaliser for `k` writes. */
  function OwnAux(k: CellKind): set<Aux>
  {
    match k
    case Lte(_, _) => {Pci, Earfcn}
    case Gsm(_, _) => {Arfcn, Bsic}
    case Wcdma(_, _) => {Psc, Uarfcn}
    case Nr(_, _) => {Pci, Nrarfcn}
    case Unrecognized => {}
  }

  /** The cell's primary identity: ci, cid or nci. */
  function PrimaryId(k: CellKind): int
    requires !k.Unrecognized?
  {
    match k
    case Lte(id, _) => id.ci
    case Gsm(id, _) => id.cid
    case Wcdma(id, _) => id.cid
    case Nr(id, _) => id.nci
  }

  /** The `instanceof` chain: exactly the normaliser for the reading's class
      runs, and an unrecognised reading leaves the record as it was. */
  function Dispatch(k: CellKind, c: CellData): (r: CellData)
    ensures k.Unrecognized? ==> r == c
    ensures !k.Unrecognized? ==> r.technology == Some(TechnologyName(k))
    ensures !k.Unrecognized? ==> r.cellId == Some(DecimalString(PrimaryId(k)))
    ensures AuxUnchangedExcept(c, r, OwnAux(k))
    ensures SameCapture(c, r)
  {
    match k
    case Lte(id, sig) => ProcessCellInfoLte(id, sig, c)
    case Gsm(id, sig) => ProcessCellInfoGsm(id, sig, c)
    case Wcdma(id, sig) => ProcessCellInfoWcdma(id, sig, c)
    case Nr(id, sig) => ProcessCellInfoNr(id, sig, c)
    case Unrecognized => c
  }

  // ---------------------------------------------------------------------------
  // Properties.

  /** The stored cell id is the decimal rendering of the reading's primary
      identity: parsing it back gives that identity. */
  lemma CellIdRoundTrip(k: CellKind, c: CellData)
    requires !k.Unrecognized?
    ensures Dispatch(k, c).cellId.Some?
    ensures ParseDecimal(Dispatch(k, c).cellId.value) == PrimaryId(k)
  {
    DecimalRoundTrip(PrimaryId(k));
  }

  /** The LTE site/sector split: `ci >> 8` and `ci & 0xFF` put `ci` back
      together, the sector is one byte, and both are Euclidean division and
      remainder by 256. */
  lemma LteSiteSectorSplit(ci: Int32)
    ensures 0 <= MaskLow(ci, 8) <= 255
    ensures ShiftRight(ci, 8) * 256 + MaskLow(ci, 8) == ci
    ensures ShiftRight(ci, 8) == ci / 256 && MaskLow(ci, 8) == ci % 256
  {
    ShiftMaskSplit(ci, 8);
    ShiftIsFloorDiv(ci, 8);
    assert Pow2(8) == 256;
  }

  /** The NR site component is `nci` divided by 4096, rounded down. */
  lemma NrSiteIsFloorDiv(nci: Int64)
    ensures ShiftRight(nci, 12) == nci / 4096
    ensures ShiftRight(nci, 12) * 4096 <= nci < (ShiftRight(nci, 12) + 1) * 4096
  {
    ShiftIsFloorDiv(nci, 12);
    assert Pow2(12) == 4096;
  }

  lemma RenderUnfold(fs: seq<DiagField>)
    requires |fs| >= 2
    ensures Render(fs) == Entry(fs[0]) + "," + Render(fs[1..])
  {
  }

  lemma JoinAssoc(a: string, b: string, t: string)
    ensures a + "," + (b + "," + t) == (a + "," + b + ",") + t
  {
  }

  lemma RenderStartsWithFirstTwo(fs: seq<DiagField>)
    requires |fs| >= 3
    ensures StartsWith(Render(fs), Entry(fs[0]) + "," + Entry(fs[1]) + ",")
  {
    var a, b := Entry(fs[0]), Entry(fs[1]);
    RenderUnfold(fs);
    RenderUnfold(fs[1..]);
    assert fs[1..][0] == fs[1] && fs[1..][1..] == fs[2..];
    var tail := Render(fs[2..]);
    var p := a + "," + b + ",";
    assert Render(fs) == a + "," + (b + "," + tail);
    JoinAssoc(a, b, tail);
    StartsWithConcat(p, tail);
  }

  /** Every field of the list appears, rendered, in the string. */
  lemma {:induction false} RenderContains(fs: seq<DiagField>, k: nat)
    requires k < |fs|
    ensures Contains(Render(fs), Entry(fs[k]))
    decreases |fs|
  {
    var first := Entry(fs[0]);
    if |fs| == 1 {
      OccursAtStart(first, "");
      assert first + "" == Render(fs);
    } else {
      var tail := Render(fs[1..]);
      assert Render(fs) == (first + ",") + tail;
      if k == 0 {
        OccursAtStart(first, ",");
        OccursAtExtend(first + ",", first, 0, tail);
      } else {
        RenderContains(fs[1..], k - 1);
        assert fs[1..][k - 1] == fs[k];
        ContainsAfter(first + ",", tail, Entry(fs[k]));
      }
    }
  }

  /** The LTE diagnostic string leads with the site and sector of the cell id
      (`eNodeB:<site>,Sector:<sector>,`), which put the id back together. */
  lemma LteDiagnosticLeadsWithSplit(id: LteIdentity, sig: LteSignal, c: CellData)
    ensures var r := ProcessCellInfoLte(id, sig, c);
      var site, sector := ShiftRight(id.ci, 8), MaskLow(id.ci, 8);
      && r.additionalInfo.Some?
      && StartsWith(r.additionalInfo.value,
                    Entry(DiagField("eNodeB", site)) + "," + Entry(DiagField("Sector", sector)) + ",")
      && 0 <= sector <= 255 && site * 256 + sector == id.ci
  {
    LteSiteSectorSplit(id.ci);
    RenderStartsWithFirstTwo(LteDiagnostic(id, sig));
  }

  /** The NR diagnostic string leads with the site component `nci >> 12`
      (`gNodeB:<nci / 4096>,`) and carries no sector field. */
  lemma NrDiagnosticShape(id: NrIdentity, sig: NrSignal, c: CellData)
    ensures var r := ProcessCellInfoNr(id, sig, c);
      && r.additionalInfo.Some?
      && StartsWith(r.additionalInfo.value, Entry(DiagField("gNodeB", id.nci / 4096)) + ",")
      && Labels(NrDiagnostic(id, sig)) == ["gNodeB", "SS-RSRP", "SS-RSRQ", "SS-SINR"]
      && "Sector" !in Labels(NrDiagnostic(id, sig))
  {
    NrSiteIsFloorDiv(id.nci);
    var fs := NrDiagnostic(id, sig);
    RenderUnfold(fs);
    StartsWithConcat(Entry(fs[0]) + ",", Render(fs[1..]));
    var ls := Labels(fs);
    assert ls == ["gNodeB", "SS-RSRP", "SS-RSRQ", "SS-SINR"];
  }

  /** Every field but the last appears, rendered and followed by its comma
      separator, in the string. */
  lemma {:induction false} RenderContainsDelimited(fs: seq<DiagField>, k: nat)
    requires k + 1 < |fs|
    ensures Contains(Render(fs), Entry(fs[k]) + ",")
    decreases |fs|
  {
    var first := Entry(fs[0]);
    var tail := Render(fs[1..]);
    RenderUnfold(fs);
    assert Render(fs) == (first + ",") + tail;
    if k == 0 {
      OccursAtStart(first + ",", tail);
    } else {
      RenderContainsDelimited(fs[1..], k - 1);
      assert fs[1..][k - 1] == fs[k];
      ContainsAfter(first + ",", tail, Entry(fs[k]) + ",");
    }
  }

  /** The WCDMA diagnostic's CPICH_RSCP is the record's signal strength: the
      string opens with the psc and that value, each closed by a comma, and
      `CPICH_RSCP:<dBm>,` occurs in it. */
  lemma WcdmaRscpAgrees(id: WcdmaIdentity, sig: WcdmaSignal, c: CellData)
    ensures var r := ProcessCellInfoWcdma(id, sig, c);
      && r.additionalInfo.Some?
      && StartsWith(r.additionalInfo.value, Entry(DiagField("PSC", r.psc)) + ","
                                            + Entry(DiagField("CPICH_RSCP", r.signalStrength)) + ",")
      && Contains(r.additionalInfo.value, Entry(DiagField("CPICH_RSCP", r.signalStrength)) + ",")
  {
    RenderStartsWithFirstTwo(WcdmaDiagnostic(id, sig));
    RenderContainsDelimited(WcdmaDiagnostic(id, sig), 1);
  }

  /** The GSM diagnostic's BSIC is the record's bsic: the string opens with
      `BSIC:<bsic>,`. */
  lemma GsmBsicAgrees(id: GsmIdentity, sig: GsmSignal, c: CellData)
    ensures var r := ProcessCellInfoGsm(id, sig, c);
      && r.additionalInfo.Some?
      && StartsWith(r.additionalInfo.value, Entry(DiagField("BSIC", r.bsic)) + ",")
      && Contains(r.additionalInfo.value, Entry(DiagField("BSIC", r.bsic)) + ",")
  {
    var fs := GsmDiagnostic(id, sig);
    RenderUnfold(fs);
    StartsWithConcat(Entry(fs[0]) + ",", Render(fs[1..]));
    RenderContainsDelimited(fs, 0);
  }
}
