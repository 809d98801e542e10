/**
 * Functional-group classification of infrared wavenumbers: the band classifier,
 * the pass that labels every row of an uploaded table, and the choice of the rows
 * a spectrum plot annotates.
 */
module FunctionalGroups {
  import opened Wrappers

  const OH_STRETCH: string := "O-H stretch"
  const CH_STRETCH: string := "C-H stretch"
  const CO_DOUBLE_STRETCH: string := "C=O stretch"
  const CO_STRETCH: string := "C-O stretch"
  const CH_BEND: string := "C-H bend"
  const UNKNOWN: string := "Unknown"

  /** The six labels the classifier can return. */
  const LABELS: set<string> := {OH_STRETCH, CH_STRETCH, CO_DOUBLE_STRETCH, CO_STRETCH, CH_BEND, UNKNOWN}

  /** A closed wavenumber interval [low, high] (in cm^-1) and the label it stands for. */
  datatype Band = Band(low: real, high: real, name: string)
  {
    predicate Contains(w: real) {
      low <= w <= high
    }
  }

  /** Two bands overlap when some wavenumber lies in both. */
  predicate Overlap(a: Band, b: Band) {
    a.low <= a.high && b.low <= b.high && a.low <= b.high && b.low <= a.high
  }

  /** The band table, in the order in which the classifier tests the bands. */
  const BANDS: seq<Band> := [
    Band(3200.0, 3600.0, OH_STRETCH),
    Band(2800.0, 3100.0, CH_STRETCH),
    Band(1600.0, 1800.0, CO_DOUBLE_STRETCH),
    Band(1000.0, 1300.0, CO_STRETCH),
    Band(600.0, 800.0, CH_BEND)
  ]

  /** Classifies a wavenumber by the first band that contains it; "Unknown" when none does. */
  function IdentifyFunctionalGroup(w: real): (r: string)
    ensures r in LABELS
  {
    if 3200.0 <= w <= 3600.0 then OH_STRETCH
    else if 2800.0 <= w <= 3100.0 then CH_STRETCH
    else if 1600.0 <= w <= 1800.0 then CO_DOUBLE_STRETCH
    else if 1000.0 <= w <= 1300.0 then CO_STRETCH
    else if 600.0 <= w <= 800.0 then CH_BEND
    else UNKNOWN
  }

  /** Reference classifier over any band table: the label of the first band containing w. */
  function FirstMatch(table: seq<Band>, w: real): string
  {
    if table == [] then UNKNOWN
    else if table[0].Contains(w) then table[0].name
    else FirstMatch(table[1..], w)
  }

  /** No two different bands of the table share a wavenumber. */
  predicate Disjoint(table: seq<Band>) {
    forall a, b :: a in table && b in table && a != b ==> !Overlap(a, b)
  }

  lemma OverlapOfCommonPoint(a: Band, b: Band, w: real)
    requires a.Contains(w) && b.Contains(w)
    ensures Overlap(a, b)
  {
  }

  /** The five bands of the classifier are pairwise disjoint. */
  lemma BandTableDisjoint()
    ensures Disjoint(BANDS)
  {
  }

  /** In a disjoint table, first match returns the label of the one band containing w. */
  lemma {:induction false} FirstMatchUnique(table: seq<Band>, w: real, b: Band)
    requires Disjoint(table)
    requires b in table && b.Contains(w)
    ensures FirstMatch(table, w) == b.name
  {
    if table[0] != b {
      if table[0].Contains(w) {
        OverlapOfCommonPoint(table[0], b, w);
        assert false;
      }
      assert b in table[1..];
      FirstMatchUnique(table[1..], w, b);
    }
  }

  /** When no band contains w, first match returns "Unknown". */
  lemma {:induction false} FirstMatchNone(table: seq<Band>, w: real)
    requires forall b :: b in table ==> !b.Contains(w)
    ensures FirstMatch(table, w) == UNKNOWN
  {
    if table != [] {
      assert table[0] in table;
      FirstMatchNone(table[1..], w);
    }
  }

  /** The if/elif chain is first-match lookup in the band table. */
  lemma IdentifyIsFirstMatch(w: real)
    ensures IdentifyFunctionalGroup(w) == FirstMatch(BANDS, w)
  {
    var t := BANDS;
    assert FirstMatch(t[4..], w) == if 600.0 <= w <= 800.0 then CH_BEND else FirstMatch(t[5..], w);
    assert FirstMatch(t[3..], w) == if 1000.0 <= w <= 1300.0 then CO_STRETCH else FirstMatch(t[4..], w);
    assert FirstMatch(t[2..], w) == if 1600.0 <= w <= 1800.0 then CO_DOUBLE_STRETCH else FirstMatch(t[3..], w);
    assert FirstMatch(t[1..], w) == if 2800.0 <= w <= 3100.0 then CH_STRETCH else FirstMatch(t[2..], w);
    assert t[5..] == [];
  }

  /**
   * The classifier returns a band's label exactly when that band contains w,
   * and "Unknown" exactly when no band contains w.
   */
  lemma ClassifierMatchesBandTable(w: real)
    ensures forall b :: b in BANDS ==> (b.Contains(w) <==> IdentifyFunctionalGroup(w) == b.name)
    ensures IdentifyFunctionalGroup(w) == UNKNOWN <==> forall b :: b in BANDS ==> !b.Contains(w)
  {
  }

  /**
   * The branch order does not matter: any table listing the same bands, in any
   * order, classifies every wavenumber as the classifier does.
   */
  lemma BranchOrderIrrelevant(table: seq<Band>, w: real)
    requires forall b :: b in table <==> b in BANDS
    ensures FirstMatch(table, w) == IdentifyFunctionalGroup(w)
  {
    BandTableDisjoint();
    IdentifyIsFirstMatch(w);
    assert Disjoint(table);
    if b :| b in BANDS && b.Contains(w) {
      FirstMatchUnique(table, w, b);
      FirstMatchUnique(BANDS, w, b);
    } else {
      FirstMatchNone(table, w);
      FirstMatchNone(BANDS, w);
    }
  }

  /** Both ends of every band belong to it; just outside, and at zero or below, is "Unknown". */
  lemma BandBoundaries()
    ensures IdentifyFunctionalGroup(3200.0) == OH_STRETCH && IdentifyFunctionalGroup(3600.0) == OH_STRETCH
    ensures IdentifyFunctionalGroup(3199.999) == UNKNOWN && IdentifyFunctionalGroup(3601.0) == UNKNOWN
    ensures IdentifyFunctionalGroup(2800.0) == CH_STRETCH && IdentifyFunctionalGroup(3100.0) == CH_STRETCH
    ensures IdentifyFunctionalGroup(1600.0) == CO_DOUBLE_STRETCH && IdentifyFunctionalGroup(1800.0) == CO_DOUBLE_STRETCH
    ensures IdentifyFunctionalGroup(1000.0) == CO_STRETCH && IdentifyFunctionalGroup(1300.0) == CO_STRETCH
    ensures IdentifyFunctionalGroup(600.0) == CH_BEND && IdentifyFunctionalGroup(800.0) == CH_BEND
    ensures IdentifyFunctionalGroup(0.0) == UNKNOWN && IdentifyFunctionalGroup(-3400.0) == UNKNOWN
  {
  }

  // ----- Tables of samples -----

  const WAVENUMBER: string := "Wavenumber"
  const ABSORBANCE: string := "Absorbance"
  const MISSING_COLUMNS: string := "CSV file must contain 'Wavenumber' and 'Absorbance' columns."
  const CSV_ERROR_PREFIX: string := "Error processing CSV file: "

  /** Named numeric columns over a common number of rows. */
  datatype Table = Table(height: nat, columns: map<string, seq<real>>)
  {
    predicate Rectangular() {
      forall c :: c in columns ==> |columns[c]| == height
    }
  }

  /** A data frame: every column has one value per row. */
  type Frame = t: Table | t.Rectangular() witness Table(0, map[])

  predicate HasSpectrumColumns(df: Frame) {
    WAVENUMBER in df.columns && ABSORBANCE in df.columns
  }

  /** A row's wavenumber, absorbance and functional group. */
  datatype GroupRecord = GroupRecord(wavenumber: real, absorbance: real, functionalGroup: string)

  /** The record the source builds for row i of a frame. */
  function RowRecord(df: Frame, i: nat): GroupRecord
    requires HasSpectrumColumns(df) && i < df.height
  {
    var w := df.columns[WAVENUMBER][i];
    GroupRecord(w, df.columns[ABSORBANCE][i], IdentifyFunctionalGroup(w))
  }

  /**
   * Labels every row of a parsed table. `csv` is the outcome of reading the
   * upload; every failure, including a missing column, comes back prefixed.
   */
  method ProcessCsvAndIdentifyGroups(csv: Result<Frame, string>) returns (r: Result<seq<GroupRecord>, string>)
    ensures csv.Err? ==> r == Err(CSV_ERROR_PREFIX + csv.error)
    ensures csv.Ok? && !HasSpectrumColumns(csv.value) ==> r == Err(CSV_ERROR_PREFIX + MISSING_COLUMNS)
    ensures csv.Ok? && HasSpectrumColumns(csv.value) ==>
      r.Ok? && |r.value| == csv.value.height &&
      forall i :: 0 <= i < |r.value| ==> r.value[i] == RowRecord(csv.value, i)
  {
    if csv.Err? {
      return Err(CSV_ERROR_PREFIX + csv.error);
    }
    var df := csv.value;
    if WAVENUMBER !in df.columns || ABSORBANCE !in df.columns {
      return Err(CSV_ERROR_PREFIX + MISSING_COLUMNS);
    }
    var wavenumbers, absorbance := df.columns[WAVENUMBER], df.columns[ABSORBANCE];
    var results: seq<GroupRecord> := [];
    var i := 0;
    while i < df.height
      invariant i <= df.height
      invariant |results| == i
      invariant forall k :: 0 <= k < i ==> results[k] == RowRecord(df, k)
    {
      var w := wavenumbers[i];
      results := results + [GroupRecord(w, absorbance[i], IdentifyFunctionalGroup(w))];
      i := i + 1;
    }
    return Ok(results);
  }

  /** The rows below n whose wavenumber has a known functional group, in row order. */
  function KnownRowsBelow(wavenumbers: seq<real>, n: nat): (r: seq<nat>)
    requires n <= |wavenumbers|
    ensures forall k :: 0 <= k < |r| ==> r[k] < n
  {
    if n == 0 then []
    else if IdentifyFunctionalGroup(wavenumbers[n - 1]) != UNKNOWN then KnownRowsBelow(wavenumbers, n - 1) + [n - 1]
    else KnownRowsBelow(wavenumbers, n - 1)
  }

  /** One more row is kept exactly when its label is known. */
  lemma KnownRowsStep(wavenumbers: seq<real>, n: nat)
    requires n < |wavenumbers|
    ensures KnownRowsBelow(wavenumbers, n + 1) ==
      if IdentifyFunctionalGroup(wavenumbers[n]) != UNKNOWN then KnownRowsBelow(wavenumbers, n) + [n]
      else KnownRowsBelow(wavenumbers, n)
  {
  }

  /** The selected rows are in ascending order. */
  lemma {:induction false} KnownRowsAscending(wavenumbers: seq<real>, n: nat)
    requires n <= |wavenumbers|
    ensures forall k, l :: 0 <= k < l < |KnownRowsBelow(wavenumbers, n)| ==>
      KnownRowsBelow(wavenumbers, n)[k] < KnownRowsBelow(wavenumbers, n)[l]
  {
    if n > 0 {
      KnownRowsAscending(wavenumbers, n - 1);
    }
  }

  /** A row below n is selected exactly when its label is not "Unknown". */
  lemma {:induction false} KnownRowsAreExactlyTheKnown(wavenumbers: seq<real>, n: nat)
    requires n <= |wavenumbers|
    ensures forall i :: 0 <= i < n ==>
      (i in KnownRowsBelow(wavenumbers, n) <==> IdentifyFunctionalGroup(wavenumbers[i]) != UNKNOWN)
  {
    if n > 0 {
      KnownRowsAreExactlyTheKnown(wavenumbers, n - 1);
      var rest := KnownRowsBelow(wavenumbers, n - 1);
      assert (n - 1) !in rest;
    }
  }

  /**
   * The annotation loop over a table's two columns: one record for each row
   * whose functional group is known, in row order.
   */
  method KnownPoints(wavenumbers: seq<real>, absorbance: seq<real>) returns (annotations: seq<GroupRecord>)
    requires |absorbance| == |wavenumbers|
    ensures |annotations| == |KnownRowsBelow(wavenumbers, |wavenumbers|)|
    ensures forall k :: 0 <= k < |annotations| ==>
      var row := KnownRowsBelow(wavenumbers, |wavenumbers|)[k];
      annotations[k] == GroupRecord(wavenumbers[row], absorbance[row], IdentifyFunctionalGroup(wavenumbers[row]))
  {
    annotations := [];
    ghost var rows: seq<nat> := [];
    var i := 0;
    while i < |wavenumbers|
      invariant i <= |wavenumbers|
      invariant rows == KnownRowsBelow(wavenumbers, i)
      invariant |annotations| == |rows|
      invariant forall k :: 0 <= k < |rows| ==>
        annotations[k] == GroupRecord(wavenumbers[rows[k]], absorbance[rows[k]], IdentifyFunctionalGroup(wavenumbers[rows[k]]))
    {
      var w := wavenumbers[i];
      var group := IdentifyFunctionalGroup(w);
      KnownRowsStep(wavenumbers, i);
      if group != UNKNOWN {
        annotations := annotations + [GroupRecord(w, absorbance[i], group)];
        rows := rows + [i];
      }
      i := i + 1;
    }
  }

  /**
   * The points a spectrum plot annotates: the rows whose functional group is
   * known, in row order.
   */
  method AnnotatedPoints(df: Frame) returns (r: Result<seq<GroupRecord>, string>)
    ensures !HasSpectrumColumns(df) ==> r == Err(MISSING_COLUMNS)
    ensures HasSpectrumColumns(df) ==>
      var rows := KnownRowsBelow(df.columns[WAVENUMBER], df.height);
      r.Ok? && |r.value| == |rows| &&
      forall k :: 0 <= k < |rows| ==> r.value[k] == RowRecord(df, rows[k])
  {
    if WAVENUMBER !in df.columns || ABSORBANCE !in df.columns {
      return Err(MISSING_COLUMNS);
    }
    var annotations := KnownPoints(df.columns[WAVENUMBER], df.columns[ABSORBANCE]);
    return Ok(annotations);
  }
}
