/** `apply_te` (AB_degil_01/app.py:67-92): target encoding of the district
    and neighbourhood columns from the lookup tables stored with the model. */
module TargetEncoding {
  import opened Text
  import opened Frames

  /** A role's `maps`: per-category mean, median and count, and the global
      fallbacks (`None` when the key is absent, which reads as 0.0). */
  datatype Tables = Tables(
    mean: map<string, real>,
    med: map<string, real>,
    cnt: map<string, real>,
    globalMean: Option<real>,
    globalMed: Option<real>)

  /** A role's entry of `te_maps`: the source column (`""` when absent) and
      its tables (`None` when `maps` is absent or empty). A role whose entry is
      absent or empty is not a key of the encoding map. */
  datatype Encoding = Encoding(col: string, maps: Option<Tables>)

  function OrZero(x: Option<real>): real {
    if x.Some? then x.value else 0.0
  }

  /** `k.map(table).fillna(fallback)` for the one row. */
  function Lookup(table: map<string, real>, key: string, fallback: real): (v: real)
    ensures key in table ==> v == table[key]
    ensures key !in table ==> v == fallback
  {
    if key in table then table[key] else fallback
  }

  /** `str(cell)`, with `str` of a number left to `show`. */
  function CellKey(v: Value, show: real -> string): string {
    match v
    case Str(s) => s
    case Num(x) => show(x)
    case Missing => "nan"
  }

  function MeanCol(col: string): string { "te_" + col + "_mean" }
  function MedCol(col: string): string { "te_" + col + "_med" }
  function CntCol(col: string): string { "te_" + col + "_cnt" }

  /** Whether `apply_one(role)` does anything to `r`. */
  predicate Configured(r: Row, te: map<string, Encoding>, role: string) {
    role in te && te[role].col != [] && te[role].col in r.cells && te[role].maps.Some?
  }

  /** `apply_one(role)` on the copied frame. */
  function ApplyOneRow(r: Row, te: map<string, Encoding>, role: string, show: real -> string): Row {
    if !Configured(r, te, role) then r
    else
      var col := te[role].col;
      var t := te[role].maps.value;
      var k := CellKey(r.cells[col], show);
      var r1 := AssignRow(r, MeanCol(col), Num(Lookup(t.mean, k, OrZero(t.globalMean))));
      var r2 := AssignRow(r1, MedCol(col), Num(Lookup(t.med, k, OrZero(t.globalMed))));
      AssignRow(r2, CntCol(col), Num(Lookup(t.cnt, k, 0.0)))
  }

  /** `apply_te`: district first, then neighbourhood. */
  function Encoded(r: Row, te: map<string, Encoding>, show: real -> string): Row {
    ApplyOneRow(ApplyOneRow(r, te, "district", show), te, "neighborhood", show)
  }

  lemma MeanMedCntDistinct(col: string)
    ensures MeanCol(col) != MedCol(col) && MedCol(col) != CntCol(col) && MeanCol(col) != CntCol(col)
  {
    var p := "te_" + col;
    assert MeanCol(col) == p + "_mean" && MedCol(col) == p + "_med" && CntCol(col) == p + "_cnt";
    assert MeanCol(col)[|p| + 2] == 'e' && MedCol(col)[|p| + 2] == 'e' && CntCol(col)[|p| + 2] == 'n';
    assert MeanCol(col)[|p| + 3] == 'a' && MedCol(col)[|p| + 3] == 'd';
  }

  /** The encoded columns are new names, never the source column itself. */
  lemma EncodedNamesDiffer(col: string)
    ensures MeanCol(col) != col && MedCol(col) != col && CntCol(col) != col
  {
    assert |MeanCol(col)| > |col| && |MedCol(col)| > |col| && |CntCol(col)| > |col|;
  }

  /** A configured role writes its three columns from the tables, falling back
      to the global values (0.0 if absent) and to a count of 0.0 for an unseen
      category; every other cell is kept. */
  lemma ApplyOneCells(r: Row, te: map<string, Encoding>, role: string, show: real -> string)
    requires Configured(r, te, role)
    ensures var col := te[role].col;
      var t := te[role].maps.value;
      var k := CellKey(r.cells[col], show);
      var r' := ApplyOneRow(r, te, role, show);
      && r'.cells.Keys == r.cells.Keys + {MeanCol(col), MedCol(col), CntCol(col)}
      && r'.cells[MeanCol(col)] == Num(if k in t.mean then t.mean[k] else OrZero(t.globalMean))
      && r'.cells[MedCol(col)] == Num(if k in t.med then t.med[k] else OrZero(t.globalMed))
      && r'.cells[CntCol(col)] == Num(if k in t.cnt then t.cnt[k] else 0.0)
      && r'.cells[col] == r.cells[col]
      && (forall c | c in r.cells && c !in {MeanCol(col), MedCol(col), CntCol(col)} ::
            r'.cells[c] == r.cells[c])
  {
    var col := te[role].col;
    MeanMedCntDistinct(col);
    EncodedNamesDiffer(col);
  }

  /** A role that is not configured changes nothing. */
  lemma ApplyOneSkips(r: Row, te: map<string, Encoding>, role: string, show: real -> string)
    requires role !in te || te[role].maps.None? || te[role].col == [] || te[role].col !in r.cells
    ensures ApplyOneRow(r, te, role, show) == r
  {
  }

  /** Existing columns keep their place; new ones are appended after them. */
  lemma ApplyOneKeepsOrder(r: Row, te: map<string, Encoding>, role: string, show: real -> string)
    ensures var r' := ApplyOneRow(r, te, role, show);
      |r.cols| <= |r'.cols| <= |r.cols| + 3 && r'.cols[..|r.cols|] == r.cols
  {
  }

  lemma ApplyOneWellFormed(r: Row, te: map<string, Encoding>, role: string, show: real -> string)
    requires r.WellFormed()
    ensures ApplyOneRow(r, te, role, show).WellFormed()
  {
    if Configured(r, te, role) {
      var col := te[role].col;
      var t := te[role].maps.value;
      var k := CellKey(r.cells[col], show);
      var r1 := AssignRow(r, MeanCol(col), Num(Lookup(t.mean, k, OrZero(t.globalMean))));
      AssignWellFormed(r, MeanCol(col), Num(Lookup(t.mean, k, OrZero(t.globalMean))));
      var r2 := AssignRow(r1, MedCol(col), Num(Lookup(t.med, k, OrZero(t.globalMed))));
      AssignWellFormed(r1, MedCol(col), Num(Lookup(t.med, k, OrZero(t.globalMed))));
      AssignWellFormed(r2, CntCol(col), Num(Lookup(t.cnt, k, 0.0)));
    }
  }

  /** When both roles encode the same source column, the neighbourhood tables
      decide the three encoded cells, because they are applied last. */
  lemma NeighborhoodWins(r: Row, te: map<string, Encoding>, show: real -> string)
    requires Configured(r, te, "district") && Configured(r, te, "neighborhood")
    requires te["district"].col == te["neighborhood"].col
    ensures var col := te["neighborhood"].col;
      var t := te["neighborhood"].maps.value;
      var k := CellKey(r.cells[col], show);
      var r' := Encoded(r, te, show);
      && r'.cells[MeanCol(col)] == Num(Lookup(t.mean, k, OrZero(t.globalMean)))
      && r'.cells[MedCol(col)] == Num(Lookup(t.med, k, OrZero(t.globalMed)))
      && r'.cells[CntCol(col)] == Num(Lookup(t.cnt, k, 0.0))
  {
    var r1 := ApplyOneRow(r, te, "district", show);
    ApplyOneCells(r, te, "district", show);
    assert Configured(r1, te, "neighborhood");
    ApplyOneCells(r1, te, "neighborhood", show);
  }

  /** Target encoding only adds or overwrites `te_` columns: every other cell of
      the input is kept. */
  lemma EncodedKeepsOthers(r: Row, te: map<string, Encoding>, show: real -> string, c: string)
    requires c in r.cells
    requires forall role | role in te :: c !in {MeanCol(te[role].col), MedCol(te[role].col), CntCol(te[role].col)}
    ensures c in Encoded(r, te, show).cells && Encoded(r, te, show).cells[c] == r.cells[c]
  {
    var r1 := ApplyOneRow(r, te, "district", show);
    if Configured(r, te, "district") {
      ApplyOneCells(r, te, "district", show);
    }
    if Configured(r1, te, "neighborhood") {
      ApplyOneCells(r1, te, "neighborhood", show);
    }
  }

  /** `apply_one(role)` on the frame, in place. */
  method ApplyOne(df: Frame, te: map<string, Encoding>, role: string, show: real -> string)
    requires df.Valid()
    modifies df
    ensures df.Valid() && df.Snapshot() == ApplyOneRow(old(df.Snapshot()), te, role, show)
  {
    if role !in te {
      return;
    }
    var col := te[role].col;
    if col == [] || col !in df.cells || te[role].maps.None? {
      return;
    }
    var t := te[role].maps.value;
    var cell := df.At(col);
    var k := CellKey(cell, show);
    df.Assign(MeanCol(col), Num(Lookup(t.mean, k, OrZero(t.globalMean))));
    df.Assign(MedCol(col), Num(Lookup(t.med, k, OrZero(t.globalMed))));
    df.Assign(CntCol(col), Num(Lookup(t.cnt, k, 0.0)));
  }

  /** `apply_te(df_in)`: encodes a copy; the input frame is left as it was. */
  method ApplyTe(dfIn: Frame, te: map<string, Encoding>, show: real -> string) returns (df: Frame)
    requires dfIn.Valid()
    ensures fresh(df) && df.Valid()
    ensures df.Snapshot() == Encoded(dfIn.Snapshot(), te, show)
    ensures dfIn.Snapshot() == old(dfIn.Snapshot())
  {
    df := dfIn.Copy();
    ApplyOne(df, te, "district", show);
    ApplyOne(df, te, "neighborhood", show);
  }
}
