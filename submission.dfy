/** What happens when the form is submitted (AB_degil_01/app.py:249-275),
    and the drop-down option lists built from the encoding tables
    (AB_degil_01/app.py:169-188). */
module Submission {
  import opened Text
  import opened Numeric
  import opened Frames
  import opened TargetEncoding
  import opened Features
  import opened Advice

  /** `float(bundle.get("threshold_pct", 10.0))`. */
  function Threshold(b: Bundle): (t: real)
    ensures b.threshold.None? ==> t == 10.0
    ensures b.threshold.Some? ==> t == b.threshold.value
  {
    if b.threshold.Some? then b.threshold.value else 10.0
  }

  /** `sorted(maps["cnt"].keys())` when the role's entry, its maps and its
      count table are all non-empty; otherwise no options. */
  function RoleOptions(te: map<string, Encoding>, role: string): (opts: seq<string>)
    ensures StrictlySorted(opts)
    ensures opts != [] ==> role in te && te[role].maps.Some?
    ensures role in te && te[role].maps.Some? ==>
      forall k :: k in opts <==> k in te[role].maps.value.cnt
  {
    if role in te && te[role].maps.Some? && te[role].maps.value.cnt != map[] then
      SortedKeys(te[role].maps.value.cnt.Keys)
    else []
  }

  const Other: string := "Di\U{11F}er (Elle yaz)"

  /** `district_list`: a blank choice, then the known districts in order. */
  function DistrictList(te: map<string, Encoding>): (l: seq<string>)
    ensures |l| >= 1 && l[0] == "" && l[1..] == RoleOptions(te, "district")
  {
    [""] + RoleOptions(te, "district")
  }

  /** `neigh_list`: a blank choice, "other (type it)", then the known
      neighbourhoods in order. */
  function NeighborhoodList(te: map<string, Encoding>): (l: seq<string>)
    ensures |l| >= 2 && l[0] == "" && l[1] == Other && l[2..] == RoleOptions(te, "neighborhood")
  {
    ["", Other] + RoleOptions(te, "neighborhood")
  }

  /** Every district the tables count is offered exactly once. */
  lemma DistrictListComplete(te: map<string, Encoding>, d: string)
    requires "district" in te && te["district"].maps.Some? && d in te["district"].maps.value.cnt
    ensures d in DistrictList(te)
    ensures forall i, j | 1 <= i < j < |DistrictList(te)| :: DistrictList(te)[i] != DistrictList(te)[j]
  {
    var opts := RoleOptions(te, "district");
    assert d in opts;
    assert DistrictList(te)[1..] == opts;
    forall i, j | 1 <= i < j < |DistrictList(te)| ensures DistrictList(te)[i] != DistrictList(te)[j] {
      assert DistrictList(te)[i] == opts[i - 1] && DistrictList(te)[j] == opts[j - 1];
      BelowIrreflexive(opts[i - 1]);
    }
  }

  /** What the page shows after a submit. */
  datatype Response =
    | NeedDistrict                          // "please choose a district"
    | NeedPrice                             // "please enter a valid listing price"
    | PredictionError(warn: bool)           // "prediction error"
    | Advised(warn: bool, price: real, fair: real, verdict: Verdict, delta: real)

  /** The two checks before predicting: a district, then a positive price;
      the result is the price and whether the high-price warning shows. */
  datatype Gate = Blocked(r: Response) | Proceed(price: real, warn: bool)

  function CheckInputs(district: string, listingPrice: string): (g: Gate)
    ensures g.Blocked? ==> g.r.NeedDistrict? || g.r.NeedPrice?
    ensures g.Proceed? ==> g.price > 0.0 && (g.warn <==> g.price > 2500000.0)
  {
    var lp := ToNum(Some(listingPrice));
    if Strip(district) == [] then Blocked(NeedDistrict)
    else if lp.None? || lp.value <= 0.0 then Blocked(NeedPrice)
    else Proceed(lp.value, lp.value > 2500000.0)
  }

  /** The submit handler; the scorer (`model.predict` then `np.expm1`) is
      `score`, which gives `None` when it raises. */
  function Respond(b: Bundle, form: Form, listingPrice: string,
                   score: seq<Value> -> Option<real>,
                   show: real -> string, log1p: real -> real): Response
  {
    match CheckInputs(form.district, listingPrice)
    case Blocked(r) => r
    case Proceed(price, warn) =>
      match Assemble(b, form, show, log1p)
      case Err(_) => PredictionError(warn)
      case Ok(x) =>
        match score(x)
        case None => PredictionError(warn)
        case Some(fair) =>
          var (v, d) := InvestmentAdvice(price, fair, Threshold(b));
          Advised(warn, price, fair, v, d)
  }

  /** A blank district is reported first, whatever the price says. */
  lemma RespondNeedsDistrict(b: Bundle, form: Form, listingPrice: string,
                             score: seq<Value> -> Option<real>, show: real -> string, log1p: real -> real)
    ensures Respond(b, form, listingPrice, score, show, log1p) == NeedDistrict
        <==> forall k | 0 <= k < |form.district| :: IsSpace(form.district[k])
  {
    StripEmpty(form.district);
  }

  /** With a district, a price that is missing or not positive is refused. */
  lemma RespondNeedsPrice(b: Bundle, form: Form, listingPrice: string,
                          score: seq<Value> -> Option<real>, show: real -> string, log1p: real -> real)
    requires Strip(form.district) != []
    ensures Respond(b, form, listingPrice, score, show, log1p) == NeedPrice
        <==> ToNum(Some(listingPrice)).None? || ToNum(Some(listingPrice)).value <= 0.0
  {
  }

  /** Advice is only ever given for a positive price, with the verdict of
      `investment_advice` for that price and the scored fair value, and the
      warning exactly when the price exceeds 2,500,000. */
  lemma RespondAdvice(b: Bundle, form: Form, listingPrice: string,
                      score: seq<Value> -> Option<real>, show: real -> string, log1p: real -> real)
    requires Respond(b, form, listingPrice, score, show, log1p).Advised?
    ensures var r := Respond(b, form, listingPrice, score, show, log1p);
      && Strip(form.district) != []
      && ToNum(Some(listingPrice)) == Some(r.price)
      && r.price > 0.0
      && (r.warn <==> r.price > 2500000.0)
      && Assemble(b, form, show, log1p).Ok?
      && score(Assemble(b, form, show, log1p).value) == Some(r.fair)
      && (r.verdict, r.delta) == InvestmentAdvice(r.price, r.fair, Threshold(b))
  {
  }

  /** An expected feature that the row lacks after target encoding ends in a
      prediction error with no verdict. */
  lemma RespondMissingFeature(b: Bundle, form: Form, listingPrice: string,
                              score: seq<Value> -> Option<real>, show: real -> string, log1p: real -> real)
    requires CheckInputs(form.district, listingPrice).Proceed?
    requires exists f | f in b.features ::
      f !in Encoded(Derived(Overridden(b.defaultRow, b.ui, form), b.ui, log1p), b.te, show).cells
    ensures Respond(b, form, listingPrice, score, show, log1p)
         == PredictionError(CheckInputs(form.district, listingPrice).warn)
  {
    AssembleShape(b, form, show, log1p);
  }

  /** The submit handler as the page runs it. */
  method Submit(b: Bundle, form: Form, listingPrice: string,
                score: seq<Value> -> Option<real>, show: real -> string, log1p: real -> real)
    returns (r: Response)
    requires b.defaultRow.WellFormed()
    ensures r == Respond(b, form, listingPrice, score, show, log1p)
  {
    var lp := ToNum(Some(listingPrice));
    if Strip(form.district) == [] {
      return NeedDistrict;
    }
    if lp.None? || lp.value <= 0.0 {
      return NeedPrice;
    }
    var warn := lp.value > 2500000.0;
    assert CheckInputs(form.district, listingPrice) == Proceed(lp.value, warn);
    var x := BuildInput(b, form, show, log1p);
    if x.Err? {
      return PredictionError(warn);
    }
    var fair := score(x.value);
    if fair.None? {
      return PredictionError(warn);
    }
    var (v, d) := InvestmentAdvice(lp.value, fair.value, Threshold(b));
    r := Advised(warn, lp.value, fair.value, v, d);
  }
}
