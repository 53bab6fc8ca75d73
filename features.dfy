/** `build_input` (AB_degil_01/app.py:104-166): the feature row handed to the
    price model, built from the stored default row, the form's answers, the
    derived features and target encoding. */
module Features {
  import opened Text
  import opened Numeric
  import opened Frames
  import opened TargetEncoding

  /** What the model bundle stores and `build_input` reads. */
  datatype Bundle = Bundle(
    threshold: Option<real>,
    te: map<string, Encoding>,
    features: seq<string>,
    defaultRow: Row,
    ui: map<string, string>)

  /** The form's answers, as the text the widgets return. */
  datatype Form = Form(
    district: string,
    neighborhood: string,
    area: string,
    rooms: string,
    baths: string,
    age: string)

  /** `ui_cols.get(role)` when it is truthy. */
  function UiCol(ui: map<string, string>, role: string): (c: Option<string>)
    ensures c.Some? <==> role in ui && ui[role] != []
    ensures c.Some? ==> c.value == ui[role]
  {
    if role in ui && ui[role] != [] then Some(ui[role]) else None
  }

  // ---------------------------------------------------------------- overrides

  /** The form's answers once stripped and parsed (AB_degil_01/app.py:113-122). */
  datatype Answers = Answers(
    district: string,
    neighborhood: string,
    area: Option<real>,
    rooms: Option<real>,
    baths: Option<real>,
    age: Option<real>)

  function Parse(form: Form): Answers {
    Answers(
      Strip(form.district),
      Strip(form.neighborhood),
      ToNum(Some(form.area)),
      ParseRooms(Some(form.rooms)),
      ToNum(Some(form.baths)),
      ToNum(Some(form.age)))
  }

  /** One guarded `safe_set` of step 2: a role and the value it would write
      (`None` when its guard on the answer fails). */
  datatype Request = Request(role: string, value: Option<Value>)

  /** Text is written when its stripped form is not empty. */
  function TextValue(t: string): (v: Option<Value>)
    ensures v.Some? <==> t != []
    ensures v.Some? ==> v.value == Str(t)
  {
    if t != [] then Some(Str(t)) else None
  }

  /** A number is written when its parse is not missing. */
  function NumValue(x: Option<real>): (v: Option<Value>)
    ensures v.Some? <==> x.Some?
    ensures v.Some? ==> v.value == Num(x.value)
  {
    if x.Some? then Some(Num(x.value)) else None
  }

  /** The six guarded writes of step 2, in program order. */
  function Requests(ans: Answers): seq<Request> {
    [ Request("district", TextValue(ans.district)),
      Request("neighborhood", TextValue(ans.neighborhood)),
      Request("area", NumValue(ans.area)),
      Request("rooms", NumValue(ans.rooms)),
      Request("baths", NumValue(ans.baths)),
      Request("age", NumValue(ans.age)) ]
  }

  /** `if ui_cols.get(role) and <answer usable>: safe_set(X, ui_cols[role], value)`. */
  function ApplyRequest(r: Row, ui: map<string, string>, q: Request): Row {
    if UiCol(ui, q.role).Some? && q.value.Some? then SafeSetRow(r, ui[q.role], q.value) else r
  }

  function ApplyAll(r: Row, ui: map<string, string>, qs: seq<Request>): Row
    decreases |qs|
  {
    if qs == [] then r else ApplyAll(ApplyRequest(r, ui, qs[0]), ui, qs[1..])
  }

  /** Step 2 of `build_input`. */
  function Overridden(r: Row, ui: map<string, string>, form: Form): Row {
    ApplyAll(r, ui, Requests(Parse(form)))
  }

  /** Step 2 never adds or removes a column. */
  lemma {:induction false} ApplyAllShape(r: Row, ui: map<string, string>, qs: seq<Request>)
    ensures ApplyAll(r, ui, qs).cols == r.cols && ApplyAll(r, ui, qs).cells.Keys == r.cells.Keys
    decreases |qs|
  {
    if qs != [] {
      ApplyAllShape(ApplyRequest(r, ui, qs[0]), ui, qs[1..]);
    }
  }

  /** A cell that no request targets keeps its value. */
  lemma {:induction false} ApplyAllUntouched(r: Row, ui: map<string, string>, qs: seq<Request>, c: string)
    requires c in r.cells
    requires forall j | 0 <= j < |qs| :: UiCol(ui, qs[j].role) != Some(c)
    ensures c in ApplyAll(r, ui, qs).cells && ApplyAll(r, ui, qs).cells[c] == r.cells[c]
    decreases |qs|
  {
    if qs != [] {
      assert UiCol(ui, qs[0].role) != Some(c);
      ApplyAllUntouched(ApplyRequest(r, ui, qs[0]), ui, qs[1..], c);
    }
  }

  /** The column of request `k`, when no other request shares it, ends up with
      that request's value, or keeps its old value when the guard fails. */
  lemma {:induction false} ApplyAllOwn(r: Row, ui: map<string, string>, qs: seq<Request>, k: nat)
    requires k < |qs| && UiCol(ui, qs[k].role).Some?
    requires UiCol(ui, qs[k].role).value in r.cells
    requires forall j | 0 <= j < |qs| && j != k :: UiCol(ui, qs[j].role) != UiCol(ui, qs[k].role)
    ensures var c := UiCol(ui, qs[k].role).value;
      && c in ApplyAll(r, ui, qs).cells
      && ApplyAll(r, ui, qs).cells[c] == if qs[k].value.Some? then qs[k].value.value else r.cells[c]
    decreases |qs|
  {
    var c := UiCol(ui, qs[k].role).value;
    var r1 := ApplyRequest(r, ui, qs[0]);
    if k == 0 {
      forall j | 0 <= j < |qs[1..]| ensures UiCol(ui, qs[1..][j].role) != Some(c) {
        assert UiCol(ui, qs[j + 1].role) != UiCol(ui, qs[0].role);
      }
      ApplyAllUntouched(r1, ui, qs[1..], c);
    } else {
      assert UiCol(ui, qs[0].role) != Some(c);
      forall j | 0 <= j < |qs[1..]| && j != k - 1 ensures UiCol(ui, qs[1..][j].role) != UiCol(ui, qs[1..][k - 1].role) {
        assert UiCol(ui, qs[j + 1].role) != UiCol(ui, qs[k].role);
      }
      ApplyAllOwn(r1, ui, qs[1..], k - 1);
    }
  }

  /** Step 2 touches only columns that a role names. */
  lemma OverriddenKeepsOthers(r: Row, ui: map<string, string>, ans: Answers, c: string)
    requires c in r.cells && c !in ui.Values
    ensures var r' := ApplyAll(r, ui, Requests(ans));
      r'.cols == r.cols && r'.cells.Keys == r.cells.Keys && r'.cells[c] == r.cells[c]
  {
    var qs := Requests(ans);
    ApplyAllShape(r, ui, qs);
    forall j | 0 <= j < |qs| ensures UiCol(ui, qs[j].role) != Some(c) {
      if UiCol(ui, qs[j].role).Some? {
        assert ui[qs[j].role] in ui.Values;
      }
    }
    ApplyAllUntouched(r, ui, qs, c);
  }

  /** A role whose column is its own: the district and neighbourhood columns
      hold the stripped text unless it is blank, and the area, rooms, baths
      and age columns the parsed number unless it is missing; otherwise the
      default value stays. */
  lemma OverriddenRole(r: Row, ui: map<string, string>, ans: Answers, k: nat)
    requires k < 6
    requires var role := Requests(ans)[k].role;
      && UiCol(ui, role).Some? && ui[role] in r.cells
      && forall j | 0 <= j < 6 && j != k :: UiCol(ui, Requests(ans)[j].role) != UiCol(ui, role)
    ensures var role := Requests(ans)[k].role;
      var c := ui[role];
      var v := match role
        case "district" => TextValue(ans.district)
        case "neighborhood" => TextValue(ans.neighborhood)
        case "area" => NumValue(ans.area)
        case "rooms" => NumValue(ans.rooms)
        case "baths" => NumValue(ans.baths)
        case _ => NumValue(ans.age);
      && c in ApplyAll(r, ui, Requests(ans)).cells
      && ApplyAll(r, ui, Requests(ans)).cells[c] == if v.Some? then v.value else r.cells[c]
  {
    ApplyAllOwn(r, ui, Requests(ans), k);
  }

  // ---------------------------------------------------------- derived features

  /** A Python float: finite or NaN. */
  datatype Float = Fin(x: real) | NaN

  /** `float(cell)`: `None` when it raises (text that is not a decimal literal). */
  function AsFloat(v: Value): Option<Float> {
    match v
    case Num(x) => Some(Fin(x))
    case Missing => Some(NaN)
    case Str(s) => match Literal(Strip(s))
      case Some(x) => Some(Fin(x))
      case None => None
  }

  function FromFloat(f: Float): Value {
    match f
    case Fin(x) => Num(x)
    case NaN => Missing
  }

  function AddConst(f: Float, k: real): Float {
    match f
    case Fin(x) => Fin(x + k)
    case NaN => NaN
  }

  /** Python `n / d` on floats: `None` for `ZeroDivisionError`, which a zero
      divisor raises even when `n` is NaN. */
  function Divide(n: Float, d: Float): (q: Option<Float>)
    ensures q.None? <==> d == Fin(0.0)
    ensures n.Fin? && d.Fin? && d.x != 0.0 ==> q == Some(Fin(n.x / d.x))
    ensures d != Fin(0.0) && (n.NaN? || d.NaN?) ==> q == Some(NaN)
  {
    if d == Fin(0.0) then None
    else if n.NaN? || d.NaN? then Some(NaN)
    else Some(Fin(n.x / d.x))
  }

  /** `np.log1p` on a float, with the real function left to `log1p`. */
  function Log1p(f: Float, log1p: real -> real): Float {
    match f
    case Fin(x) => Fin(log1p(x))
    case NaN => NaN
  }

  /** `pd.cut(x, edges, labels)` with right-closed intervals `(e[i], e[i+1]]`;
      `None` when `x` is in none of them. */
  function Cut(x: real, edges: seq<real>, labels: seq<string>): (l: Option<string>)
    requires |edges| == |labels| + 1
    ensures l.None? <==> !exists i | 0 <= i < |labels| :: edges[i] < x <= edges[i + 1]
    ensures l.Some? ==> exists i | 0 <= i < |labels| :: edges[i] < x <= edges[i + 1] && l.value == labels[i]
    decreases |labels|
  {
    if labels == [] then None
    else if edges[0] < x <= edges[1] then Some(labels[0])
    else Cut(x, edges[1..], labels[1..])
  }

  const AgeEdges: seq<real> := [-1.0, 5.0, 15.0, 30.0, 200.0]
  const AgeLabels: seq<string> := ["0-5", "6-15", "16-30", "30+"]

  /** `str(pd.cut(...).astype(str).iloc[0])`: the bin's label, or "nan". */
  function AgeBucket(f: Float): string {
    match f
    case NaN => "nan"
    case Fin(x) => match Cut(x, AgeEdges, AgeLabels)
      case Some(l) => l
      case None => "nan"
  }

  /** The age bins, spelled out. */
  lemma AgeBuckets(x: real)
    ensures AgeBucket(Fin(x)) == (
      if -1.0 < x <= 5.0 then "0-5"
      else if 5.0 < x <= 15.0 then "6-15"
      else if 15.0 < x <= 30.0 then "16-30"
      else if 30.0 < x <= 200.0 then "30+"
      else "nan")
  {
    assert AgeEdges[1..] == [5.0, 15.0, 30.0, 200.0];
    assert AgeEdges[1..][1..] == [15.0, 30.0, 200.0];
    assert AgeEdges[1..][1..][1..] == [30.0, 200.0];
    assert AgeLabels[1..][1..][1..][1..] == [];
  }

  /** What one derived-feature step does: nothing, write a value, or raise
      (which ends the `try` block). */
  datatype Step = Skip | Put(v: Value) | Raise

  function Present(r: Row, c: Option<string>): bool {
    c.Some? && c.value in r.cells
  }

  function LogAreaStep(r: Row, a: Option<string>, log1p: real -> real): Step {
    if Present(r, a) && "log_area" in r.cells && r.cells[a.value] != Missing then
      match AsFloat(r.cells[a.value])
      case None => Raise
      case Some(f) => Put(FromFloat(Log1p(f, log1p)))
    else Skip
  }

  /** `area / (rooms + 1.0)`. */
  function AreaPerRoomStep(r: Row, a: Option<string>, rm: Option<string>): Step {
    if Present(r, a) && Present(r, rm) && "area_per_room" in r.cells then
      match (AsFloat(r.cells[a.value]), AsFloat(r.cells[rm.value]))
      case (Some(fa), Some(fr)) =>
        (match Divide(fa, AddConst(fr, 1.0))
         case Some(q) => Put(FromFloat(q))
         case None => Raise)
      case _ => Raise
    else Skip
  }

  /** `rooms / (baths + 1e-3)`. */
  function RoomBathStep(r: Row, rm: Option<string>, b: Option<string>): Step {
    if Present(r, rm) && Present(r, b) && "room_bath_ratio" in r.cells then
      match (AsFloat(r.cells[rm.value]), AsFloat(r.cells[b.value]))
      case (Some(fr), Some(fb)) =>
        (match Divide(fr, AddConst(fb, 1.0 / 1000.0))
         case Some(q) => Put(FromFloat(q))
         case None => Raise)
      case _ => Raise
    else Skip
  }

  function AgeBucketStep(r: Row, ag: Option<string>): Step {
    if Present(r, ag) && "age_bucket" in r.cells && r.cells[ag.value] != Missing then
      match AsFloat(r.cells[ag.value])
      case None => Raise
      case Some(f) => Put(Str(AgeBucket(f)))
    else Skip
  }

  function Perform(r: Row, target: string, s: Step): Row {
    if s.Put? then AssignRow(r, target, s.v) else r
  }

  /** Step 3 of `build_input`: the four steps in order; the first one that
      raises ends the block and the earlier writes stay. */
  function Derived(r: Row, ui: map<string, string>, log1p: real -> real): Row {
    var a, rm, b, ag := UiCol(ui, "area"), UiCol(ui, "rooms"), UiCol(ui, "baths"), UiCol(ui, "age");
    var s1 := LogAreaStep(r, a, log1p);
    if s1.Raise? then r else
    var r1 := Perform(r, "log_area", s1);
    var s2 := AreaPerRoomStep(r1, a, rm);
    if s2.Raise? then r1 else
    var r2 := Perform(r1, "area_per_room", s2);
    var s3 := RoomBathStep(r2, rm, b);
    if s3.Raise? then r2 else
    var r3 := Perform(r2, "room_bath_ratio", s3);
    var s4 := AgeBucketStep(r3, ag);
    if s4.Raise? then r3 else Perform(r3, "age_bucket", s4)
  }

  /** A step only ever writes a target that is already a column. */
  lemma PerformShape(r: Row, target: string, s: Step)
    requires s.Put? ==> target in r.cells
    ensures Perform(r, target, s).cols == r.cols && Perform(r, target, s).cells.Keys == r.cells.Keys
    ensures forall c | c in r.cells && c != target :: Perform(r, target, s).cells[c] == r.cells[c]
  {
  }

  /** `r'` has the columns of `r` and the same cells outside `cs`. */
  ghost predicate KeepsOutside(r: Row, r': Row, cs: set<string>) {
    && r'.cols == r.cols
    && r'.cells.Keys == r.cells.Keys
    && forall c | c in r.cells && c !in cs :: r'.cells[c] == r.cells[c]
  }

  lemma KeepsOutsideTrans(r1: Row, r2: Row, r3: Row, cs: set<string>)
    requires KeepsOutside(r1, r2, cs) && KeepsOutside(r2, r3, cs)
    ensures KeepsOutside(r1, r3, cs)
  {
  }

  lemma PerformKeeps(r: Row, target: string, s: Step, cs: set<string>)
    requires (s.Put? ==> target in r.cells) && target in cs
    ensures KeepsOutside(r, Perform(r, target, s), cs)
  {
    PerformShape(r, target, s);
  }

  /** Step 3 adds no column and changes no cell but the four derived ones. */
  lemma DerivedKeepsOthers(r: Row, ui: map<string, string>, log1p: real -> real)
    ensures Derived(r, ui, log1p).cols == r.cols
    ensures Derived(r, ui, log1p).cells.Keys == r.cells.Keys
    ensures forall c | c in r.cells && c !in {"log_area", "area_per_room", "room_bath_ratio", "age_bucket"} ::
      Derived(r, ui, log1p).cells[c] == r.cells[c]
  {
    var cs := {"log_area", "area_per_room", "room_bath_ratio", "age_bucket"};
    var a, rm, b, ag := UiCol(ui, "area"), UiCol(ui, "rooms"), UiCol(ui, "baths"), UiCol(ui, "age");
    var s1 := LogAreaStep(r, a, log1p);
    var r1 := Perform(r, "log_area", s1);
    PerformKeeps(r, "log_area", s1, cs);
    var s2 := AreaPerRoomStep(r1, a, rm);
    var r2 := Perform(r1, "area_per_room", s2);
    PerformKeeps(r1, "area_per_room", s2, cs);
    KeepsOutsideTrans(r, r1, r2, cs);
    var s3 := RoomBathStep(r2, rm, b);
    var r3 := Perform(r2, "room_bath_ratio", s3);
    PerformKeeps(r2, "room_bath_ratio", s3, cs);
    KeepsOutsideTrans(r, r2, r3, cs);
    var s4 := AgeBucketStep(r3, ag);
    PerformKeeps(r3, "age_bucket", s4, cs);
    KeepsOutsideTrans(r, r3, Perform(r3, "age_bucket", s4), cs);
    assert KeepsOutside(r, Derived(r, ui, log1p), cs);
  }

  /** `area_per_room` divides the area by one more than the room count; a room
      count of -1 divides by zero and raises. */
  lemma AreaPerRoomValues(r: Row, a: string, rm: string, x: real, n: real)
    requires a in r.cells && rm in r.cells && "area_per_room" in r.cells
    requires r.cells[a] == Num(x) && r.cells[rm] == Num(n)
    ensures AreaPerRoomStep(r, Some(a), Some(rm)) == if n == -1.0 then Raise else Put(Num(x / (n + 1.0)))
  {
  }

  /** `room_bath_ratio` divides the rooms by the baths plus a thousandth; a
      bath count of -0.001 raises. */
  lemma RoomBathValues(r: Row, rm: string, b: string, n: real, m: real)
    requires rm in r.cells && b in r.cells && "room_bath_ratio" in r.cells
    requires r.cells[rm] == Num(n) && r.cells[b] == Num(m)
    ensures RoomBathStep(r, Some(rm), Some(b)) == if m == -1.0 / 1000.0 then Raise else Put(Num(n / (m + 1.0 / 1000.0)))
  {
  }

  /** `area_per_room` is touched exactly when the area, rooms and target columns
      exist; it then raises exactly when `float` cannot read either cell or the
      rooms are -1 (a zero divisor). */
  lemma AreaPerRoomGuard(r: Row, a: Option<string>, rm: Option<string>)
    ensures AreaPerRoomStep(r, a, rm) != Skip
        <==> Present(r, a) && Present(r, rm) && "area_per_room" in r.cells
    ensures AreaPerRoomStep(r, a, rm).Raise?
        <==> Present(r, a) && Present(r, rm) && "area_per_room" in r.cells
             && (AsFloat(r.cells[a.value]).None? || AsFloat(r.cells[rm.value]).None?
                 || AsFloat(r.cells[rm.value]) == Some(Fin(-1.0)))
  {
  }

  /** `room_bath_ratio` is touched exactly when the rooms, baths and target
      columns exist; it then raises exactly when `float` cannot read either cell
      or the baths are -0.001 (a zero divisor). */
  lemma RoomBathGuard(r: Row, rm: Option<string>, b: Option<string>)
    ensures RoomBathStep(r, rm, b) != Skip
        <==> Present(r, rm) && Present(r, b) && "room_bath_ratio" in r.cells
    ensures RoomBathStep(r, rm, b).Raise?
        <==> Present(r, rm) && Present(r, b) && "room_bath_ratio" in r.cells
             && (AsFloat(r.cells[rm.value]).None? || AsFloat(r.cells[b.value]).None?
                 || AsFloat(r.cells[b.value]) == Some(Fin(-1.0 / 1000.0)))
  {
  }

  /** A missing area or rooms cell gives a missing ratio rather than an error,
      unless the divisor is zero. */
  lemma AreaPerRoomMissing(r: Row, a: string, rm: string)
    requires a in r.cells && rm in r.cells && "area_per_room" in r.cells
    requires r.cells[a] == Missing && r.cells[rm].Num? && r.cells[rm].x != -1.0
    ensures AreaPerRoomStep(r, Some(a), Some(rm)) == Put(Missing)
  {
  }

  /** When `area_per_room` raises, `log_area` keeps what it wrote and the two
      later features keep their default values. */
  lemma DerivedStopsAtAreaPerRoom(r: Row, ui: map<string, string>, log1p: real -> real)
    requires var a := UiCol(ui, "area");
      var s1 := LogAreaStep(r, a, log1p);
      && !s1.Raise?
      && AreaPerRoomStep(Perform(r, "log_area", s1), a, UiCol(ui, "rooms")).Raise?
    ensures var r' := Derived(r, ui, log1p);
      && r'.cells == Perform(r, "log_area", LogAreaStep(r, UiCol(ui, "area"), log1p)).cells
      && ("room_bath_ratio" in r.cells ==> r'.cells["room_bath_ratio"] == r.cells["room_bath_ratio"])
      && ("age_bucket" in r.cells ==> r'.cells["age_bucket"] == r.cells["age_bucket"])
  {
  }

  /** When `log_area` raises, nothing in the block is written. */
  lemma LogAreaRaiseStopsAll(r: Row, ui: map<string, string>, log1p: real -> real)
    requires LogAreaStep(r, UiCol(ui, "area"), log1p).Raise?
    ensures Derived(r, ui, log1p) == r
  {
  }

  /** When `room_bath_ratio` raises, the first two writes stay and the last two
      features keep their values. */
  lemma RoomBathRaiseKeepsFirstTwo(r: Row, ui: map<string, string>, log1p: real -> real)
    requires var a, rm := UiCol(ui, "area"), UiCol(ui, "rooms");
      var s1 := LogAreaStep(r, a, log1p);
      var r1 := Perform(r, "log_area", s1);
      var s2 := AreaPerRoomStep(r1, a, rm);
      && !s1.Raise? && !s2.Raise?
      && RoomBathStep(Perform(r1, "area_per_room", s2), rm, UiCol(ui, "baths")).Raise?
    ensures var a, rm := UiCol(ui, "area"), UiCol(ui, "rooms");
      var s1 := LogAreaStep(r, a, log1p);
      var r1 := Perform(r, "log_area", s1);
      var r' := Derived(r, ui, log1p);
      && r' == Perform(r1, "area_per_room", AreaPerRoomStep(r1, a, rm))
      && ("room_bath_ratio" in r.cells ==> r'.cells["room_bath_ratio"] == r.cells["room_bath_ratio"])
      && ("age_bucket" in r.cells ==> r'.cells["age_bucket"] == r.cells["age_bucket"])
  {
  }

  /** When `age_bucket` raises, the first three writes stay and `age_bucket`
      keeps its value. */
  lemma AgeBucketRaiseKeepsFirstThree(r: Row, ui: map<string, string>, log1p: real -> real)
    requires var a, rm, b := UiCol(ui, "area"), UiCol(ui, "rooms"), UiCol(ui, "baths");
      var s1 := LogAreaStep(r, a, log1p);
      var r1 := Perform(r, "log_area", s1);
      var s2 := AreaPerRoomStep(r1, a, rm);
      var r2 := Perform(r1, "area_per_room", s2);
      var s3 := RoomBathStep(r2, rm, b);
      && !s1.Raise? && !s2.Raise? && !s3.Raise?
      && AgeBucketStep(Perform(r2, "room_bath_ratio", s3), UiCol(ui, "age")).Raise?
    ensures var a, rm, b := UiCol(ui, "area"), UiCol(ui, "rooms"), UiCol(ui, "baths");
      var r1 := Perform(r, "log_area", LogAreaStep(r, a, log1p));
      var r2 := Perform(r1, "area_per_room", AreaPerRoomStep(r1, a, rm));
      var r' := Derived(r, ui, log1p);
      && r' == Perform(r2, "room_bath_ratio", RoomBathStep(r2, rm, b))
      && ("age_bucket" in r.cells ==> r'.cells["age_bucket"] == r.cells["age_bucket"])
  {
  }

  /** `log_area` is written only when the area column and `log_area` exist and
      the area cell is not missing; it is then `log1p` of the area, and a cell
      `float` cannot read raises. */
  lemma LogAreaValue(r: Row, a: Option<string>, log1p: real -> real)
    ensures LogAreaStep(r, a, log1p) != Skip
        <==> Present(r, a) && "log_area" in r.cells && r.cells[a.value] != Missing
    ensures LogAreaStep(r, a, log1p).Raise?
        <==> Present(r, a) && "log_area" in r.cells && AsFloat(r.cells[a.value]).None?
    ensures Present(r, a) && "log_area" in r.cells && r.cells[a.value].Num? ==>
      LogAreaStep(r, a, log1p) == Put(Num(log1p(r.cells[a.value].x)))
  {
  }

  /** `age_bucket` is written only when the age column and `age_bucket` exist
      and the age cell is not missing; it is then the label of the age's bin
      (or "nan"), and a cell `float` cannot read raises. */
  lemma AgeBucketValue(r: Row, ag: Option<string>)
    ensures AgeBucketStep(r, ag) != Skip
        <==> Present(r, ag) && "age_bucket" in r.cells && r.cells[ag.value] != Missing
    ensures AgeBucketStep(r, ag).Raise?
        <==> Present(r, ag) && "age_bucket" in r.cells && AsFloat(r.cells[ag.value]).None?
    ensures Present(r, ag) && "age_bucket" in r.cells && r.cells[ag.value].Num? ==>
      AgeBucketStep(r, ag) == Put(Str(AgeBucket(Fin(r.cells[ag.value].x))))
  {
  }

  // ------------------------------------------------------------ the whole call

  /** `build_input(...)`: the model's feature vector, or the expected
      features that are missing (pandas raises `KeyError`). */
  function Assemble(b: Bundle, form: Form, show: real -> string, log1p: real -> real)
    : Result<seq<Value>, seq<string>>
  {
    var x := Overridden(b.defaultRow, b.ui, form);
    var y := Derived(x, b.ui, log1p);
    Select(Encoded(y, b.te, show), b.features)
  }

  /** The result has exactly the expected features, in order, or names the
      ones that are missing after target encoding. */
  lemma AssembleShape(b: Bundle, form: Form, show: real -> string, log1p: real -> real)
    ensures var e := Encoded(Derived(Overridden(b.defaultRow, b.ui, form), b.ui, log1p), b.te, show);
      var res := Assemble(b, form, show, log1p);
      && (res.Ok? <==> forall i | 0 <= i < |b.features| :: b.features[i] in e.cells)
      && (res.Ok? ==> |res.value| == |b.features|
                      && forall i | 0 <= i < |b.features| :: res.value[i] == e.cells[b.features[i]])
      && (res.Err? ==> forall f | f in b.features && f !in e.cells :: f in res.error)
  {
    var e := Encoded(Derived(Overridden(b.defaultRow, b.ui, form), b.ui, log1p), b.te, show);
    SelectReportsAll(e, b.features);
  }

  /** A feature that is neither a default column nor an encoded column is
      always missing, whatever the form says. */
  lemma AssembleNeedsColumns(b: Bundle, form: Form, show: real -> string, log1p: real -> real, f: string)
    requires f in b.features && f !in b.defaultRow.cells
    requires forall role | role in b.te ::
      f !in {MeanCol(b.te[role].col), MedCol(b.te[role].col), CntCol(b.te[role].col)}
    ensures Assemble(b, form, show, log1p).Err?
  {
    var x := Overridden(b.defaultRow, b.ui, form);
    ApplyAllShape(b.defaultRow, b.ui, Requests(Parse(form)));
    var y := Derived(x, b.ui, log1p);
    DerivedKeepsOthers(x, b.ui, log1p);
    EncodedAddsOnly(y, b.te, show, f);
    var i :| 0 <= i < |b.features| && b.features[i] == f;
  }

  /** Target encoding only adds the `te_` columns of configured roles. */
  lemma EncodedAddsOnly(r: Row, te: map<string, Encoding>, show: real -> string, f: string)
    requires f !in r.cells
    requires forall role | role in te :: f !in {MeanCol(te[role].col), MedCol(te[role].col), CntCol(te[role].col)}
    ensures f !in Encoded(r, te, show).cells
  {
    var r1 := ApplyOneRow(r, te, "district", show);
    if Configured(r, te, "district") {
      ApplyOneCells(r, te, "district", show);
    }
    if Configured(r1, te, "neighborhood") {
      ApplyOneCells(r1, te, "neighborhood", show);
    }
  }

  // ------------------------------------------------------ the imperative code

  /** Step 2 of `build_input` on the frame: six guarded `safe_set` calls. */
  method Override(x: Frame, ui: map<string, string>, ans: Answers)
    requires x.Valid()
    modifies x
    ensures x.Valid() && x.Snapshot() == ApplyAll(old(x.Snapshot()), ui, Requests(ans))
  {
    ghost var qs := Requests(ans);
    ghost var goal := ApplyAll(x.Snapshot(), ui, qs);
    Guarded(x, ui, Request("district", TextValue(ans.district)), qs, goal);
    Guarded(x, ui, Request("neighborhood", TextValue(ans.neighborhood)), qs[1..], goal);
    Guarded(x, ui, Request("area", NumValue(ans.area)), qs[2..], goal);
    Guarded(x, ui, Request("rooms", NumValue(ans.rooms)), qs[3..], goal);
    Guarded(x, ui, Request("baths", NumValue(ans.baths)), qs[4..], goal);
    Guarded(x, ui, Request("age", NumValue(ans.age)), qs[5..], goal);
  }

  /** One guarded `safe_set` of step 2: the first of the requests `rest` still
      to be performed on the way to `goal`. */
  method Guarded(x: Frame, ui: map<string, string>, q: Request, ghost rest: seq<Request>, ghost goal: Row)
    requires rest != [] && rest[0] == q
    requires x.Valid() && ApplyAll(x.Snapshot(), ui, rest) == goal
    modifies x
    ensures x.Valid() && x.Snapshot() == ApplyRequest(old(x.Snapshot()), ui, q)
    ensures ApplyAll(x.Snapshot(), ui, rest[1..]) == goal
  {
    if UiCol(ui, q.role).Some? && q.value.Some? {
      x.SafeSet(ui[q.role], q.value);
    }
  }

  /** `log_area`: raises (`false`) or performs its step. */
  method LogAreaOnFrame(x: Frame, aCol: Option<string>, log1p: real -> real) returns (ok: bool)
    requires x.Valid()
    modifies x
    ensures ok == !LogAreaStep(old(x.Snapshot()), aCol, log1p).Raise?
    ensures x.Valid() && x.Snapshot() == Perform(old(x.Snapshot()), "log_area", LogAreaStep(old(x.Snapshot()), aCol, log1p))
  {
    ok := true;
    if aCol.Some? && aCol.value in x.cells && "log_area" in x.cells {
      var v := x.At(aCol.value);
      if v != Missing {
        var f := AsFloat(v);
        if f.None? {
          ok := false;
        } else {
          x.Assign("log_area", FromFloat(Log1p(f.value, log1p)));
        }
      }
    }
  }

  /** `area_per_room`. */
  method AreaPerRoomOnFrame(x: Frame, aCol: Option<string>, rCol: Option<string>) returns (ok: bool)
    requires x.Valid()
    modifies x
    ensures ok == !AreaPerRoomStep(old(x.Snapshot()), aCol, rCol).Raise?
    ensures x.Valid() && x.Snapshot() == Perform(old(x.Snapshot()), "area_per_room", AreaPerRoomStep(old(x.Snapshot()), aCol, rCol))
  {
    ok := true;
    if aCol.Some? && rCol.Some? && aCol.value in x.cells && rCol.value in x.cells && "area_per_room" in x.cells {
      var va := x.At(aCol.value);
      var vr := x.At(rCol.value);
      var fa, fr := AsFloat(va), AsFloat(vr);
      if fa.None? || fr.None? {
        ok := false;
      } else {
        var q := Divide(fa.value, AddConst(fr.value, 1.0));
        if q.None? {
          ok := false;
        } else {
          x.Assign("area_per_room", FromFloat(q.value));
        }
      }
    }
  }

  /** `room_bath_ratio`. */
  method RoomBathOnFrame(x: Frame, rCol: Option<string>, bCol: Option<string>) returns (ok: bool)
    requires x.Valid()
    modifies x
    ensures ok == !RoomBathStep(old(x.Snapshot()), rCol, bCol).Raise?
    ensures x.Valid() && x.Snapshot() == Perform(old(x.Snapshot()), "room_bath_ratio", RoomBathStep(old(x.Snapshot()), rCol, bCol))
  {
    ok := true;
    if rCol.Some? && bCol.Some? && rCol.value in x.cells && bCol.value in x.cells && "room_bath_ratio" in x.cells {
      var vr := x.At(rCol.value);
      var vb := x.At(bCol.value);
      var fr, fb := AsFloat(vr), AsFloat(vb);
      if fr.None? || fb.None? {
        ok := false;
      } else {
        var q := Divide(fr.value, AddConst(fb.value, 1.0 / 1000.0));
        if q.None? {
          ok := false;
        } else {
          x.Assign("room_bath_ratio", FromFloat(q.value));
        }
      }
    }
  }

  /** `age_bucket`. */
  method AgeBucketOnFrame(x: Frame, ageCol: Option<string>) returns (ok: bool)
    requires x.Valid()
    modifies x
    ensures ok == !AgeBucketStep(old(x.Snapshot()), ageCol).Raise?
    ensures x.Valid() && x.Snapshot() == Perform(old(x.Snapshot()), "age_bucket", AgeBucketStep(old(x.Snapshot()), ageCol))
  {
    ok := true;
    if ageCol.Some? && ageCol.value in x.cells && "age_bucket" in x.cells {
      var v := x.At(ageCol.value);
      if v != Missing {
        var f := AsFloat(v);
        if f.None? {
          ok := false;
        } else {
          x.Assign("age_bucket", Str(AgeBucket(f.value)));
        }
      }
    }
  }

  /** Step 3 of `build_input` on the frame: the `try` block, where the first
      step that raises skips the rest and the earlier writes stay. */
  method RecomputeDerived(x: Frame, ui: map<string, string>, log1p: real -> real)
    requires x.Valid()
    modifies x
    ensures x.Valid() && x.Snapshot() == Derived(old(x.Snapshot()), ui, log1p)
  {
    var aCol, rCol, bCol, ageCol := UiCol(ui, "area"), UiCol(ui, "rooms"), UiCol(ui, "baths"), UiCol(ui, "age");
    var ok := LogAreaOnFrame(x, aCol, log1p);
    if !ok { return; }
    ok := AreaPerRoomOnFrame(x, aCol, rCol);
    if !ok { return; }
    ok := RoomBathOnFrame(x, rCol, bCol);
    if !ok { return; }
    ok := AgeBucketOnFrame(x, ageCol);
  }

  /** `build_input(district, neigh, area, rooms, baths, age)`. */
  method BuildInput(b: Bundle, form: Form, show: real -> string, log1p: real -> real)
    returns (res: Result<seq<Value>, seq<string>>)
    requires b.defaultRow.WellFormed()
    ensures res == Assemble(b, form, show, log1p)
  {
    var x := new Frame(b.defaultRow);
    Override(x, b.ui, Parse(form));
    RecomputeDerived(x, b.ui, log1p);
    x := ApplyTe(x, b.te, show);
    res := Select(x.Snapshot(), b.features);
  }
}
