/** The numeric text normaliser `to_num` and the room-count parser
    `parse_rooms` (AB_degil_01/app.py:40-65). A result of `None` is the
    source's `np.nan` ("missing"); neither function ever fails. */
module Numeric {
  import opened Text

  function Pow10(n: nat): (r: nat)
    ensures r >= 1
  {
    if n == 0 then 1 else 10 * Pow10(n - 1)
  }

  /** The unsigned decimal literals Python's `float` accepts: digits with at
      most one point and at least one digit (`"1."`, `".5"`, `"007"`). */
  predicate UnsignedValid(s: string) {
    match IndexOf(s, '.')
    case None => s != [] && AllDigits(s)
    case Some(i) => AllDigits(s[..i]) && AllDigits(s[i + 1..]) && |s| > 1
  }

  /** The value of the digits after a decimal point. */
  function Fraction(frac: string): real
    requires AllDigits(frac)
  {
    DigitsValue(frac) as real / Pow10(|frac|) as real
  }

  function UnsignedValue(s: string): real
    requires UnsignedValid(s)
  {
    match IndexOf(s, '.')
    case None => DigitsValue(s) as real
    case Some(i) => DigitsValue(s[..i]) as real + Fraction(s[i + 1..])
  }

  /** Python's `float` on an unsigned decimal literal; `None` where it raises. */
  function Unsigned(s: string): (r: Option<real>)
    ensures r.Some? <==> UnsignedValid(s)
  {
    if UnsignedValid(s) then Some(UnsignedValue(s)) else None
  }

  /** Python's `float(s)` on a sign-and-decimal literal; `None` where it raises. */
  function Literal(s: string): Option<real> {
    if |s| > 0 && (s[0] == '-' || s[0] == '+') then
      match Unsigned(s[1..])
      case None => None
      case Some(x) => Some(if s[0] == '-' then -x else x)
    else Unsigned(s)
  }

  /** `s.replace(",", ".")` */
  function CommaToPoint(s: string): (r: string)
    ensures |r| == |s|
  {
    if s == [] then [] else [if s[0] == ',' then '.' else s[0]] + CommaToPoint(s[1..])
  }

  /** The characters `to_num` keeps: ASCII digits, `.` and `-`. */
  predicate Kept(c: char) { IsDigit(c) || c == '.' || c == '-' }

  /** `"".join(ch for ch in s if ch.isdigit() or ch in ".-")` */
  function KeepNumeric(s: string): (r: string)
    ensures |r| <= |s|
  {
    if s == [] then []
    else if Kept(s[0]) then [s[0]] + KeepNumeric(s[1..])
    else KeepNumeric(s[1..])
  }

  /** The text `float` is finally given, before the strip. */
  function Cleaned(t: string): string {
    KeepNumeric(CommaToPoint(t))
  }

  /** `to_num(x)` (AB_degil_01/app.py:40-51). */
  function ToNum(x: Option<string>): (r: Option<real>)
    ensures x.None? ==> r.None?
  {
    match x
    case None => None
    case Some(t) =>
      var s := Strip(t);
      if s == [] then None
      else
        var f := Cleaned(s);
        if f == [] then None else Literal(f)
  }

  /** The literals `float` accepts once only digits, `.` and `-` are left:
      an optional leading `-`, no other `-`, at most one `.`, some digit. */
  predicate WellFormed(f: string) {
    var body := if |f| > 0 && f[0] == '-' then f[1..] else f;
    && multiset(body)['-'] == 0
    && multiset(body)['.'] <= 1
    && HasDigit(body)
  }

  lemma {:induction false} KeepAppend(a: string, b: string)
    ensures KeepNumeric(a + b) == KeepNumeric(a) + KeepNumeric(b)
    decreases |a|
  {
    if a == [] {
      assert a + b == b;
    } else {
      assert (a + b)[0] == a[0];
      assert (a + b)[1..] == a[1..] + b;
      KeepAppend(a[1..], b);
    }
  }

  lemma {:induction false} CommaAppend(a: string, b: string)
    ensures CommaToPoint(a + b) == CommaToPoint(a) + CommaToPoint(b)
    decreases |a|
  {
    if a == [] {
      assert a + b == b;
    } else {
      assert (a + b)[0] == a[0];
      assert (a + b)[1..] == a[1..] + b;
      CommaAppend(a[1..], b);
    }
  }

  lemma {:induction false} KeepSpaces(s: string)
    requires forall k | 0 <= k < |s| :: IsSpace(s[k])
    ensures Cleaned(s) == []
    decreases |s|
  {
    if s != [] {
      assert !Kept(CommaToPoint(s)[0]);
      KeepSpaces(s[1..]);
    }
  }

  lemma CleanedAroundSpaces(pre: string, mid: string, post: string)
    requires forall k | 0 <= k < |pre| :: IsSpace(pre[k])
    requires forall k | 0 <= k < |post| :: IsSpace(post[k])
    ensures Cleaned(pre + (mid + post)) == Cleaned(mid)
  {
    KeepSpaces(pre);
    KeepSpaces(post);
    CommaAppend(pre, mid + post);
    CommaAppend(mid, post);
    KeepAppend(CommaToPoint(pre), CommaToPoint(mid) + CommaToPoint(post));
    KeepAppend(CommaToPoint(mid), CommaToPoint(post));
  }

  /** The strip in `to_num` only decides "missing": the text `float` sees is
      the same with or without it. */
  lemma CleanedIgnoresStrip(t: string)
    ensures Cleaned(Strip(t)) == Cleaned(t)
  {
    var i, j := StripBounds(t);
    StripPieces(t, i, j);
    CleanedAroundSpaces(t[..i], t[i..j], t[j..]);
  }

  /** The text is its leading white space, its middle and its trailing white space. */
  lemma StripPieces(t: string, i: nat, j: nat)
    requires i <= j <= |t|
    requires forall k | 0 <= k < i :: IsSpace(t[k])
    requires forall k | j <= k < |t| :: IsSpace(t[k])
    ensures forall k | 0 <= k < |t[..i]| :: IsSpace(t[..i][k])
    ensures forall k | 0 <= k < |t[j..]| :: IsSpace(t[j..][k])
    ensures t == t[..i] + (t[i..j] + t[j..])
  {
    assert t[i..j] + t[j..] == t[i..];
    assert t == t[..i] + t[i..];
    forall k | 0 <= k < |t[j..]| ensures IsSpace(t[j..][k]) { assert t[j..][k] == t[k + j]; }
  }

  /** `to_num` is `float` of the cleaned text, or missing when nothing is left. */
  lemma ToNumCleaned(t: string)
    ensures ToNum(Some(t)) == if Cleaned(t) == [] then None else Literal(Cleaned(t))
  {
    CleanedIgnoresStrip(t);
    if Strip(t) == [] {
      StripEmpty(t);
      KeepSpaces(t);
    }
  }

  predicate HasDigit(s: string) {
    exists i | 0 <= i < |s| :: IsDigit(s[i])
  }

  /** Among kept characters, the digit strings are those without `-` and `.`. */
  lemma KeptDigits(s: string)
    requires forall i | 0 <= i < |s| :: Kept(s[i])
    ensures AllDigits(s) <==> multiset(s)['-'] == 0 && multiset(s)['.'] == 0
  {
    if multiset(s)['-'] == 0 && multiset(s)['.'] == 0 {
      forall i | 0 <= i < |s| ensures IsDigit(s[i]) {
        assert s[i] in multiset(s);
      }
    }
  }

  lemma UnsignedNoPoint(b: string)
    requires forall i | 0 <= i < |b| :: Kept(b[i])
    requires '.' !in b
    ensures Unsigned(b).Some? <==>
      multiset(b)['-'] == 0 && multiset(b)['.'] <= 1 && HasDigit(b)
  {
    assert IndexOf(b, '.').None?;
    KeptDigits(b);
    assert multiset(b)['.'] == 0;
    if b != [] { assert AllDigits(b) ==> IsDigit(b[0]); }
  }

  /** The two sides of the point, counted. */
  lemma PointParts(b: string, i: nat)
    requires forall k | 0 <= k < |b| :: Kept(b[k])
    requires i < |b| && b[i] == '.' && '.' !in b[..i]
    ensures multiset(b)['-'] == multiset(b[..i])['-'] + multiset(b[i + 1..])['-']
    ensures multiset(b)['.'] == 1 + multiset(b[i + 1..])['.']
    ensures AllDigits(b[..i]) <==> multiset(b[..i])['-'] == 0
    ensures AllDigits(b[i + 1..]) <==> multiset(b[i + 1..])['-'] == 0 && multiset(b[i + 1..])['.'] == 0
  {
    PointCounts(b, i);
    KeptTake(b, i);
    KeptDigits(b[..i]);
    KeptDrop(b, i + 1);
    KeptDigits(b[i + 1..]);
  }

  lemma PointCounts(b: string, i: nat)
    requires i < |b| && b[i] == '.' && '.' !in b[..i]
    ensures multiset(b)['-'] == multiset(b[..i])['-'] + multiset(b[i + 1..])['-']
    ensures multiset(b)['.'] == 1 + multiset(b[i + 1..])['.']
  {
    var whole, frac := b[..i], b[i + 1..];
    assert b == whole + (['.'] + frac);
    assert multiset(b) == multiset(whole) + multiset{'.'} + multiset(frac);
  }

  lemma KeptTake(b: string, i: nat)
    requires i <= |b| && forall k | 0 <= k < |b| :: Kept(b[k])
    ensures forall k | 0 <= k < |b[..i]| :: Kept(b[..i][k])
  {
    forall k | 0 <= k < |b[..i]| ensures Kept(b[..i][k]) { assert b[..i][k] == b[k]; }
  }

  lemma KeptDrop(b: string, i: nat)
    requires i <= |b| && forall k | 0 <= k < |b| :: Kept(b[k])
    ensures forall k | 0 <= k < |b[i..]| :: Kept(b[i..][k])
  {
    forall k | 0 <= k < |b[i..]| ensures Kept(b[i..][k]) { assert b[i..][k] == b[k + i]; }
  }

  lemma PointDigit(b: string, i: nat)
    requires i < |b| && b[i] == '.' && AllDigits(b[..i]) && AllDigits(b[i + 1..])
    ensures HasDigit(b) == (|b| > 1)
  {
    if |b| > 1 {
      if i > 0 {
        assert b[..i][0] == b[0];
      } else {
        assert b[i + 1..][0] == b[i + 1];
      }
    }
  }

  lemma UnsignedPoint(b: string, i: nat)
    requires forall k | 0 <= k < |b| :: Kept(b[k])
    requires IndexOf(b, '.') == Some(i)
    ensures Unsigned(b).Some? <==>
      multiset(b)['-'] == 0 && multiset(b)['.'] <= 1 && HasDigit(b)
  {
    PointParts(b, i);
    if AllDigits(b[..i]) && AllDigits(b[i + 1..]) {
      PointDigit(b, i);
    }
  }

  lemma UnsignedDefined(b: string)
    requires forall i | 0 <= i < |b| :: Kept(b[i])
    ensures Unsigned(b).Some? <==>
      multiset(b)['-'] == 0 && multiset(b)['.'] <= 1 && HasDigit(b)
  {
    match IndexOf(b, '.')
    case None => UnsignedNoPoint(b);
    case Some(i) => UnsignedPoint(b, i);
  }

  lemma {:induction false} KeepOnlyKept(s: string)
    ensures forall i | 0 <= i < |KeepNumeric(s)| :: Kept(KeepNumeric(s)[i])
    decreases |s|
  {
    if s != [] { KeepOnlyKept(s[1..]); }
  }

  /** On the cleaned text, `float` succeeds exactly on well-formed literals. */
  lemma LiteralDefined(f: string)
    requires forall i | 0 <= i < |f| :: Kept(f[i])
    ensures Literal(f).Some? <==> WellFormed(f)
  {
    if |f| > 0 && f[0] == '-' {
      assert forall i | 0 <= i < |f[1..]| :: Kept(f[1..][i]) by {
        forall i | 0 <= i < |f[1..]| ensures Kept(f[1..][i]) { assert f[1..][i] == f[i + 1]; }
      }
      UnsignedDefined(f[1..]);
    } else {
      assert |f| > 0 ==> Kept(f[0]);
      UnsignedDefined(f);
    }
  }

  /** `to_num(t)` is a number exactly when the comma-to-point, filtered text is
      a well-formed literal; otherwise it is missing. */
  lemma ToNumDefined(t: string)
    ensures ToNum(Some(t)).Some? <==> WellFormed(Cleaned(t))
  {
    ToNumCleaned(t);
    KeepOnlyKept(CommaToPoint(t));
    LiteralDefined(Cleaned(t));
  }

  /** `None`, the empty string and white space alone are missing. */
  lemma ToNumBlank(x: Option<string>)
    requires x.Some? ==> forall k | 0 <= k < |x.value| :: IsSpace(x.value[k])
    ensures ToNum(x) == None
  {
    if x.Some? {
      StripEmpty(x.value);
    }
  }

  lemma {:induction false} KeepAll(s: string)
    requires forall i | 0 <= i < |s| :: Kept(s[i])
    ensures KeepNumeric(s) == s
    decreases |s|
  {
    if s != [] { KeepAll(s[1..]); }
  }

  lemma {:induction false} CommaFree(s: string)
    requires ',' !in s
    ensures CommaToPoint(s) == s
    decreases |s|
  {
    if s != [] {
      assert s == [s[0]] + s[1..];
      CommaFree(s[1..]);
    }
  }

  /** The decimal text of a natural number reads back as that number. */
  lemma ToNumNatText(n: nat)
    ensures ToNum(Some(NatText(n))) == Some(n as real)
  {
    var s := NatText(n);
    assert ',' !in s && '.' !in s by {
      forall i | 0 <= i < |s| ensures s[i] != ',' && s[i] != '.' { assert IsDigit(s[i]); }
    }
    StripKeeps(s);
    CommaFree(s);
    KeepAll(s);
    NatTextValue(n);
  }

  /** `whole.frac` with digit strings on both sides, not both empty. */
  lemma UnsignedDecimal(whole: string, frac: string)
    requires AllDigits(whole) && AllDigits(frac) && |whole| + |frac| > 0
    ensures Unsigned(whole + "." + frac)
         == Some(DigitsValue(whole) as real + Fraction(frac))
  {
    var p := whole + "." + frac;
    assert '.' !in whole by {
      forall i | 0 <= i < |whole| ensures whole[i] != '.' { assert IsDigit(whole[i]); }
    }
    assert p[..|whole|] == whole && p[|whole| + 1..] == frac;
    IndexOfAt(p, '.', |whole|);
    UnsignedAt(p, |whole|, whole, frac);
  }

  lemma UnsignedAt(p: string, i: nat, whole: string, frac: string)
    requires IndexOf(p, '.') == Some(i) && i < |p| && p[..i] == whole && p[i + 1..] == frac
    requires AllDigits(whole) && AllDigits(frac) && |p| > 1
    ensures Unsigned(p) == Some(DigitsValue(whole) as real + Fraction(frac))
  {
  }

  lemma {:induction false} CommaPointwise(s: string)
    ensures forall i | 0 <= i < |s| :: CommaToPoint(s)[i] == if s[i] == ',' then '.' else s[i]
    decreases |s|
  {
    if s != [] { CommaPointwise(s[1..]); }
  }

  /** Text made only of kept characters and commas loses nothing but its commas. */
  lemma CleanedKept(s: string)
    requires forall i | 0 <= i < |s| :: Kept(s[i]) || s[i] == ','
    ensures Cleaned(s) == CommaToPoint(s)
  {
    CommaPointwise(s);
    KeepAll(CommaToPoint(s));
  }

  lemma CleanedDecimalComma(whole: string, frac: string)
    requires AllDigits(whole) && AllDigits(frac)
    ensures Cleaned(whole + "," + frac) == whole + "." + frac
  {
    var t := whole + "," + frac;
    assert forall i | 0 <= i < |t| :: Kept(t[i]) || t[i] == ',' by {
      forall i | 0 <= i < |t| ensures Kept(t[i]) || t[i] == ',' {
        if i < |whole| { assert t[i] == whole[i]; }
        else if i > |whole| { assert t[i] == frac[i - |whole| - 1]; }
      }
    }
    CleanedKept(t);
    CommaPointwise(t);
    assert CommaToPoint(t) == whole + "." + frac;
  }

  /** A decimal comma is read as a decimal point: `"12,5"` is 12.5. */
  lemma ToNumDecimalComma(whole: string, frac: string)
    requires AllDigits(whole) && AllDigits(frac) && |whole| + |frac| > 0
    ensures ToNum(Some(whole + "," + frac)) == Some(DigitsValue(whole) as real + Fraction(frac))
  {
    var p := whole + "." + frac;
    CleanedDecimalComma(whole, frac);
    ToNumCleaned(whole + "," + frac);
    assert p[0] != '-' && p[0] != '+' by {
      if |whole| > 0 { assert p[0] == whole[0]; }
    }
    UnsignedDecimal(whole, frac);
  }

  /** Thousands separators are not understood: `1.234,5` has two points once
      its comma becomes a point, so it is missing. */
  lemma ToNumThousands(a: string, b: string, c: string)
    requires AllDigits(a) && AllDigits(b) && AllDigits(c)
    ensures ToNum(Some(a + "." + b + "," + c)) == None
  {
    var t := a + "." + b + "," + c;
    var p := a + "." + b + "." + c;
    ThousandsCleaned(a, b, c);
    assert p[0] != '-' by {
      if |a| > 0 { assert p[0] == a[0]; } else { assert p[0] == '.'; }
    }
    assert multiset(p)['.'] >= 2 by {
      assert p == a + ["."[0]] + b + ["."[0]] + c;
    }
    ToNumDefined(t);
  }

  lemma ThousandsCleaned(a: string, b: string, c: string)
    requires AllDigits(a) && AllDigits(b) && AllDigits(c)
    ensures Cleaned(a + "." + b + "," + c) == a + "." + b + "." + c
  {
    var t := a + "." + b + "," + c;
    assert forall i | 0 <= i < |t| :: Kept(t[i]) || t[i] == ',' by {
      forall i | 0 <= i < |t| ensures Kept(t[i]) || t[i] == ',' {
        if i < |a| { assert t[i] == a[i]; }
        else if |a| < i < |a| + 1 + |b| { assert t[i] == b[i - |a| - 1]; }
        else if i > |a| + 1 + |b| { assert t[i] == c[i - |a| - |b| - 2]; }
      }
    }
    CleanedKept(t);
    CommaPointwise(t);
  }

  lemma ThousandsExample()
    ensures ToNum(Some("1.234,5")) == None
  {
    var t := "1" + "." + "234" + "," + "5";
    assert forall k | 0 <= k < 7 :: t[k] == "1.234,5"[k];
    assert t == "1.234,5";
    ToNumThousands("1", "234", "5");
  }

  /** A minus sign anywhere but first is missing: `"1-2"` is not a number. */
  lemma ToNumStrayMinus(a: string, b: string)
    requires IsDigitString(a) && AllDigits(b)
    ensures ToNum(Some(a + "-" + b)) == None
  {
    var t := a + "-" + b;
    StrayMinusCleaned(a, b);
    assert t[0] == a[0];
    assert multiset(t)['-'] >= 1 by {
      assert t == a + ["-"[0]] + b;
    }
    ToNumDefined(t);
  }

  lemma StrayMinusCleaned(a: string, b: string)
    requires AllDigits(a) && AllDigits(b)
    ensures Cleaned(a + "-" + b) == a + "-" + b
  {
    var t := a + "-" + b;
    assert forall i | 0 <= i < |t| :: Kept(t[i]) by {
      forall i | 0 <= i < |t| ensures Kept(t[i]) {
        if i < |a| { assert t[i] == a[i]; }
        else if i > |a| { assert t[i] == b[i - |a| - 1]; }
      }
    }
    CleanedKept(t);
    CommaPointwise(t);
  }

  lemma StrayMinusExample()
    ensures ToNum(Some("1-2")) == None
  {
    ToNumStrayMinus("1", "2");
    assert "1" + "-" + "2" == "1-2";
  }

  /** A sign alone is missing. */
  lemma ToNumSignAlone()
    ensures ToNum(Some("-")) == None
  {
    CleanedKept("-");
    CommaFree("-");
    assert !HasDigit([]);
    ToNumDefined("-");
  }

  /** White space around the text changes nothing. */
  lemma ToNumPadded(pre: string, t: string, post: string)
    requires forall k | 0 <= k < |pre| :: IsSpace(pre[k])
    requires forall k | 0 <= k < |post| :: IsSpace(post[k])
    ensures ToNum(Some(pre + t + post)) == ToNum(Some(t))
  {
    assert pre + t + post == pre + (t + post);
    CleanedAroundSpaces(pre, t, post);
    ToNumCleaned(pre + t + post);
    ToNumCleaned(t);
  }

  /** The part of `parse_rooms` that reads `X+Y`: both of the first two
      `+`-separated, stripped pieces must be digit strings. */
  function PlusPair(t: string): (r: Option<nat>)
    ensures r.Some? ==> '+' in t
  {
    if '+' !in t then None
    else
      var parts := Split(t, '+');
      if |parts| >= 2 && IsDigitString(Strip(parts[0])) && IsDigitString(Strip(parts[1]))
      then Some(DigitsValue(Strip(parts[0])) + DigitsValue(Strip(parts[1])))
      else None
  }

  /** `parse_rooms(v)` (AB_degil_01/app.py:53-65). */
  function ParseRooms(v: Option<string>): (r: Option<real>)
    ensures v.None? ==> r.None?
  {
    match v
    case None => None
    case Some(x) =>
      var t := Strip(Lower(x));
      if t == [] then None
      else if Contains(t, "studio") || Contains(t, "1+0") then Some(1.0)
      else match PlusPair(t)
        case Some(n) => Some(n as real)
        case None => ToNum(Some(t))
  }

  lemma {:induction false} ContainsHead(t: string, p: string)
    requires Contains(t, p) && p != []
    ensures p[0] in t
    decreases |t|
  {
    if !(p <= t) { ContainsHead(t[1..], p); }
  }

  lemma LowerKeeps(s: string)
    requires forall i | 0 <= i < |s| :: !('A' <= s[i] <= 'Z')
    ensures Lower(s) == s
  {
  }

  /** Text made of digits and `+` only. */
  predicate PlusDigits(t: string) {
    forall i | 0 <= i < |t| :: IsDigit(t[i]) || t[i] == '+'
  }

  lemma PlusDigitsJoin(a: string, b: string)
    requires IsDigitString(a) && IsDigitString(b)
    ensures PlusDigits(a + "+" + b)
  {
  }

  /** Lower-casing and stripping leave digits and `+` alone. */
  lemma PlusDigitsNormal(t: string)
    requires PlusDigits(t) && t != [] && IsDigit(t[0]) && IsDigit(t[|t| - 1])
    ensures Strip(Lower(t)) == t
  {
    LowerKeeps(t);
    StripKeeps(t);
  }

  lemma PlusDigitsNoStudio(t: string)
    requires PlusDigits(t)
    ensures !Contains(t, "studio")
  {
    if Contains(t, "studio") {
      ContainsHead(t, "studio");
      assert false;
    }
  }

  lemma SplitPair(a: string, b: string)
    requires IsDigitString(a) && IsDigitString(b)
    ensures '+' in a + "+" + b
    ensures Split(a + "+" + b, '+') == [a, b]
  {
    var t := a + "+" + b;
    assert t[|a|] == '+';
    assert t == Join([a, b], '+');
    assert '+' !in a && '+' !in b;
    SplitJoin([a, b], '+');
  }

  lemma PlusPairParts(t: string, a: string, b: string)
    requires '+' in t && |Split(t, '+')| >= 2 && Split(t, '+')[0] == a && Split(t, '+')[1] == b
    requires IsDigitString(a) && IsDigitString(b) && Strip(a) == a && Strip(b) == b
    ensures PlusPair(t) == Some(DigitsValue(a) + DigitsValue(b))
  {
  }

  /** `X+Y` with two digit strings is the pair the notation reads. */
  lemma PlusPairOf(a: string, b: string)
    requires IsDigitString(a) && IsDigitString(b)
    ensures PlusPair(a + "+" + b) == Some(DigitsValue(a) + DigitsValue(b))
  {
    SplitPair(a, b);
    StripKeeps(a);
    StripKeeps(b);
    PlusPairParts(a + "+" + b, a, b);
  }

  /** What `parse_rooms` needs to know about `X+Y`: it is already stripped
      and lower-case, it is not `studio`, and it reads as the pair. */
  lemma PlusTextFacts(a: string, b: string, t: string)
    requires IsDigitString(a) && IsDigitString(b) && t == a + "+" + b
    ensures t != [] && Strip(Lower(t)) == t && !Contains(t, "studio")
    ensures PlusPair(t) == Some(DigitsValue(a) + DigitsValue(b))
  {
    assert PlusDigits(t) by { PlusDigitsJoin(a, b); }
    assert Strip(Lower(t)) == t by {
      assert t[0] == a[0] && t[|t| - 1] == b[|b| - 1];
      PlusDigitsNormal(t);
    }
    PlusDigitsNoStudio(t);
    PlusPairOf(a, b);
  }

  /** Text whose lower-cased, stripped form reads as an `X+Y` pair counts
      `X + Y` rooms, unless that form contains `1+0`, which always reads as one
      room; with `PlusTextFacts`, this is what `parse_rooms` makes of `X+Y`. */
  lemma RoomsPair(x: string, n: nat)
    requires var t := Strip(Lower(x)); !Contains(t, "studio") && PlusPair(t) == Some(n)
    ensures var t := Strip(Lower(x));
      ParseRooms(Some(x)) == Some(if Contains(t, "1+0") then 1.0 else n as real)
  {
  }

  /** Lower-casing and stripping do not change what `to_num` reads. */
  lemma {:induction false} CleanedLower(s: string)
    ensures Cleaned(Lower(s)) == Cleaned(s)
    decreases |s|
  {
    if s != [] {
      assert CommaToPoint(Lower(s))[1..] == CommaToPoint(Lower(s[1..]));
      assert CommaToPoint(s)[1..] == CommaToPoint(s[1..]);
      CleanedLower(s[1..]);
    }
  }

  /** Text that is neither `studio`, nor contains `1+0`, nor a digit `X+Y` pair
      is read by `to_num`, as if `parse_rooms` had not lower-cased it. */
  lemma RoomsFallBack(x: string)
    requires var t := Strip(Lower(x));
      !Contains(t, "studio") && !Contains(t, "1+0") && PlusPair(t).None?
    ensures ParseRooms(Some(x)) == ToNum(Some(x))
  {
    var t := Strip(Lower(x));
    ToNumCleaned(t);
    ToNumCleaned(x);
    CleanedIgnoresStrip(Lower(x));
    CleanedLower(x);
    if t == [] {
      StripEmpty(Lower(x));
      KeepSpaces(Lower(x));
    }
  }

  /** Where `p` occurs in `t`. */
  lemma {:induction false} ContainsAt(t: string, p: string) returns (k: nat)
    requires Contains(t, p)
    ensures k + |p| <= |t| && t[k..k + |p|] == p
    decreases |t|
  {
    if p <= t {
      k := 0;
    } else {
      var k' := ContainsAt(t[1..], p);
      k := k' + 1;
      assert t[k..k + |p|] == t[1..][k'..k' + |p|];
    }
  }

  lemma {:induction false} ContainsFrom(t: string, p: string, k: nat)
    requires k + |p| <= |t| && t[k..k + |p|] == p
    ensures Contains(t, p)
    decreases k
  {
    if k > 0 {
      assert t[1..][k - 1..k - 1 + |p|] == t[k..k + |p|];
      ContainsFrom(t[1..], p, k - 1);
    } else {
      assert t[..|p|] == p;
    }
  }

  /** A piece that starts and ends with a non-space character survives `strip`. */
  lemma ContainsStrip(t: string, p: string)
    requires Contains(t, p) && p != [] && !IsSpace(p[0]) && !IsSpace(p[|p| - 1])
    ensures Contains(Strip(t), p)
  {
    var i, j := StripBounds(t);
    ContainsInside(t, p, i, j);
  }

  lemma ContainsInside(t: string, p: string, i: nat, j: nat)
    requires Contains(t, p) && p != [] && !IsSpace(p[0]) && !IsSpace(p[|p| - 1])
    requires i <= j <= |t|
    requires forall m | 0 <= m < i :: IsSpace(t[m])
    requires forall m | j <= m < |t| :: IsSpace(t[m])
    ensures Contains(t[i..j], p)
  {
    var k := ContainsAt(t, p);
    OccurrenceInside(t, p, i, j, k);
    ContainsInSlice(t, p, i, j, k);
  }

  lemma ContainsInSlice(t: string, p: string, i: nat, j: nat, k: nat)
    requires i <= k && k + |p| <= j <= |t| && t[k..k + |p|] == p
    ensures Contains(t[i..j], p)
  {
    SliceOfSlice(t, i, j, k, |p|);
    ContainsFrom(t[i..j], p, k - i);
  }

  /** An occurrence whose ends are not white space lies between the leading
      and the trailing white space. */
  lemma OccurrenceInside(t: string, p: string, i: nat, j: nat, k: nat)
    requires i <= j <= |t| && k + |p| <= |t| && t[k..k + |p|] == p
    requires p != [] && !IsSpace(p[0]) && !IsSpace(p[|p| - 1])
    requires forall m | 0 <= m < i :: IsSpace(t[m])
    requires forall m | j <= m < |t| :: IsSpace(t[m])
    ensures i <= k && k + |p| <= j
  {
    assert t[k] == p[0] by { assert t[k..k + |p|][0] == t[k]; }
    assert t[k + |p| - 1] == p[|p| - 1] by { assert t[k..k + |p|][|p| - 1] == t[k + |p| - 1]; }
  }

  lemma SliceOfSlice(t: string, i: nat, j: nat, k: nat, n: nat)
    requires i <= k && k + n <= j <= |t|
    ensures k - i + n <= |t[i..j]| && t[i..j][k - i..k - i + n] == t[k..k + n]
  {
    var u, v := t[i..j][k - i..k - i + n], t[k..k + n];
    assert forall m | 0 <= m < n :: u[m] == v[m];
  }

  /** `studio` or `1+0` anywhere in the text, in any letter case, is one room. */
  lemma RoomsOne(x: string)
    requires Contains(Lower(x), "studio") || Contains(Lower(x), "1+0")
    ensures ParseRooms(Some(x)) == Some(1.0)
  {
    if Contains(Lower(x), "studio") {
      ContainsStrip(Lower(x), "studio");
    } else {
      ContainsStrip(Lower(x), "1+0");
    }
  }

  /** Empty and white-space-only text is missing. */
  lemma RoomsBlank(x: string)
    requires forall k | 0 <= k < |x| :: IsSpace(x[k])
    ensures ParseRooms(Some(x)) == None
  {
    assert forall k | 0 <= k < |x| :: IsSpace(Lower(x)[k]);
    StripEmpty(Lower(x));
  }

  /** Text as long as the piece contains it only by being it. */
  lemma ContainsSameLength(t: string, p: string)
    requires |t| == |p|
    ensures Contains(t, p) <==> t == p
  {
    if Contains(t, p) {
      var k := ContainsAt(t, p);
      assert t[k..k + |p|] == t;
    }
  }

  lemma NoOnePlusZero()
    ensures !Contains("3+1", "1+0")
  {
    ContainsSameLength("3+1", "1+0");
    assert "3+1"[0] != "1+0"[0];
  }

  lemma ThreePlusOnePieces()
    ensures Strip(Lower("3+1")) == "3+1" && !Contains("3+1", "studio")
    ensures PlusPair("3+1") == Some(4)
  {
    ThreePlusOneDigits();
    PlusTextFacts("3", "1", "3+1");
  }

  lemma ThreePlusOneDigits()
    ensures IsDigitString("3") && IsDigitString("1") && "3+1" == "3" + "+" + "1"
    ensures DigitsValue("3") + DigitsValue("1") == 4
  {
    assert DigitsValue("3") == 3 && DigitsValue("1") == 1;
  }

  lemma RoomsThreePlusOne()
    ensures ParseRooms(Some("3+1")) == Some(4.0)
  {
    ThreePlusOnePieces();
    NoOnePlusZero();
    RoomsPair("3+1", 4);
  }

  /** Splitting after a first piece without the separator. */
  lemma SplitHead(x: string, rest: string, c: char)
    requires c !in x
    ensures Split(x + [c] + rest, c) == [x] + Split(rest, c)
  {
    var s := x + [c] + rest;
    assert s[|x|] == c;
    assert s[..|x|] == x;
    IndexOfAt(s, c, |x|);
    assert s[|x| + 1..] == rest;
  }

  /** Pieces after the second `+` are ignored. */
  lemma PlusPairRest(a: string, b: string, rest: string)
    requires IsDigitString(a) && IsDigitString(b)
    ensures PlusPair(a + "+" + b + "+" + rest) == Some(DigitsValue(a) + DigitsValue(b))
  {
    var t := a + "+" + b + "+" + rest;
    SplitRest(a, b, rest);
    StripKeeps(a);
    StripKeeps(b);
    PlusPairParts(t, a, b);
  }

  lemma SplitRest(a: string, b: string, rest: string)
    requires IsDigitString(a) && IsDigitString(b)
    ensures var t := a + "+" + b + "+" + rest;
      '+' in t && |Split(t, '+')| >= 2 && Split(t, '+')[0] == a && Split(t, '+')[1] == b
  {
    var t := a + "+" + b + "+" + rest;
    assert '+' !in a && '+' !in b;
    assert t == a + ['+'] + (b + ['+'] + rest);
    SplitHead(a, b + ['+'] + rest, '+');
    SplitHead(b, rest, '+');
    assert t[|a|] == '+';
  }

  /** `p` occurs at `k`, character by character. */
  lemma ContainsChars(t: string, p: string, k: nat)
    requires k + |p| <= |t| && forall m | 0 <= m < |p| :: t[k + m] == p[m]
    ensures Contains(t, p)
  {
    assert t[k..k + |p|] == p;
    ContainsFrom(t, p, k);
  }

  lemma RoomsStudio()
    ensures ParseRooms(Some(" Studio ")) == Some(1.0)
  {
    ContainsChars(Lower(" Studio "), "studio", 1);
    RoomsOne(" Studio ");
  }

  /** `11+0` contains `1+0`, so it also reads as one room. */
  lemma RoomsElevenPlusZero()
    ensures ParseRooms(Some("11+0")) == Some(1.0)
  {
    ContainsChars(Lower("11+0"), "1+0", 1);
    RoomsOne("11+0");
  }

  lemma RoomsTwo()
    ensures ParseRooms(Some("2")) == Some(2.0)
  {
    assert !Contains("2", "studio") && !Contains("2", "1+0");
    ToNumNatText(2);
  }

  lemma ThreePlusAPieces()
    ensures Strip(Lower("3+a")) == "3+a"
    ensures !Contains("3+a", "studio") && !Contains("3+a", "1+0")
  {
    var t := "3+a";
    LowerKeeps(t);
    StripKeeps(t);
    if Contains(t, "studio") { ContainsHead(t, "studio"); }
    ContainsSameLength(t, "1+0");
    assert t[0] != "1+0"[0];
  }

  lemma ThreePlusANoPair()
    ensures PlusPair("3+a").None?
  {
    assert "3+a" == Join(["3", "a"], '+');
    SplitJoin(["3", "a"], '+');
    StripKeeps("a");
  }

  lemma ThreePlusACleaned()
    ensures Cleaned("3+a") == "3" && Cleaned("3") == "3"
  {
  }

  lemma ThreePlusANumber()
    ensures ToNum(Some("3+a")) == Some(3.0)
  {
    ThreePlusACleaned();
    ToNumCleaned("3+a");
    ToNumCleaned("3");
    assert NatText(3) == "3";
    ToNumNatText(3);
  }

  /** `3+a` is not a digit pair, so `to_num` reads the digits it keeps. */
  lemma RoomsThreePlusA()
    ensures ParseRooms(Some("3+a")) == Some(3.0)
  {
    ThreePlusAPieces();
    ThreePlusANoPair();
    ThreePlusANumber();
  }
}
