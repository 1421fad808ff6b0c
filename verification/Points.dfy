/** Fantasy points in hundredths (`internal/stats/stats.go`): an exact decimal
    parser and printer on 64-bit integers. The newtypes make every intermediate
    result subject to an overflow check. */
module Points {
  import opened Results

  const MAX_INT64: int := 0x7FFF_FFFF_FFFF_FFFF
  const MIN_INT64: int := -0x8000_0000_0000_0000
  const MAX_UINT64: int := 0xFFFF_FFFF_FFFF_FFFF

  newtype int64 = x: int | -0x8000_0000_0000_0000 <= x <= 0x7FFF_FFFF_FFFF_FFFF
  newtype uint64 = x: int | 0 <= x <= 0xFFFF_FFFF_FFFF_FFFF

  datatype PointsError = BlankPoints | InvalidPoints | PointsOverflow

  // ---- decimal numerals ----

  predicate IsDigit(c: char) {
    '0' <= c <= '9'
  }

  ghost predicate AllDigits(s: string) {
    forall i :: 0 <= i < |s| ==> IsDigit(s[i])
  }

  function DigitValue(c: char): (d: nat)
    requires IsDigit(c)
    ensures d < 10
  {
    (c as int) - ('0' as int)
  }

  /** The number a string of digits spells. */
  function NumeralValue(s: string): nat
    requires forall i :: 0 <= i < |s| ==> IsDigit(s[i])
  {
    if s == "" then 0 else 10 * NumeralValue(s[..|s| - 1]) + DigitValue(s[|s| - 1])
  }

  function DigitChar(d: nat): (c: char)
    requires d < 10
    ensures IsDigit(c) && DigitValue(c) == d
  {
    '0' + d as char
  }

  /** `strconv.FormatUint(n, 10)`. */
  function Decimal(n: nat): (s: string)
    ensures s != "" && forall i :: 0 <= i < |s| ==> IsDigit(s[i])
  {
    if n < 10 then [DigitChar(n)] else Decimal(n / 10) + [DigitChar(n % 10)]
  }

  lemma {:induction false} DecimalSpells(n: nat)
    ensures NumeralValue(Decimal(n)) == n
    decreases n
  {
    var s := Decimal(n);
    if n < 10 {
      assert s[..0] == "";
    } else {
      DecimalSpells(n / 10);
      assert s[..|s| - 1] == Decimal(n / 10);
    }
  }

  lemma {:induction false} OneDigit(c: char)
    requires IsDigit(c)
    ensures NumeralValue([c]) == DigitValue(c)
  {
    assert [c][..0] == "";
  }

  lemma {:induction false} AppendDigit(s: string, c: char)
    requires AllDigits(s) && IsDigit(c)
    ensures AllDigits(s + [c]) && NumeralValue(s + [c]) == 10 * NumeralValue(s) + DigitValue(c)
  {
    assert (s + [c])[..|s|] == s;
  }

  lemma {:induction false} AppendTwoDigits(s: string, t: string)
    requires AllDigits(s) && AllDigits(t) && |t| == 2
    ensures AllDigits(s + t) && NumeralValue(s + t) == 100 * NumeralValue(s) + NumeralValue(t)
  {
    OneDigit(t[0]);
    AppendDigit([t[0]], t[1]);
    AppendDigit(s, t[0]);
    AppendDigit(s + [t[0]], t[1]);
    assert t == [t[0]] + [t[1]];
    assert s + t == s + [t[0]] + [t[1]];
  }

  // ---- what a points string means ----

  /** `value` is a sign or nothing, digits, and an optional dot with one or two digits. */
  ghost predicate Spells(value: string, sign: string, whole: string, fraction: string) {
    && sign in ["", "+", "-"]
    && whole != "" && AllDigits(whole)
    && |fraction| <= 2 && AllDigits(fraction)
    && value == sign + whole + (if fraction == "" then "" else "." + fraction)
  }

  ghost function Hundredths(sign: string, whole: string, fraction: string): int
    requires AllDigits(whole) && AllDigits(fraction) && |fraction| <= 2
  {
    var cents :=
      if |fraction| == 0 then 0
      else if |fraction| == 1 then 10 * NumeralValue(fraction)
      else NumeralValue(fraction);
    var magnitude := 100 * NumeralValue(whole) + cents;
    if sign == "-" then -magnitude else magnitude
  }

  /** `value` is well formed and its exact value is `h` hundredths. */
  ghost predicate Denotes(value: string, h: int) {
    exists sign, whole, fraction :: Spells(value, sign, whole, fraction) && h == Hundredths(sign, whole, fraction)
  }

  // ---- parsing ----

  /** `strings.Cut(s, ".")`. */
  function Cut(s: string): (r: (string, string, bool))
    ensures !r.2 ==> r.0 == s && r.1 == ""
    ensures r.2 ==> s == r.0 + "." + r.1
    ensures '.' !in r.0
  {
    if s == "" then ("", "", false)
    else if s[0] == '.' then ("", s[1..], true)
    else
      var r := Cut(s[1..]);
      ([s[0]] + r.0, r.1, r.2)
  }

  lemma {:induction false} CutAtFirstDot(whole: string, rest: string)
    requires '.' !in whole
    ensures Cut(whole + "." + rest) == (whole, rest, true)
    decreases |whole|
  {
    var s := whole + "." + rest;
    if whole == "" {
      assert s[1..] == rest;
    } else {
      CutAtFirstDot(whole[1..], rest);
      assert s[1..] == whole[1..] + "." + rest;
      assert whole == [whole[0]] + whole[1..];
    }
  }

  lemma {:induction false} CutWithoutDot(whole: string)
    requires '.' !in whole
    ensures Cut(whole) == (whole, "", false)
  {
    var r := Cut(whole);
    assert (r.0 + "." + r.1)[|r.0|] == '.';
    assert '.' in r.0 + "." + r.1;
  }

  method AreDigits(s: string) returns (ok: bool)
    ensures ok <==> AllDigits(s)
  {
    for i := 0 to |s|
      invariant AllDigits(s[..i])
    {
      if s[i] < '0' || s[i] > '9' { return false; }
      assert s[..i + 1] == s[..i] + [s[i]];
    }
    assert s[..|s|] == s;
    return true;
  }

  /** `strconv.ParseUint(s, 10, 64)` on digits. */
  function ParseUint(s: string): (r: Option<uint64>)
    requires AllDigits(s)
    ensures r.Some? <==> NumeralValue(s) <= MAX_UINT64
    ensures r.Some? ==> r.value as int == NumeralValue(s)
  {
    if NumeralValue(s) <= MAX_UINT64 then Some(NumeralValue(s) as uint64) else None
  }

  /** A spelling can be read in one way only: the parser's split recovers it. */
  lemma {:induction false} SplitRecovers(value: string, sign: string, whole: string, fraction: string)
    requires Spells(value, sign, whole, fraction)
    ensures value != ""
    ensures value[0] == '-' <==> sign == "-"
    ensures value[0] == '+' <==> sign == "+"
    ensures Cut(if sign == "" then value else value[1..]) == (whole, fraction, fraction != "")
  {
    assert IsDigit(whole[0]);
    var digits := whole + (if fraction == "" then "" else "." + fraction);
    if sign == "" {
      assert value == digits && value[0] == whole[0];
    } else {
      assert value[1..] == digits && value[0] == sign[0];
    }
    assert '.' !in whole;
    if fraction == "" {
      assert digits == whole;
      CutWithoutDot(whole);
    } else {
      assert digits == whole + "." + fraction;
      CutAtFirstDot(whole, fraction);
    }
  }

  lemma {:induction false} SpellsUnique(value: string, s1: string, w1: string, f1: string, s2: string, w2: string, f2: string)
    requires Spells(value, s1, w1, f1) && Spells(value, s2, w2, f2)
    ensures s1 == s2 && w1 == w2 && f1 == f2
  {
    SplitRecovers(value, s1, w1, f1);
    SplitRecovers(value, s2, w2, f2);
  }

  lemma {:induction false} DenotesUnique(value: string, h: int, k: int)
    requires Denotes(value, h) && Denotes(value, k)
    ensures h == k
  {
    var s1, w1, f1 :| Spells(value, s1, w1, f1) && h == Hundredths(s1, w1, f1);
    var s2, w2, f2 :| Spells(value, s2, w2, f2) && k == Hundredths(s2, w2, f2);
    SpellsUnique(value, s1, w1, f1, s2, w2, f2);
  }

  function PadFraction(fraction: string): string {
    if fraction == "" then "00" else if |fraction| == 1 then fraction + "0" else fraction
  }

  lemma {:induction false} PaddedMagnitude(sign: string, whole: string, fraction: string)
    requires AllDigits(whole) && AllDigits(fraction) && |fraction| <= 2
    ensures AllDigits(whole + PadFraction(fraction))
    ensures Hundredths(sign, whole, fraction) ==
      var magnitude: int := NumeralValue(whole + PadFraction(fraction)); if sign == "-" then -magnitude else magnitude
  {
    var padded := PadFraction(fraction);
    assert AllDigits(padded);
    AppendTwoDigits(whole, padded);
    if fraction == "" {
      OneDigit('0');
      AppendDigit(['0'], '0');
      assert padded == ['0'] + ['0'];
    } else if |fraction| == 1 {
      AppendDigit(fraction, '0');
      assert padded == fraction + ['0'];
    }
  }

  ghost predicate Malformed(value: string) {
    forall h :: !Denotes(value, h)
  }

  ghost predicate DenotesExactly(value: string, exact: int) {
    Denotes(value, exact) && forall h :: Denotes(value, h) ==> h == exact
  }

  lemma {:induction false} SpellingIsExact(value: string, sign: string, whole: string, fraction: string)
    requires Spells(value, sign, whole, fraction)
    ensures AllDigits(whole + PadFraction(fraction))
    ensures DenotesExactly(value,
      var magnitude: int := NumeralValue(whole + PadFraction(fraction)); if sign == "-" then -magnitude else magnitude)
  {
    PaddedMagnitude(sign, whole, fraction);
    var exact := Hundredths(sign, whole, fraction);
    assert Denotes(value, exact);
    forall h | Denotes(value, h) ensures h == exact { DenotesUnique(value, h, exact); }
  }

  /** The syntactic half of the parser: the sign and the padded digits. */
  method ReadNumeral(value: string) returns (ok: bool, negative: bool, digits: string)
    ensures !ok ==> Malformed(value)
    ensures ok ==> AllDigits(digits)
    ensures ok ==> DenotesExactly(value, var magnitude: int := NumeralValue(digits); if negative then -magnitude else magnitude)
  {
    ok, negative, digits := false, false, value;
    if value == "" {
      EmptyDenotesNothing();
      return;
    }
    ghost var sign := "";
    if digits[0] == '+' || digits[0] == '-' {
      negative := digits[0] == '-';
      sign := [digits[0]];
      digits := digits[1..];
      if digits == "" {
        NotSpelled(value, sign, digits);
        return;
      }
    }
    ok, digits := ReadMagnitude(value, sign, digits);
  }

  /** The digits behind the sign, padded to hundredths. */
  method ReadMagnitude(ghost value: string, ghost sign: string, unsigned: string) returns (ok: bool, digits: string)
    requires value != "" && sign == (if value[0] == '+' || value[0] == '-' then [value[0]] else "")
    requires unsigned == if sign == "" then value else value[1..]
    ensures !ok ==> Malformed(value)
    ensures ok ==> AllDigits(digits)
    ensures ok ==> DenotesExactly(value, var magnitude: int := NumeralValue(digits); if sign == "-" then -magnitude else magnitude)
  {
    ok, digits := false, "";
    var (whole, fraction, hasDecimal) := Cut(unsigned);
    if whole == "" || (hasDecimal && (|fraction| == 0 || |fraction| > 2)) || '.' in fraction {
      NotSpelled(value, sign, unsigned);
      return;
    }
    var allDigits := AreDigits(whole + fraction);
    if !allDigits {
      NotSpelled(value, sign, unsigned);
      return;
    }
    SplitDigits(whole, fraction);
    assert Spells(value, sign, whole, fraction);
    SpellingIsExact(value, sign, whole, fraction);
    ok, digits := true, whole + PadFraction(fraction);
  }

  /** Accepts exactly the well-formed strings whose value fits, and returns that value. */
  method ParsePoints(value: string) returns (r: Result<int64, PointsError>)
    ensures forall h: int :: (r.Ok? && r.value as int == h) <==> (Denotes(value, h) && MIN_INT64 <= h <= MAX_INT64)
    ensures r.Err? && r.error.PointsOverflow? ==> exists h :: Denotes(value, h) && !(MIN_INT64 <= h <= MAX_INT64)
    ensures r.Err? && !r.error.PointsOverflow? ==> Malformed(value) && (r.error.BlankPoints? <==> value == "")
  {
    var ok, negative, digits := ReadNumeral(value);
    if !ok {
      return Err(if value == "" then BlankPoints else InvalidPoints);
    }
    if value == "" { EmptyDenotesNothing(); }
    var magnitude := ParseUint(digits);
    if magnitude.None? { return Err(PointsOverflow); }
    if negative {
      var minMagnitude: uint64 := 0x8000_0000_0000_0000;
      if magnitude.value > minMagnitude { return Err(PointsOverflow); }
      if magnitude.value == minMagnitude { return Ok(-0x8000_0000_0000_0000); }
      return Ok(-(magnitude.value as int64));
    }
    if magnitude.value > 0x7FFF_FFFF_FFFF_FFFF { return Err(PointsOverflow); }
    return Ok(magnitude.value as int64);
  }

  lemma {:induction false} SplitDigits(s: string, t: string)
    requires AllDigits(s + t)
    ensures AllDigits(s) && AllDigits(t)
  {
    assert forall i :: 0 <= i < |s| ==> (s + t)[i] == s[i];
    assert forall i :: 0 <= i < |t| ==> (s + t)[|s| + i] == t[i];
  }

  lemma {:induction false} EmptyDenotesNothing()
    ensures Malformed("")
  {
    forall sign, whole, fraction ensures !Spells("", sign, whole, fraction) {
      assert |sign + whole + (if fraction == "" then "" else "." + fraction)| >= |whole|;
    }
  }

  ghost predicate BadPieces(digits: string) {
    var (whole, fraction, dot) := Cut(digits);
    whole == "" || (dot && (|fraction| == 0 || |fraction| > 2)) || '.' in fraction || !AllDigits(whole + fraction)
  }

  lemma {:induction false} SpelledPiecesAreGood(value: string, sign: string, whole: string, fraction: string)
    requires Spells(value, sign, whole, fraction)
    ensures value != "" && sign == (if value[0] == '+' || value[0] == '-' then [value[0]] else "")
    ensures !BadPieces(if sign == "" then value else value[1..])
  {
    SplitRecovers(value, sign, whole, fraction);
    assert forall i :: 0 <= i < |whole + fraction| ==> IsDigit((whole + fraction)[i]);
  }

  /** If the split pieces are not digits of the right number, no spelling exists. */
  lemma {:induction false} NotSpelled(value: string, sign: string, digits: string)
    requires value != "" && sign == (if value[0] == '+' || value[0] == '-' then [value[0]] else "")
    requires digits == (if sign == "" then value else value[1..]) && BadPieces(digits)
    ensures Malformed(value)
  {
    forall h ensures !Denotes(value, h) {
      if Denotes(value, h) {
        var s, w, f :| Spells(value, s, w, f) && h == Hundredths(s, w, f);
        SpelledPiecesAreGood(value, s, w, f);
      }
    }
  }

  // ---- printing ----

  function TrimSuffixZero(s: string): string {
    if |s| > 0 && s[|s| - 1] == '0' then s[..|s| - 1] else s
  }

  /** The parts printed for `m` hundredths. */
  lemma {:induction false} PrintedParts(m: nat, s: string, whole: string, shown: string)
    requires whole == Decimal(m / 100)
    requires m % 100 == 0 ==> shown == "" && s == whole
    requires m % 100 != 0 ==>
      && shown == TrimSuffixZero((if m % 100 < 10 then "0" else "") + Decimal(m % 100))
      && s == whole + "." + shown
    ensures Spells(s, "", whole, shown) && Hundredths("", whole, shown) == m
    ensures Terse(whole, shown)
  {
    DecimalSpells(m / 100);
    if m % 100 != 0 {
      FractionSpells(m % 100, (if m % 100 < 10 then "0" else "") + Decimal(m % 100));
    }
  }

  /** The digits and fraction of a magnitude, without its sign. */
  method MagnitudeString(magnitude: uint64) returns (s: string, ghost whole: string, ghost shown: string)
    ensures Spells(s, "", whole, shown) && Hundredths("", whole, shown) == magnitude as int
    ensures Terse(whole, shown)
  {
    s := Decimal((magnitude / 100) as nat);
    whole, shown := s, "";
    var fraction := magnitude % 100;
    if fraction != 0 {
      var tail := if fraction < 10 then "0" else "";
      tail := tail + Decimal(fraction as nat);
      shown := TrimSuffixZero(tail);
      TrimBehindDot(whole, tail);
      s := TrimSuffixZero(s + "." + tail);
    }
    PrintedParts(magnitude as nat, s, whole, shown);
  }

  /** No leading zeros in the whole part, no zero at the end of the fraction. */
  ghost predicate Terse(whole: string, fraction: string) {
    && whole != "" && AllDigits(whole) && whole == Decimal(NumeralValue(whole))
    && AllDigits(fraction) && |fraction| <= 2
    && (fraction != "" ==> fraction[|fraction| - 1] != '0')
  }

  lemma {:induction false} DecimalIsShortest(w: string)
    requires w != "" && AllDigits(w)
    ensures |Decimal(NumeralValue(w))| <= |w|
    decreases |w|
  {
    if |w| > 1 {
      var init := w[..|w| - 1];
      DecimalIsShortest(init);
      var n := NumeralValue(init);
      var d := DigitValue(w[|w| - 1]);
      assert NumeralValue(w) == 10 * n + d;
      assert (10 * n + d) / 10 == n;
    } else {
      OneDigit(w[0]);
      assert w == [w[0]];
    }
  }

  lemma {:induction false} TwoDigitValue(f: string)
    requires AllDigits(f) && |f| == 2
    ensures NumeralValue(f) == 10 * DigitValue(f[0]) + DigitValue(f[1])
  {
    OneDigit(f[0]);
    AppendDigit([f[0]], f[1]);
    assert f == [f[0]] + [f[1]];
  }

  ghost function Cents(fraction: string): (c: nat)
    requires AllDigits(fraction) && |fraction| <= 2
    ensures c < 100
    ensures fraction == "" ==> c == 0
    ensures |fraction| == 1 ==> c % 10 == 0
  {
    if |fraction| == 0 then 0
    else if |fraction| == 1 then OneDigit(fraction[0]); assert fraction == [fraction[0]]; 10 * NumeralValue(fraction)
    else TwoDigitValue(fraction); NumeralValue(fraction)
  }

  lemma {:induction false} TerseFraction(fraction: string)
    requires AllDigits(fraction) && |fraction| <= 2 && (fraction != "" ==> fraction[|fraction| - 1] != '0')
    ensures fraction != "" ==> Cents(fraction) > 0
    ensures |fraction| == 2 ==> Cents(fraction) % 10 != 0
  {
    if |fraction| == 1 {
      OneDigit(fraction[0]);
      assert fraction == [fraction[0]];
    } else if |fraction| == 2 {
      TwoDigitValue(fraction);
    }
  }

  /** A terse spelling is as short as any spelling of the same value. */
  lemma {:induction false} TerseIsShortest(s: string, sign: string, whole: string, fraction: string, t: string)
    requires Spells(s, sign, whole, fraction) && Terse(whole, fraction)
    requires sign == "-" ==> Hundredths(sign, whole, fraction) < 0
    requires sign != "+"
    requires Denotes(t, Hundredths(sign, whole, fraction))
    ensures |s| <= |t|
  {
    var s2, w2, f2 :| Spells(t, s2, w2, f2) && Hundredths(s2, w2, f2) == Hundredths(sign, whole, fraction);
    var a: int, b: int := 100 * NumeralValue(whole) + Cents(fraction), 100 * NumeralValue(w2) + Cents(f2);
    assert Hundredths(sign, whole, fraction) == if sign == "-" then -a else a;
    assert Hundredths(s2, w2, f2) == if s2 == "-" then -b else b;
    assert a == b;
    assert NumeralValue(whole) == NumeralValue(w2) && Cents(fraction) == Cents(f2);
    TerseFraction(fraction);
    DecimalIsShortest(w2);
    assert |whole| <= |w2| && |fraction| <= |f2| && |sign| <= |s2|;
  }

  /** `Points.String`: no overflow on the way, `MinInt64` included; the result reads as the
      same points, and no other way to write them is shorter. */
  method PointsString(raw: int64) returns (s: string)
    ensures Denotes(s, raw as int)
    ensures forall t :: Denotes(t, raw as int) ==> |s| <= |t|
  {
    var negative := raw < 0;
    var magnitude: uint64;
    if negative {
      magnitude := (-(raw + 1)) as uint64 + 1;
    } else {
      magnitude := raw as uint64;
    }
    ghost var whole, shown;
    s, whole, shown := MagnitudeString(magnitude);
    ghost var sign := "";
    if negative && magnitude != 0 {
      SignInFront(s, whole, shown);
      s := "-" + s;
      sign := "-";
    }
    forall t | Denotes(t, raw as int) ensures |s| <= |t| {
      TerseIsShortest(s, sign, whole, shown, t);
    }
  }

  lemma {:induction false} SignInFront(s: string, whole: string, fraction: string)
    requires Spells(s, "", whole, fraction)
    ensures Spells("-" + s, "-", whole, fraction)
    ensures Hundredths("-", whole, fraction) == -Hundredths("", whole, fraction)
    ensures Denotes("-" + s, -Hundredths("", whole, fraction))
  {
    assert "-" + s == "-" + whole + (if fraction == "" then "" else "." + fraction);
  }

  lemma {:induction false} TrimBehindDot(whole: string, tail: string)
    requires |tail| > 0
    ensures TrimSuffixZero(whole + "." + tail) == whole + "." + TrimSuffixZero(tail)
  {
    var s := whole + "." + tail;
    assert s[|s| - 1] == tail[|tail| - 1];
    assert s[..|s| - 1] == whole + "." + tail[..|tail| - 1];
  }

  /** The printed fraction: two digits, less a final zero, worth `f` hundredths. */
  lemma {:induction false} FractionSpells(f: nat, tail: string)
    requires 0 < f < 100
    requires tail == (if f < 10 then "0" else "") + Decimal(f)
    ensures |tail| == 2 && AllDigits(tail) && NumeralValue(tail) == f
    ensures var t := TrimSuffixZero(tail);
      1 <= |t| <= 2 && t[|t| - 1] != '0' && AllDigits(t) && f == if |t| == 1 then 10 * NumeralValue(t) else NumeralValue(t)
  {
    DecimalSpells(f);
    if f < 10 {
      OneDigit('0');
      AppendDigit(['0'], DigitChar(f));
      assert tail == ['0'] + [DigitChar(f)];
    } else {
      assert Decimal(f / 10) == [DigitChar(f / 10)];
      assert tail == [DigitChar(f / 10)] + [DigitChar(f % 10)];
    }
    if tail[1] == '0' {
      var t := tail[..1];
      assert tail == t + ['0'];
      AppendDigit(t, '0');
    }
  }

  /** Printing and reading back is the identity on every int64. */
  method PrintAndParse(points: int64) returns (r: Result<int64, PointsError>)
    ensures r == Ok(points)
  {
    var s := PointsString(points);
    r := ParsePoints(s);
  }

  /** Different points print differently. */
  method PrintedFormsDiffer(p: int64, q: int64) returns (s: string, t: string)
    requires p != q
    ensures Denotes(s, p as int) && Denotes(t, q as int) && s != t
  {
    s := PointsString(p);
    t := PointsString(q);
    if s == t { DenotesUnique(s, p as int, q as int); }
  }

  // ---- floating-point scores ----

  ghost function FractionValue(fraction: string): real
    requires AllDigits(fraction)
  {
    if fraction == "" then 0.0 else (DigitValue(fraction[0]) as real + FractionValue(fraction[1..])) / 10.0
  }

  /** The shape of a shortest decimal form: digits, and a fraction only when it does not end in zero. */
  ghost predicate PlainDecimal(text: string, sign: string, whole: string, fraction: string) {
    && sign in ["", "-"]
    && whole != "" && AllDigits(whole) && AllDigits(fraction)
    && (fraction != "" ==> fraction[|fraction| - 1] != '0')
    && text == sign + whole + (if fraction == "" then "" else "." + fraction)
  }

  ghost function PlainValue(sign: string, whole: string, fraction: string): real
    requires AllDigits(whole) && AllDigits(fraction)
  {
    var magnitude := NumeralValue(whole) as real + FractionValue(fraction);
    if sign == "-" then -magnitude else magnitude
  }

  /** `text` is `strconv.FormatFloat(value, 'f', -1, 64)` for a value that is exactly `value`. */
  ghost predicate WrittenOut(text: string, value: real) {
    exists sign, whole, fraction :: PlainDecimal(text, sign, whole, fraction) && value == PlainValue(sign, whole, fraction)
  }

  lemma {:induction false} FractionBelowOne(fraction: string)
    requires fraction != "" && AllDigits(fraction) && fraction[|fraction| - 1] != '0'
    ensures 0.0 < FractionValue(fraction) < 1.0
    decreases |fraction|
  {
    if |fraction| > 1 {
      FractionBelowOne(fraction[1..]);
    } else {
      assert FractionValue(fraction[1..]) == 0.0;
    }
  }

  lemma {:induction false} ShortFraction(fraction: string)
    requires AllDigits(fraction) && |fraction| <= 2
    ensures 100.0 * FractionValue(fraction) == Cents(fraction) as real
  {
    if |fraction| == 1 {
      OneDigit(fraction[0]);
      assert fraction == [fraction[0]] && FractionValue(fraction[1..]) == 0.0;
    } else if |fraction| == 2 {
      TwoDigitValue(fraction);
      assert FractionValue(fraction[1..][1..]) == 0.0;
    }
  }

  /** More than two fraction digits are not a whole number of hundredths. */
  lemma {:induction false} LongFraction(sign: string, whole: string, fraction: string, h: int)
    requires AllDigits(whole) && AllDigits(fraction) && |fraction| > 2 && fraction[|fraction| - 1] != '0'
    ensures h as real != 100.0 * PlainValue(sign, whole, fraction)
  {
    var rest := fraction[1..][1..];
    FractionBelowOne(rest);
    var n: int := 100 * NumeralValue(whole) + 10 * DigitValue(fraction[0]) + DigitValue(fraction[1]);
    var magnitude := NumeralValue(whole) as real + FractionValue(fraction);
    assert 10.0 * FractionValue(fraction) == DigitValue(fraction[0]) as real + FractionValue(fraction[1..]);
    assert 10.0 * FractionValue(fraction[1..]) == DigitValue(fraction[1]) as real + FractionValue(rest);
    assert 100.0 * magnitude == n as real + FractionValue(rest);
    NotWhole(n, FractionValue(rest), h);
    NotWhole(n, FractionValue(rest), -h);
  }

  lemma {:induction false} NotWhole(n: int, x: real, h: int)
    requires 0.0 < x < 1.0
    ensures h as real != n as real + x
  {
    if h <= n { assert h as real <= n as real; } else { assert h as real >= (n + 1) as real; }
  }

  lemma {:induction false} LongIsMalformed(text: string, sign: string, whole: string, fraction: string)
    requires PlainDecimal(text, sign, whole, fraction) && |fraction| > 2
    ensures Malformed(text)
  {
    var digits := whole + "." + fraction;
    assert IsDigit(whole[0]) && digits[0] == whole[0];
    assert text == sign + digits;
    CutAtFirstDot(whole, fraction);
    NotSpelled(text, sign, digits);
  }

  /** What a written-out value denotes: its number of hundredths, if that is whole. */
  lemma {:induction false} WrittenOutDenotes(text: string, value: real, h: int)
    requires WrittenOut(text, value)
    ensures Denotes(text, h) <==> h as real == value * 100.0
  {
    var sign, whole, fraction :| PlainDecimal(text, sign, whole, fraction) && value == PlainValue(sign, whole, fraction);
    if |fraction| > 2 {
      LongFraction(sign, whole, fraction, h);
      LongIsMalformed(text, sign, whole, fraction);
    } else {
      ShortFraction(fraction);
      assert Spells(text, sign, whole, fraction);
      var exact := Hundredths(sign, whole, fraction);
      assert exact as real == value * 100.0;
      assert Denotes(text, exact);
      if Denotes(text, h) { DenotesUnique(text, h, exact); }
    }
  }

  // ---- whole points ----

  /** `PointsFromWhole`; none stands for its panic. Go's constant division truncates. */
  function PointsFromWhole(value: int64): (r: Option<int64>)
    ensures r.Some? <==> MIN_INT64 <= 100 * (value as int) <= MAX_INT64
    ensures r.Some? ==> Denotes(SignedDecimal(value as int), r.value as int)
  {
    SignedDecimalDenotes(value as int);
    if value > 92233720368547758 || value < -92233720368547758 then None else Some(value * 100)
  }

  function SignedDecimal(n: int): string {
    if n < 0 then "-" + Decimal(-n) else Decimal(n)
  }

  lemma {:induction false} SignedDecimalDenotes(n: int)
    ensures Denotes(SignedDecimal(n), 100 * n)
  {
    var sign := if n < 0 then "-" else "";
    var whole := Decimal(if n < 0 then -n else n);
    DecimalSpells(if n < 0 then -n else n);
    assert Spells(SignedDecimal(n), sign, whole, "");
    assert Hundredths(sign, whole, "") == 100 * n;
  }
}
