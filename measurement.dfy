/** The measurement transform of app.js (`parseWithingsData`): pick the first weight and
    the first body-fat measure of the first measurement group and turn each scaled
    integer into decimal text by inserting a point `-unit` characters from the right. */
module Measurement {
  import opened Js

  /** Measure type codes of the scale provider. */
  const WeightKind := 1
  const FatKind := 6

  /** One reading: `type`, scaled integer `value` and decimal exponent `unit`. */
  datatype Measure = Measure(kind: int, value: int, unit: int)

  /** One measurement group: its epoch-seconds `date` and its measures in payload order. */
  datatype Group = Group(date: int, measures: seq<Measure>)

  /** The fields `parseWithingsData` sets. `weight` and `fat` are None when left unset.
      The formatted `date` and `time` are both derived from the one epoch kept here. */
  datatype Parsed = Parsed(weight: Option<string>, fat: Option<string>, stamp: int)

  // ---------------------------------------------------------------------------
  // Decimal insertion

  /** `${raw.slice(0, len - modifier)}.${raw.slice(len - modifier)}` with
      `raw = ${value}` and `modifier = unit * -1`. */
  function FixedPoint(value: int, unit: int): (r: string)
    ensures |r| == |NumberToString(value)| + 1
    ensures '.' in r
  {
    var raw := NumberToString(value);
    var modifier := unit * -1;
    var len := |raw|;
    Slice(raw, 0, len - modifier) + "." + SliceFrom(raw, len - modifier)
  }

  /** Where the point lands in the digit string, for any exponent. */
  function PointIndex(value: int, unit: int): (j: nat)
    ensures j <= |NumberToString(value)|
    ensures unit <= 0 && -unit <= |NumberToString(value)| ==> j == |NumberToString(value)| + unit
  {
    SliceIndex(|NumberToString(value)| + unit, |NumberToString(value)|)
  }

  /** Whatever the exponent, the result is the digit string with one point inserted. */
  lemma PointInserted(value: int, unit: int)
    ensures var raw, j := NumberToString(value), PointIndex(value, unit);
      FixedPoint(value, unit) == raw[..j] + "." + raw[j..]
  {
  }

  /** Within the supported range the point sits exactly `-unit` characters from the right,
      so the fractional part has exactly `-unit` characters. */
  lemma FractionDigits(value: int, unit: int)
    requires unit <= 0 && -unit <= |NumberToString(value)|
    ensures var raw, r, k := NumberToString(value), FixedPoint(value, unit), |NumberToString(value)| + unit;
      && r == raw[..k] + "." + raw[k..]
      && r[k] == '.'
      && |r[k + 1..]| == -unit
  {
  }

  /** The text `s` with every `c` dropped. */
  function Without(s: string, c: char): (r: string)
    ensures |r| <= |s|
  {
    if s == [] then [] else (if s[0] == c then [] else [s[0]]) + Without(s[1..], c)
  }

  lemma {:induction false} WithoutConcat(a: string, b: string, c: char)
    ensures Without(a + b, c) == Without(a, c) + Without(b, c)
  {
    if a == [] {
      assert a + b == b;
    } else {
      assert (a + b)[1..] == a[1..] + b;
      WithoutConcat(a[1..], b, c);
    }
  }

  lemma {:induction false} WithoutAbsent(s: string, c: char)
    requires c !in s
    ensures Without(s, c) == s
  {
    if s != [] {
      assert c !in s[1..];
      WithoutAbsent(s[1..], c);
    }
  }

  /** Round trip: deleting the inserted point gives back `${value}`, for every exponent. */
  lemma RemovingPointRestoresDigits(value: int, unit: int)
    ensures Without(FixedPoint(value, unit), '.') == NumberToString(value)
  {
    var raw, j := NumberToString(value), PointIndex(value, unit);
    var left, right := raw[..j], raw[j..];
    PointInserted(value, unit);
    assert raw == left + right;
    assert '.' !in left && '.' !in right;
    WithoutConcat(left + ".", right, '.');
    WithoutConcat(left, ".", '.');
    WithoutAbsent(left, '.');
    WithoutAbsent(right, '.');
    assert Without(".", '.') == [];
    calc {
      Without(FixedPoint(value, unit), '.');
      Without(left + "." + right, '.');
      Without(left + ".", '.') + Without(right, '.');
      Without(left, '.') + Without(".", '.') + Without(right, '.');
      left + right;
    }
  }

  /** The result holds exactly one point, for every exponent. */
  lemma SinglePoint(value: int, unit: int)
    ensures multiset(FixedPoint(value, unit))['.'] == 1
  {
  }

  // ---------------------------------------------------------------------------
  // What the decimal text denotes

  function Pow10(k: nat): (p: nat)
    ensures p > 0
  {
    if k == 0 then 1 else 10 * Pow10(k - 1)
  }

  lemma ShiftStep(x: int, p: int, y: int, d: int)
    ensures (x * p + y) * 10 + d == x * (10 * p) + (y * 10 + d)
  {
  }

  lemma {:induction false} DigitsValueConcat(a: string, b: string)
    ensures DigitsValue(a + b) == DigitsValue(a) * Pow10(|b|) + DigitsValue(b)
  {
    if b == [] {
      assert a + b == a;
    } else {
      var b', last := b[..|b| - 1], b[|b| - 1];
      var ab := a + b;
      assert ab[..|ab| - 1] == a + b';
      assert ab[|ab| - 1] == last;
      assert DigitsValue(ab) == DigitsValue(a + b') * 10 + DigitValue(last);
      assert DigitsValue(b) == DigitsValue(b') * 10 + DigitValue(last);
      DigitsValueConcat(a, b');
      ShiftStep(DigitsValue(a), Pow10(|b'|), DigitsValue(b'), DigitValue(last));
    }
  }

  /** Fixed-point decoding: reading the integer part, shifting it left by `-unit` places
      and adding the fractional part gives back `value`; that is, the text denotes
      value x 10^unit with exactly `-unit` fractional digits. */
  lemma FixedPointDenotes(value: nat, unit: int)
    requires unit <= 0 && -unit <= |NumberToString(value)|
    ensures var r, k := FixedPoint(value, unit), |NumberToString(value)| + unit;
      && r[k] == '.'
      && |r[k + 1..]| == -unit
      && DigitsValue(r[..k]) * Pow10(-unit) + DigitsValue(r[k + 1..]) == value
  {
    var raw, r, k := NumberToString(value), FixedPoint(value, unit), |NumberToString(value)| + unit;
    FractionDigits(value, unit);
    assert r[..k] == raw[..k];
    assert r[k + 1..] == raw[k..];
    assert raw == raw[..k] + raw[k..];
    DigitsValueConcat(raw[..k], raw[k..]);
    DigitsValueOfDigits(value);
  }

  /** The two examples of the scale provider's payloads, and a third with trailing zeros. */
  lemma Examples()
    ensures FixedPoint(700, -1) == "70.0"
    ensures FixedPoint(1955, -2) == "19.55"
    ensures FixedPoint(19550, -3) == "19.550"
  {
    assert NumberToString(700) == "700";
    FractionDigits(700, -1);
    assert NumberToString(1955) == "1955";
    FractionDigits(1955, -2);
    assert NumberToString(19550) == "19550";
    FractionDigits(19550, -3);
  }

  /** Outside the supported range the insertion no longer denotes value x 10^unit:
      5 with exponent -2 (0.05) gives ".5", and 7 with exponent 1 (70) gives "7.". */
  lemma OutOfRangeExamples()
    ensures FixedPoint(5, -2) == ".5"
    ensures FixedPoint(7, 1) == "7."
  {
  }

  // ---------------------------------------------------------------------------
  // Finding measures by type

  /** `measures[i]` is the first measure of type `kind`. */
  predicate IsFirstOfKind(measures: seq<Measure>, kind: int, i: nat) {
    && i < |measures|
    && measures[i].kind == kind
    && forall j :: 0 <= j < i ==> measures[j].kind != kind
  }

  function FirstIndexOfKind(measures: seq<Measure>, kind: int): (r: Option<nat>)
    ensures r.Some? ==> IsFirstOfKind(measures, kind, r.value)
    ensures r.None? ==> forall i :: 0 <= i < |measures| ==> measures[i].kind != kind
  {
    if measures == [] then None
    else if measures[0].kind == kind then Some(0)
    else match FirstIndexOfKind(measures[1..], kind)
      case None => None
      case Some(i) => Some(i + 1)
  }

  /** `measures.find(item => item.type === kind)`. */
  function FindByKind(measures: seq<Measure>, kind: int): (r: Option<Measure>)
    ensures r.None? <==> forall i :: 0 <= i < |measures| ==> measures[i].kind != kind
    ensures r.Some? ==> exists i: nat :: IsFirstOfKind(measures, kind, i) && measures[i] == r.value
  {
    match FirstIndexOfKind(measures, kind)
    case None => None
    case Some(i) => Some(measures[i])
  }

  /** The decimal text of the first measure of type `kind`, if there is one. */
  function DecodeKind(measures: seq<Measure>, kind: int): (r: Option<string>)
    ensures r.None? <==> forall i :: 0 <= i < |measures| ==> measures[i].kind != kind
    ensures r.Some? ==> exists i: nat ::
      (IsFirstOfKind(measures, kind, i) && r.value == FixedPoint(measures[i].value, measures[i].unit))
  {
    match FindByKind(measures, kind)
    case None => None
    case Some(m) => Some(FixedPoint(m.value, m.unit))
  }

  // ---------------------------------------------------------------------------
  // parseWithingsData

  /** `parseWithingsData`: only the first group is read; the caller has checked that
      there is one. */
  function Parse(groups: seq<Group>): (r: Parsed)
    requires |groups| > 0
    ensures r.stamp == groups[0].date
    ensures r.weight.Some? <==>
      exists i :: 0 <= i < |groups[0].measures| && groups[0].measures[i].kind == WeightKind
    ensures r.weight.Some? ==> exists i: nat ::
      (IsFirstOfKind(groups[0].measures, WeightKind, i) &&
       r.weight.value == FixedPoint(groups[0].measures[i].value, groups[0].measures[i].unit))
    ensures r.fat.Some? <==>
      exists i :: 0 <= i < |groups[0].measures| && groups[0].measures[i].kind == FatKind
    ensures r.fat.Some? ==> exists i: nat ::
      (IsFirstOfKind(groups[0].measures, FatKind, i) &&
       r.fat.value == FixedPoint(groups[0].measures[i].value, groups[0].measures[i].unit))
  {
    var measures := groups[0].measures;
    Parsed(DecodeKind(measures, WeightKind), DecodeKind(measures, FatKind), groups[0].date)
  }

  /** Groups after the first are never read. */
  lemma OnlyFirstGroupRead(groups: seq<Group>, others: seq<Group>)
    requires |groups| > 0 && |others| > 0 && groups[0] == others[0]
    ensures Parse(groups) == Parse(others)
  {
  }

  /** `find` skips a first measure of another type. */
  lemma FindByKindCons(x: Measure, rest: seq<Measure>, kind: int)
    ensures FindByKind([x] + rest, kind) == if x.kind == kind then Some(x) else FindByKind(rest, kind)
  {
    assert ([x] + rest)[1..] == rest;
  }

  /** Inserting a measure of another type anywhere leaves `find` for `kind` unchanged. */
  lemma {:induction false} FindByKindSkipsInserted(ms: seq<Measure>, k: nat, m: Measure, kind: int)
    requires k <= |ms| && m.kind != kind
    ensures FindByKind(ms[..k] + [m] + ms[k..], kind) == FindByKind(ms, kind)
  {
    if k == 0 {
      assert ms[..0] + [m] + ms[0..] == [m] + ms;
      FindByKindCons(m, ms, kind);
    } else {
      var tail := ms[1..];
      assert ms[..k] + [m] + ms[k..] == [ms[0]] + (tail[..k - 1] + [m] + tail[k - 1..]);
      assert ms == [ms[0]] + tail;
      FindByKindCons(ms[0], tail[..k - 1] + [m] + tail[k - 1..], kind);
      FindByKindCons(ms[0], tail, kind);
      FindByKindSkipsInserted(tail, k - 1, m, kind);
    }
  }

  /** A measure of any other type, inserted at any position of the first group, changes
      neither field. */
  lemma OtherKindsIgnored(date: int, ms: seq<Measure>, k: nat, m: Measure)
    requires k <= |ms| && m.kind != WeightKind && m.kind != FatKind
    ensures Parse([Group(date, ms[..k] + [m] + ms[k..])]) == Parse([Group(date, ms)])
  {
    FindByKindSkipsInserted(ms, k, m, WeightKind);
    FindByKindSkipsInserted(ms, k, m, FatKind);
  }
}
