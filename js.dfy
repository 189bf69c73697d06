/** The few pieces of JavaScript semantics the scale-to-tracker sync relies on:
    values that may be undefined, calls that return or throw, `String.prototype.slice`
    and the conversion of an integer-valued number to its decimal text. */
module Js {

  datatype Option<T> = None | Some(value: T)

  /** A thrown JavaScript error, by constructor and message. */
  datatype Exception =
    | Error(message: string)
    | TypeError(message: string)
    | ReferenceError(message: string)

  /** How a (possibly async) JavaScript call ends: it returns a value or it throws. */
  datatype Outcome<T> = Returned(value: T) | Thrown(exception: Exception)

  /** The position `String.prototype.slice` uses for one index argument:
      a negative index counts from the end, and both are clamped to the string. */
  function SliceIndex(i: int, len: nat): (r: nat)
    ensures r <= len
    ensures 0 <= i <= len ==> r == i
    ensures i < 0 && 0 <= len + i ==> r == len + i
  {
    if i < 0 then (if len + i < 0 then 0 else len + i)
    else if i < len then i
    else len
  }

  /** `s.slice(start, end)`: empty when the clamped start is not before the clamped end. */
  function Slice(s: string, start: int, end: int): (r: string)
    ensures |r| <= |s|
    ensures 0 <= start <= end <= |s| ==> r == s[start..end]
  {
    var from, to := SliceIndex(start, |s|), SliceIndex(end, |s|);
    if from < to then s[from..to] else ""
  }

  /** `s.slice(start)`. */
  function SliceFrom(s: string, start: int): (r: string)
    ensures 0 <= start <= |s| ==> r == s[start..]
  {
    Slice(s, start, |s|)
  }

  predicate IsDigit(c: char) {
    '0' <= c <= '9'
  }

  function DigitChar(d: nat): (c: char)
    requires d < 10
    ensures IsDigit(c)
  {
    (('0' as int) + d) as char
  }

  /** The decimal digits of a natural number, most significant first, without leading zeros. */
  function Digits(n: nat): (r: string)
    ensures |r| > 0
    ensures forall i :: 0 <= i < |r| ==> IsDigit(r[i])
    ensures |r| > 1 ==> r[0] != '0'
  {
    if n < 10 then [DigitChar(n)] else Digits(n / 10) + [DigitChar(n % 10)]
  }

  function DigitValue(c: char): nat {
    if IsDigit(c) then c as int - '0' as int else 0
  }

  /** The number a digit string spells in base ten. */
  function DigitsValue(s: string): nat {
    if s == [] then 0 else DigitsValue(s[..|s| - 1]) * 10 + DigitValue(s[|s| - 1])
  }

  lemma {:induction false} DigitsValueOfDigits(n: nat)
    ensures DigitsValue(Digits(n)) == n
  {
    if n >= 10 {
      var d := Digits(n / 10) + [DigitChar(n % 10)];
      assert d[..|d| - 1] == Digits(n / 10);
      DigitsValueOfDigits(n / 10);
    }
  }

  /** The template literal `${n}` for an integer-valued number. Exact only for magnitudes
      up to 2^53: above that JavaScript prints the shortest digits that round back to the
      double, padded with zeros (and from 10^21 on an exponent), which this does not. */
  function NumberToString(n: int): (r: string)
    ensures |r| > 0
    ensures '.' !in r
    ensures forall i :: 0 < i < |r| ==> IsDigit(r[i])
    ensures IsDigit(r[0]) <==> n >= 0
    ensures n < 0 ==> r[0] == '-'
  {
    if n < 0 then "-" + Digits(-n) else Digits(n)
  }

  /** The text `${n}` spells `n`: its digits read back as the number, after a minus sign
      exactly when `n` is negative. */
  lemma NumberToStringDenotes(n: int)
    ensures n >= 0 ==> DigitsValue(NumberToString(n)) == n
    ensures n < 0 ==> NumberToString(n)[0] == '-' && DigitsValue(NumberToString(n)[1..]) == -n
  {
    if n < 0 {
      assert NumberToString(n)[1..] == Digits(-n);
      DigitsValueOfDigits(-n);
    } else {
      DigitsValueOfDigits(n);
    }
  }
}
