/**
 * The pieces of JavaScript string and number handling that the presence wire
 * format relies on: `String.prototype.split`, `Array.prototype.join`, the
 * formatting of a number inside a template literal and `Number(s)`.
 * Numbers are restricted to integers and NaN.
 */
module Text {

  /** A JavaScript number as the presence wire format carries it. */
  datatype Num = Int(i: int) | NaN

  predicate IsDigit(c: char) {
    '0' <= c <= '9'
  }

  predicate AllDigits(s: string) {
    forall i :: 0 <= i < |s| ==> IsDigit(s[i])
  }

  function DigitChar(d: nat): (c: char)
    requires d < 10
    ensures IsDigit(c)
  {
    (48 + d) as char
  }

  function DigitValue(c: char): (d: nat)
    requires IsDigit(c)
    ensures d < 10 && DigitChar(d) == c
  {
    c as int - 48
  }

  /** Decimal digits of `n`, most significant first, without leading zeros. */
  function Decimal(n: nat): (s: string)
    ensures 1 <= |s| && AllDigits(s)
    ensures |s| > 1 ==> s[0] != '0'
  {
    if n < 10 then [DigitChar(n)] else Decimal(n / 10) + [DigitChar(n % 10)]
  }

  /** The value of a run of decimal digits (leading zeros allowed). */
  function DecimalValue(s: string): nat
    requires AllDigits(s)
  {
    if s == [] then 0 else DecimalValue(s[..|s| - 1]) * 10 + DigitValue(s[|s| - 1])
  }

  lemma {:induction false} DecimalRoundTrip(n: nat)
    ensures DecimalValue(Decimal(n)) == n
  {
    if n >= 10 {
      var s := Decimal(n);
      assert s[..|s| - 1] == Decimal(n / 10);
      DecimalRoundTrip(n / 10);
    }
  }

  /**
   * `${x}`: how a template literal prints a number: "NaN", or an optional
   * minus sign followed by decimal digits.  Never a separator of the wire
   * format.
   */
  function NumToString(x: Num): (s: string)
    ensures |s| >= 1 && '/' !in s
    ensures x.NaN? <==> s == "NaN"
    ensures x.Int? ==> (s[0] == '-' <==> x.i < 0) && (x.i >= 0 ==> IsDigit(s[0]))
    ensures x.Int? ==> forall k :: 1 <= k < |s| ==> IsDigit(s[k])
  {
    match x
    case NaN => "NaN"
    case Int(i) =>
      if i < 0 then
        var s := "-" + Decimal(-i);
        assert s[1..] == Decimal(-i);
        s
      else Decimal(i)
  }

  /**
   * `Number(s)`: the empty string is 0, a run of digits with an optional
   * sign is its value, anything else is NaN.
   */
  function ParseNumber(s: string): (r: Num)
    ensures s == "" ==> r == Int(0)
    ensures r.Int? ==> forall k :: 1 <= k < |s| ==> IsDigit(s[k])
    ensures r.Int? && s != "" ==> IsDigit(s[0]) || s[0] == '-' || s[0] == '+'
    ensures r.Int? && r.i < 0 ==> s[0] == '-'
    ensures s != "" && AllDigits(s) ==> r.Int? && r.i >= 0
    ensures |s| > 1 && (s[0] == '-' || s[0] == '+') && AllDigits(s[1..]) ==> r.Int?
  {
    if s == "" then Int(0)
    else if AllDigits(s) then Int(DecimalValue(s))
    else if (s[0] == '-' || s[0] == '+') && |s| > 1 && AllDigits(s[1..]) then
      var magnitude: int := DecimalValue(s[1..]);
      Int(if s[0] == '-' then -magnitude else magnitude)
    else NaN
  }

  /** Printing a number and reading it back gives the number, NaN included. */
  lemma NumRoundTrip(x: Num)
    ensures ParseNumber(NumToString(x)) == x
  {
    match x
    case NaN =>
      assert !IsDigit('N');
    case Int(i) =>
      if i < 0 {
        var s := NumToString(x);
        assert s[1..] == Decimal(-i);
        assert !IsDigit(s[0]);
        DecimalRoundTrip(-i);
      } else {
        DecimalRoundTrip(i);
      }
  }

  /** A leading plus sign is accepted and changes nothing: `Number("+5")` is 5. */
  lemma PlusSign(n: nat)
    ensures ParseNumber("+" + Decimal(n)) == Int(n)
  {
    var s := "+" + Decimal(n);
    assert s[1..] == Decimal(n);
    assert !IsDigit(s[0]);
    DecimalRoundTrip(n);
  }

  /** `s.split(sep)`: the runs between separators, never an empty list. */
  function Split(s: string, sep: char): (parts: seq<string>)
    ensures |parts| >= 1
    ensures forall i :: 0 <= i < |parts| ==> sep !in parts[i]
  {
    if s == [] then [""]
    else
      var rest := Split(s[1..], sep);
      if s[0] == sep then [""] + rest
      else [[s[0]] + rest[0]] + rest[1..]
  }

  /** `parts.join(sep)`. */
  function Join(parts: seq<string>, sep: char): string {
    if |parts| == 0 then ""
    else if |parts| == 1 then parts[0]
    else parts[0] + [sep] + Join(parts[1..], sep)
  }

  lemma {:induction false} SplitWithoutSeparator(p: string, sep: char)
    requires sep !in p
    ensures Split(p, sep) == [p]
  {
    if p != [] {
      SplitWithoutSeparator(p[1..], sep);
      assert [p[0]] + p[1..] == p;
    }
  }

  lemma {:induction false} SplitAtFirstSeparator(p: string, sep: char, rest: string)
    requires sep !in p
    ensures Split(p + [sep] + rest, sep) == [p] + Split(rest, sep)
  {
    var s := p + [sep] + rest;
    if p == [] {
      assert s[1..] == rest;
    } else {
      assert s[1..] == p[1..] + [sep] + rest;
      SplitAtFirstSeparator(p[1..], sep, rest);
      assert [p[0]] + p[1..] == p;
    }
  }

  /** Splitting a join gives the parts back when no part holds the separator. */
  lemma {:induction false} SplitJoin(parts: seq<string>, sep: char)
    requires |parts| >= 1
    requires forall i :: 0 <= i < |parts| ==> sep !in parts[i]
    ensures Split(Join(parts, sep), sep) == parts
  {
    if |parts| == 1 {
      SplitWithoutSeparator(parts[0], sep);
    } else {
      SplitJoin(parts[1..], sep);
      SplitAtFirstSeparator(parts[0], sep, Join(parts[1..], sep));
      assert [parts[0]] + parts[1..] == parts;
    }
  }
}
