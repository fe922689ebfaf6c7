/** Cells of the race-results table and the numeric coercion that
    the cleaner applies to seven of its columns (src/process_data.py:8-14). */
module Cells {

  datatype Option<T> = None | Some(value: T)

  /** One cell as the table holds it after a CSV file is read: NaN (missing),
      a number, or text that pandas could not read as a number. */
  datatype Cell = Missing | Num(value: real) | Text(text: string)

  predicate IsDigit(c: char) { '0' <= c <= '9' }

  predicate AllDigits(s: string) { forall i :: 0 <= i < |s| ==> IsDigit(s[i]) }

  function DigitValue(c: char): nat
    requires IsDigit(c)
  {
    c as int - '0' as int
  }

  function DigitChar(d: nat): (c: char)
    requires d < 10
    ensures IsDigit(c) && DigitValue(c) == d
  {
    ('0' as int + d) as char
  }

  /** The value of a run of decimal digits, most significant digit first. */
  function DigitsValue(s: string): nat
    requires AllDigits(s)
  {
    if |s| == 0 then 0 else 10 * DigitsValue(s[..|s| - 1]) + DigitValue(s[|s| - 1])
  }

  function Pow10(n: nat): (r: nat)
    ensures r >= 1
  {
    if n == 0 then 1 else 10 * Pow10(n - 1)
  }

  /** The length of the run of digits that starts s. */
  function LeadingDigits(s: string): (k: nat)
    ensures k <= |s| && AllDigits(s[..k])
    ensures k < |s| ==> !IsDigit(s[k])
  {
    if |s| == 0 || !IsDigit(s[0]) then 0
    else
      var k := 1 + LeadingDigits(s[1..]);
      assert s[..k] == [s[0]] + s[1..][..k - 1];
      k
  }

  /** The value of the numeral `whole.fraction`. */
  function DecimalValue(whole: string, fraction: string): real
    requires AllDigits(whole) && AllDigits(fraction)
  {
    DigitsValue(whole) as real + DigitsValue(fraction) as real / Pow10(|fraction|) as real
  }

  /** An unsigned decimal numeral: digits, optionally followed by a point and
      more digits, with at least one digit in all. */
  function ParseUnsigned(s: string): (r: Option<real>)
    ensures r.Some? ==> r.value >= 0.0
  {
    var k := LeadingDigits(s);
    if k == |s| then
      assert s[..k] == s;
      if k == 0 then None else Some(DigitsValue(s) as real)
    else if s[k] == '.' && AllDigits(s[k + 1..]) && (k > 0 || k + 1 < |s|) then
      Some(DecimalValue(s[..k], s[k + 1..]))
    else
      None
  }

  /** The numerals pandas reads as numbers, restricted to an optional sign
      followed by an unsigned decimal numeral. */
  function ParseNumber(s: string): (r: Option<real>)
    ensures r.Some? ==> |s| > 0
    ensures r.Some? && s[0] == '-' ==> r.value <= 0.0
    ensures r.Some? && s[0] != '-' ==> r.value >= 0.0
  {
    if |s| > 0 && (s[0] == '-' || s[0] == '+') then
      match ParseUnsigned(s[1..])
      case None => None
      case Some(v) => Some(if s[0] == '-' then -v else v)
    else
      ParseUnsigned(s)
  }

  /** Numeric coercion of one cell, errors becoming missing: numbers stay, text
      that reads as a number becomes that number, anything else is missing. */
  function ToNumeric(c: Cell): (r: Cell)
    ensures !r.Text?
    ensures c.Num? ==> r == c
    ensures c.Missing? ==> r == Missing
    ensures c.Text? ==> (r.Num? <==> ParseNumber(c.text).Some?)
    ensures c.Text? && r.Num? ==> ParseNumber(c.text) == Some(r.value)
  {
    match c
    case Text(s) =>
      (match ParseNumber(s)
       case Some(v) => Num(v)
       case None => Missing)
    case _ => c
  }

  /** Filling one cell with v when it is missing. */
  function FillNa(c: Cell, v: Cell): (r: Cell)
    ensures c.Missing? ==> r == v
    ensures !c.Missing? ==> r == c
  {
    if c.Missing? then v else c
  }

  /** Decimal digits of a natural number, as `str(n)` writes them. */
  function DigitsText(n: nat): (s: string)
    ensures |s| > 0 && AllDigits(s)
  {
    if n < 10 then [DigitChar(n)] else DigitsText(n / 10) + [DigitChar(n % 10)]
  }

  /** An integer as `str(n)` writes it. */
  function IntText(n: int): string
  {
    if n < 0 then "-" + DigitsText(-n) else DigitsText(n)
  }

  lemma {:induction false} DigitsRoundTrip(n: nat)
    ensures DigitsValue(DigitsText(n)) == n
  {
    var s := DigitsText(n);
    if n >= 10 {
      DigitsRoundTrip(n / 10);
      assert s[..|s| - 1] == DigitsText(n / 10);
    }
  }

  lemma UnsignedDigits(s: string)
    requires |s| > 0 && AllDigits(s)
    ensures ParseUnsigned(s) == Some(DigitsValue(s) as real)
  {
    var k := LeadingDigits(s);
    assert k == |s|;
  }

  /** The text `str(n)` of any integer coerces back to n: coercion keeps the
      value of every integer written as text. */
  lemma IntTextRoundTrip(n: int)
    ensures ParseNumber(IntText(n)) == Some(n as real)
    ensures ToNumeric(Text(IntText(n))) == Num(n as real)
  {
    if n < 0 {
      var d := DigitsText(-n);
      assert IntText(n)[1..] == d;
      DigitsRoundTrip(-n);
      UnsignedDigits(d);
    } else {
      var d := DigitsText(n);
      DigitsRoundTrip(n);
      UnsignedDigits(d);
      assert IsDigit(d[0]);
    }
  }

  lemma {:induction false} LeadingDigitsOf(d: string, rest: string)
    requires AllDigits(d)
    requires |rest| > 0 && !IsDigit(rest[0])
    ensures LeadingDigits(d + rest) == |d|
  {
    if |d| == 0 {
      assert d + rest == rest;
    } else {
      LeadingDigitsOf(d[1..], rest);
      assert (d + rest)[1..] == d[1..] + rest;
    }
  }

  lemma ParsePoint(s: string, k: nat)
    requires k == LeadingDigits(s) && k < |s| && s[k] == '.' && AllDigits(s[k + 1..]) && (k > 0 || k + 1 < |s|)
    ensures ParseUnsigned(s) == Some(DecimalValue(s[..k], s[k + 1..]))
  {
  }

  lemma UnsignedNumber(s: string)
    requires |s| > 0 && s[0] != '-' && s[0] != '+'
    ensures ParseNumber(s) == ParseUnsigned(s)
  {
  }

  lemma NegatedNumber(s: string, v: real)
    requires ParseUnsigned(s) == Some(v)
    ensures ParseNumber(['-'] + s) == Some(-v)
  {
    assert (['-'] + s)[1..] == s;
  }

  /** A point between two runs of digits, at least one of them non-empty,
      reads as the numeral `d.f`. */
  lemma UnsignedDecimal(d: string, f: string)
    requires AllDigits(d) && AllDigits(f) && |d| + |f| > 0
    ensures ParseUnsigned(d + ['.'] + f) == Some(DecimalValue(d, f))
  {
    var s := d + ['.'] + f;
    LeadingDigitsOf(d, ['.'] + f);
    assert s == d + (['.'] + f);
    assert s[..|d|] == d && s[|d|] == '.' && s[|d| + 1..] == f;
    ParsePoint(s, |d|);
  }

  lemma DecimalTextParses(d: string, f: string, v: real)
    requires AllDigits(d) && AllDigits(f) && |d| + |f| > 0 && v == DecimalValue(d, f)
    ensures ParseNumber(d + ['.'] + f) == Some(v)
    ensures ParseNumber(['-'] + d + ['.'] + f) == Some(-v)
  {
    var s := d + ['.'] + f;
    UnsignedDecimal(d, f);
    assert s[0] != '-' && s[0] != '+' by {
      if |d| > 0 { assert s[0] == d[0]; } else { assert s[0] == '.'; }
    }
    UnsignedNumber(s);
    NegatedNumber(s, v);
    assert ['-'] + d + ['.'] + f == ['-'] + s;
  }

  /** The text of any decimal numeral, `d.f` or `-d.f` with d and f runs of
      digits (either may be empty, not both), coerces back to its value:
      coercion keeps the value of a temperature such as "24.5". */
  lemma DecimalTextRoundTrip(d: string, f: string)
    requires AllDigits(d) && AllDigits(f) && |d| + |f| > 0
    ensures ParseNumber(d + ['.'] + f) == Some(DigitsValue(d) as real + DigitsValue(f) as real / Pow10(|f|) as real)
    ensures ParseNumber(['-'] + d + ['.'] + f) == Some(-(DigitsValue(d) as real + DigitsValue(f) as real / Pow10(|f|) as real))
    ensures ToNumeric(Text(d + ['.'] + f)) == Num(DigitsValue(d) as real + DigitsValue(f) as real / Pow10(|f|) as real)
  {
    DecimalTextParses(d, f, DecimalValue(d, f));
  }

  /** A point in an unsigned numeral stands right after its leading digits. */
  lemma PointAfterDigits(s: string, i: int)
    requires ParseUnsigned(s).Some?
    requires 0 <= i < |s| && s[i] == '.'
    ensures i == LeadingDigits(s)
  {
  }

  lemma UnsignedShape(s: string)
    requires ParseUnsigned(s).Some?
    ensures exists i :: 0 <= i < |s| && IsDigit(s[i])
    ensures forall i :: 0 <= i < |s| ==> IsDigit(s[i]) || s[i] == '.'
    ensures forall i, j :: 0 <= i < j < |s| && s[i] == '.' ==> s[j] != '.'
  {
    var k := LeadingDigits(s);
    assert s == s[..k] + s[k..];
    if k == |s| {
      assert IsDigit(s[0]);
    } else {
      assert s[k..] == [s[k]] + s[k + 1..];
      if k > 0 {
        assert IsDigit(s[..k][0]);
      } else {
        assert IsDigit(s[k + 1..][0]);
      }
    }
    forall i, j | 0 <= i < j < |s| && s[i] == '.' ensures s[j] != '.' {
      PointAfterDigits(s, i);
      if s[j] == '.' {
        PointAfterDigits(s, j);
      }
    }
  }

  /** Only a numeral coerces to a number: text that is not one leading sign
      or none, then digits with at most one point among them and at least
      one digit (such as "DNF", "" or "1.2.3"), becomes missing. */
  lemma NumeralShape(s: string)
    requires ParseNumber(s).Some?
    ensures exists i :: 0 <= i < |s| && IsDigit(s[i])
    ensures forall i :: 1 <= i < |s| ==> IsDigit(s[i]) || s[i] == '.'
    ensures |s| > 0 && (IsDigit(s[0]) || s[0] in "+-.")
    ensures forall i, j :: 0 <= i < j < |s| && s[i] == '.' ==> s[j] != '.'
  {
    if |s| > 0 && (s[0] == '-' || s[0] == '+') {
      var u := s[1..];
      UnsignedShape(u);
      var i :| 0 <= i < |u| && IsDigit(u[i]);
      assert IsDigit(s[i + 1]);
      forall i | 1 <= i < |s| ensures IsDigit(s[i]) || s[i] == '.' {
        assert s[i] == u[i - 1];
      }
      forall i, j | 0 <= i < j < |s| && s[i] == '.' ensures s[j] != '.' {
        assert s[i] == u[i - 1] && s[j] == u[j - 1];
      }
    } else {
      UnsignedShape(s);
    }
  }

  /** Coercion is total and idempotent: a coerced cell is a number or
      missing, and coercing it again changes nothing. */
  lemma CoercionIdempotent(c: Cell)
    ensures ToNumeric(c).Num? || ToNumeric(c).Missing?
    ensures ToNumeric(ToNumeric(c)) == ToNumeric(c)
  {
  }
}
