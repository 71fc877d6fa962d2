/**
 * Decimal text of 64-bit integers: how a PID or a millisecond nonce is written
 * (`QTextStream << qint64`, `QString::number`) and how a PID file is read back
 * (`QString::trimmed` followed by `QString::toLongLong`).
 */
module Decimal {
  import opened Wrappers

  const INT64_MIN: int := -0x8000_0000_0000_0000
  const INT64_MAX: int := 0x7fff_ffff_ffff_ffff

  predicate IsInt64(x: int) {
    INT64_MIN <= x <= INT64_MAX
  }

  predicate IsDigit(c: char) {
    '0' <= c <= '9'
  }

  predicate AllDigits(s: string) {
    forall i :: 0 <= i < |s| ==> IsDigit(s[i])
  }

  function DigitValue(c: char): (d: nat)
    requires IsDigit(c)
    ensures d < 10
  {
    (c as int) - ('0' as int)
  }

  function DigitChar(d: nat): (c: char)
    requires d < 10
    ensures IsDigit(c) && DigitValue(c) == d
  {
    (('0' as int) + d) as char
  }

  /** The decimal digits of `n`, most significant first, with no leading zero. */
  function NatToString(n: nat): (s: string)
    ensures |s| > 0 && AllDigits(s)
    ensures |s| > 1 ==> s[0] != '0'
  {
    if n < 10 then [DigitChar(n)] else NatToString(n / 10) + [DigitChar(n % 10)]
  }

  /** `QString::number(x)` and `QTextStream << x` for a signed integer. */
  function IntToString(x: int): (s: string)
    ensures |s| > 0
    ensures x < 0 <==> s[0] == '-'
  {
    if x < 0 then "-" + NatToString(-x) else NatToString(x)
  }

  /** The value of a string of decimal digits (the empty string has value 0). */
  function DigitsValue(s: string): nat
    requires AllDigits(s)
  {
    if s == [] then 0 else 10 * DigitsValue(s[..|s| - 1]) + DigitValue(s[|s| - 1])
  }

  /**
   * An optional sign followed by at least one digit and nothing else, whose
   * value fits in a qint64; `None` otherwise.
   */
  function ParseSigned(t: string): (r: Option<int>)
    ensures r.Some? ==> IsInt64(r.value)
    ensures t == [] ==> r == None
    ensures r.Some? && t[0] == '-' ==> r.value <= 0
    ensures r.Some? && t[0] != '-' ==> r.value >= 0
  {
    var signed := |t| > 0 && (t[0] == '-' || t[0] == '+');
    var digits := if signed then t[1..] else t;
    if digits == [] || !AllDigits(digits) then None
    else
      var v: int := if |t| > 0 && t[0] == '-' then -(DigitsValue(digits) as int) else DigitsValue(digits);
      if IsInt64(v) then Some(v) else None
  }

  /**
   * `QString::toLongLong(&ok)` in base 10: white space around the number is
   * skipped, the rest must be a signed number that fits in a qint64. `None` is
   * `ok == false`.
   */
  function ParseLongLong(s: string): (r: Option<int>)
    ensures r.Some? ==> IsInt64(r.value)
    ensures (forall i :: 0 <= i < |s| ==> IsSpace(s[i])) ==> r == None
    ensures r.Some? ==> Trim(s) != [] && (Trim(s)[0] == '-' ==> r.value <= 0) && (Trim(s)[0] != '-' ==> r.value >= 0)
  {
    ParseSigned(Trim(s))
  }

  /**
   * The characters `QChar::isSpace` accepts, which `QString::trimmed` strips:
   * the ASCII controls TAB to CR, NEL, and the Unicode space, line and
   * paragraph separators.
   */
  predicate IsSpace(c: char) {
    var n := c as int;
    n == 0x20 || (0x09 <= n <= 0x0D) || n == 0x85 || n == 0xA0 || n == 0x1680 ||
    (0x2000 <= n <= 0x200A) || n == 0x2028 || n == 0x2029 || n == 0x202F || n == 0x205F || n == 0x3000
  }

  /** How many white-space characters `s` starts with. */
  function LeadingSpaces(s: string): (k: nat)
    ensures k <= |s|
    ensures forall i :: 0 <= i < k ==> IsSpace(s[i])
    ensures k < |s| ==> !IsSpace(s[k])
  {
    if s != [] && IsSpace(s[0]) then 1 + LeadingSpaces(s[1..]) else 0
  }

  /** How many white-space characters `s` ends with. */
  function TrailingSpaces(s: string): (k: nat)
    ensures k <= |s|
    ensures forall i :: |s| - k <= i < |s| ==> IsSpace(s[i])
    ensures k < |s| ==> !IsSpace(s[|s| - 1 - k])
  {
    if s != [] && IsSpace(s[|s| - 1]) then 1 + TrailingSpaces(s[..|s| - 1]) else 0
  }

  /** `QString::trimmed`: `s` without its leading and trailing white space. */
  function Trim(s: string): (t: string)
    ensures t == [] || (!IsSpace(t[0]) && !IsSpace(t[|t| - 1]))
    ensures var a := LeadingSpaces(s); a + |t| <= |s| && t == s[a..a + |t|]
    ensures forall i :: LeadingSpaces(s) + |t| <= i < |s| ==> IsSpace(s[i])
  {
    var a := LeadingSpaces(s);
    var rest := s[a..];
    var k := TrailingSpaces(rest);
    assert forall i :: a + |rest| - k <= i < |s| ==> s[i] == rest[i - a];
    rest[..|rest| - k]
  }

  /** White space around a word is exactly what `Trim` strips: the word comes back. */
  lemma TrimPadded(before: string, word: string, after: string)
    requires forall i :: 0 <= i < |before| ==> IsSpace(before[i])
    requires forall i :: 0 <= i < |after| ==> IsSpace(after[i])
    requires word != [] && !IsSpace(word[0]) && !IsSpace(word[|word| - 1])
    ensures Trim(before + word + after) == word
  {
    var s := before + word + after;
    var t := Trim(s);
    var a := LeadingSpaces(s);
    assert s[|before|] == word[0];
    assert forall i :: 0 <= i < |before| ==> s[i] == before[i];
    assert a == |before|;
    assert s[|before| + |word| - 1] == word[|word| - 1];
    assert forall i :: |before| + |word| <= i < |s| ==> s[i] == after[i - |before| - |word|];
    assert |t| == |word|;
    assert s[|before|..|before| + |word|] == word;
  }

  /** Decimal text starts and ends with a character that is not white space. */
  lemma IntToStringEnds(x: int)
    ensures IntToString(x) != [] && !IsSpace(IntToString(x)[0]) && !IsSpace(IntToString(x)[|IntToString(x)| - 1])
  {
    var s := IntToString(x);
    assert !IsSpace(s[0]);
    assert s[|s| - 1] == NatToString(if x < 0 then -x else x)[|NatToString(if x < 0 then -x else x)| - 1];
  }

  lemma {:induction false} DigitsValueOfNatToString(n: nat)
    ensures DigitsValue(NatToString(n)) == n
    decreases n
  {
    if n >= 10 {
      var s := NatToString(n);
      assert s[..|s| - 1] == NatToString(n / 10);
      DigitsValueOfNatToString(n / 10);
    }
  }

  /** Text made only of digits and a sign is left alone by `Trim`. */
  lemma TrimOfIntToString(x: int)
    ensures Trim(IntToString(x)) == IntToString(x)
  {
    IntToStringEnds(x);
    TrimPadded([], IntToString(x), []);
    assert [] + IntToString(x) + [] == IntToString(x);
  }

  /** Reading back what `IntToString` wrote gives the same 64-bit value. */
  lemma ParseIntToString(x: int)
    requires IsInt64(x)
    ensures ParseLongLong(IntToString(x)) == Some(x)
    ensures ParseLongLong(Trim(IntToString(x))) == Some(x)
  {
    TrimOfIntToString(x);
    var s := IntToString(x);
    var m: nat := if x < 0 then -x else x;
    var digits := NatToString(m);
    DigitsValueOfNatToString(m);
    assert IsDigit(digits[0]);
    if x < 0 {
      assert s == ['-'] + digits;
      assert s[1..] == digits;
    } else {
      assert s == digits;
    }
  }
  /** Trimming twice is trimming once. */
  lemma TrimIdempotent(s: string)
    ensures Trim(Trim(s)) == Trim(s)
  {
    var t := Trim(s);
    if t == [] {
      assert LeadingSpaces(t) == 0;
    } else {
      TrimPadded([], t, []);
      assert [] + t + [] == t;
    }
  }

  /** `toLongLong` after `trimmed`, as a PID file is read, parses exactly what `toLongLong` alone parses. */
  lemma ParseAfterTrim(s: string)
    ensures ParseLongLong(Trim(s)) == ParseLongLong(s)
  {
    TrimIdempotent(s);
  }

  /** White space around a written number does not change what is parsed back. */
  lemma ParsePadded(before: string, x: int, after: string)
    requires IsInt64(x)
    requires forall i :: 0 <= i < |before| ==> IsSpace(before[i])
    requires forall i :: 0 <= i < |after| ==> IsSpace(after[i])
    ensures ParseLongLong(before + IntToString(x) + after) == Some(x)
  {
    var w := before + IntToString(x) + after;
    IntToStringEnds(x);
    TrimPadded(before, IntToString(x), after);
    TrimOfIntToString(x);
    ParseIntToString(x);
    assert ParseSigned(IntToString(x)) == Some(x);
    assert ParseLongLong(w) == ParseSigned(IntToString(x));
  }
}
