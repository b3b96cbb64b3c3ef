/**
 * String operations the alert templates rely on: substring containment,
 * `str.replace("_", " ")`, `str.strip()`, `str(int)` and the whole-percent
 * formats `{:.0%}` and `{:+.0%}`.
 */
module Text {
  import Rounding

  /** `sub` occurs somewhere inside `s` (Python's `sub in s`). */
  predicate IsInfix(sub: string, s: string)
  {
    exists i | 0 <= i <= |s| - |sub| :: sub <= s[i..]
  }

  /** Every string occurs in itself. */
  lemma InfixOfSelf(s: string)
    ensures IsInfix(s, s)
  {
    assert s[0..][..|s|] == s;
  }

  /** A string that contains `sub` still does after text is added on either side. */
  lemma InfixOfAppend(sub: string, s: string, t: string)
    requires IsInfix(sub, s)
    ensures IsInfix(sub, s + t) && IsInfix(sub, t + s)
  {
    var i :| 0 <= i <= |s| - |sub| && sub <= s[i..];
    assert (s + t)[i..][..|sub|] == s[i..][..|sub|];
    assert (t + s)[|t| + i..][..|sub|] == s[i..][..|sub|];
  }

  /** The two last parts of a concatenation occur in it together. */
  lemma InfixOfTail(p: string, s: string, t: string)
    ensures IsInfix(s + t, p + s + t)
  {
    assert (p + s + t)[|p|..][..|s + t|] == s + t;
  }

  /** A prefix of a string is still a prefix after text is appended. */
  lemma PrefixOfAppend(p: string, s: string, t: string)
    requires p <= s
    ensures p <= s + t
  {
    assert (s + t)[..|p|] == s[..|p|];
  }

  /** The last part of a concatenation is its suffix of that length. */
  lemma SuffixOfAppend(s: string, t: string)
    ensures |s + t| >= |t| && (s + t)[|s + t| - |t|..] == t
  {
  }

  /** `s.replace("_", " ")`: every underscore becomes a space. */
  function Humanize(s: string): (r: string)
    ensures |r| == |s|
    ensures forall k | 0 <= k < |s| :: r[k] == (if s[k] == '_' then ' ' else s[k])
  {
    seq(|s|, k requires 0 <= k < |s| => if s[k] == '_' then ' ' else s[k])
  }

  /** No underscore survives humanizing, and humanizing twice changes nothing more. */
  lemma HumanizeRemovesUnderscores(s: string)
    ensures '_' !in Humanize(s)
    ensures Humanize(Humanize(s)) == Humanize(s)
  {
  }

  /** The characters Python's `str.isspace()` accepts. */
  predicate IsSpace(c: char)
  {
    || c == ' ' || c == '\t' || c == '\n' || c == '\r' || c == '\U{B}' || c == '\U{C}'
    || ('\U{1C}' <= c <= '\U{1F}') || c == '\U{85}' || c == '\U{A0}' || c == '\U{1680}'
    || ('\U{2000}' <= c <= '\U{200A}') || c == '\U{2028}' || c == '\U{2029}'
    || c == '\U{202F}' || c == '\U{205F}' || c == '\U{3000}'
  }

  /** `s.lstrip()`: drop leading whitespace. */
  function StripLeft(s: string): (r: string)
    ensures |r| <= |s| && r == s[|s| - |r|..]
    ensures forall k | 0 <= k < |s| - |r| :: IsSpace(s[k])
    ensures r == [] || !IsSpace(r[0])
  {
    if s != [] && IsSpace(s[0]) then StripLeft(s[1..]) else s
  }

  /** `s.rstrip()`: drop trailing whitespace. */
  function StripRight(s: string): (r: string)
    ensures |r| <= |s| && r == s[..|r|]
    ensures forall k | |r| <= k < |s| :: IsSpace(s[k])
    ensures r == [] || !IsSpace(r[|r| - 1])
  {
    if s != [] && IsSpace(s[|s| - 1]) then StripRight(s[..|s| - 1]) else s
  }

  /** `s.strip()`: drop whitespace at both ends, keep everything between. */
  function Strip(s: string): (r: string)
    ensures exists i, j | 0 <= i <= j <= |s| :: r == s[i..j]
                             && (forall k | 0 <= k < i :: IsSpace(s[k]))
                             && (forall k | j <= k < |s| :: IsSpace(s[k]))
    ensures r == [] || (!IsSpace(r[0]) && !IsSpace(r[|r| - 1]))
  {
    var l := StripLeft(s);
    var r := StripRight(l);
    var i := |s| - |l|;
    assert r == s[i..i + |r|];
    r
  }

  /** Stripping is idempotent. */
  lemma StripIdempotent(s: string)
    ensures Strip(Strip(s)) == Strip(s)
  {
    var r := Strip(s);
    assert StripLeft(r) == r;
    assert StripRight(r) == r;
  }

  /** A stripped string is empty exactly when the input was all whitespace. */
  lemma StripEmptyIffBlank(s: string)
    ensures Strip(s) == [] <==> forall k | 0 <= k < |s| :: IsSpace(s[k])
  {
    var r := Strip(s);
    var i, j :| 0 <= i <= j <= |s| && r == s[i..j]
                 && (forall k | 0 <= k < i :: IsSpace(s[k]))
                 && (forall k | j <= k < |s| :: IsSpace(s[k]));
    if r == [] {
      forall k | 0 <= k < |s| ensures IsSpace(s[k]) {
        assert k < i || j <= k;
      }
    } else {
      assert !IsSpace(s[i]);
    }
  }

  /** The character of one decimal digit. */
  function DigitChar(d: nat): (c: char)
    requires d < 10
    ensures '0' <= c <= '9'
    ensures DigitValue(c) == d
  {
    ('0' as int + d) as char
  }

  /** The value of a digit character. */
  function DigitValue(c: char): int
  {
    c as int - '0' as int
  }

  /** Reads a run of decimal digits back as the number it spells. */
  function DecimalValue(s: string): int
  {
    if s == [] then 0 else DecimalValue(s[..|s| - 1]) * 10 + DigitValue(s[|s| - 1])
  }

  /** Reads `str(n)` back: an optional minus sign, then the digits. */
  function SignedDecimalValue(s: string): int
  {
    if s != [] && s[0] == '-' then -DecimalValue(s[1..]) else DecimalValue(s)
  }

  /** `str(n)` for a natural number: its decimal digits, no leading zeros. */
  function NatToDecimal(n: nat): (r: string)
    ensures |r| >= 1
    ensures forall k | 0 <= k < |r| :: '0' <= r[k] <= '9'
    ensures |r| > 1 ==> r[0] != '0'
  {
    if n < 10 then [DigitChar(n)] else NatToDecimal(n / 10) + [DigitChar(n % 10)]
  }

  /** The digits of `str(n)` spell `n`. */
  lemma {:induction false} NatToDecimalValue(n: nat)
    ensures DecimalValue(NatToDecimal(n)) == n
  {
    var s := NatToDecimal(n);
    if n < 10 {
      assert s[..|s| - 1] == [];
    } else {
      assert s[..|s| - 1] == NatToDecimal(n / 10);
      NatToDecimalValue(n / 10);
    }
  }

  /** `str(n)` for an integer: a minus sign before the digits of a negative one. */
  function IntToDecimal(n: int): (r: string)
    ensures |r| >= 1 && '_' !in r && ' ' !in r
    ensures n < 0 <==> r[0] == '-'
    ensures forall k | 0 <= k < |r| :: r[k] == '-' || '0' <= r[k] <= '9'
  {
    if n < 0 then "-" + NatToDecimal(-n) else NatToDecimal(n)
  }

  /** `str(n)` reads back as `n`. */
  lemma IntToDecimalValue(n: int)
    ensures SignedDecimalValue(IntToDecimal(n)) == n
  {
    if n < 0 {
      assert IntToDecimal(n)[1..] == NatToDecimal(-n);
      NatToDecimalValue(-n);
    } else {
      NatToDecimalValue(n);
    }
  }

  /** Different integers are written differently. */
  lemma IntToDecimalInjective(a: int, b: int)
    requires IntToDecimal(a) == IntToDecimal(b)
    ensures a == b
  {
    IntToDecimalValue(a);
    IntToDecimalValue(b);
  }

  /**
   * Python's `format(x, ".0%")` (`signed` false) and `format(x, "+.0%")`
   * (`signed` true): the value times 100, rounded to a whole number, then "%".
   */
  function FormatPct(x: real, signed: bool): (r: string)
    ensures |r| >= 2 && r[|r| - 1] == '%'
    ensures x < 0.0 <==> r[0] == '-'
    ensures signed && x >= 0.0 ==> r[0] == '+'
  {
    var mag := RoundHalfEvenAbs(x);
    var sign := if x < 0.0 then "-" else if signed then "+" else "";
    sign + NatToDecimal(mag) + "%"
  }

  /** The whole number of percent shown for `|x|`. */
  function RoundHalfEvenAbs(x: real): nat
  {
    var y := (if x < 0.0 then -x else x) * 100.0;
    var n := Rounding.RoundHalfEven(y);
    if n < 0 then 0 else n
  }
}
