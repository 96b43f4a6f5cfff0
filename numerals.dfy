/**
  Decimal integers as the line-range tool reads and writes them: Python's
  `int(text)` with the default base 10, restricted to ASCII digits, and
  `str(n)`, which an f-string field `{n}` produces for an `int`.
 */
module Numerals {
  import opened Wrappers
  import opened Text

  predicate IsDigit(c: char)
  {
    '0' <= c <= '9'
  }

  function DigitValue(c: char): (d: nat)
    requires IsDigit(c)
    ensures d < 10
  {
    (c as int) - ('0' as int)
  }

  function DigitChar(d: nat): (c: char)
    requires d < 10
    ensures IsDigit(c) && DigitValue(c) == d
  {
    ('0' as int + d) as char
  }

  /**
    The digit part `int()` accepts: at least one digit, starting with a digit,
    where every `_` stands between two digits.
   */
  predicate IsDigitGroup(d: string)
  {
    && |d| > 0
    && IsDigit(d[0])
    && forall i :: 0 <= i < |d| ==> GroupedAt(d, i)
  }

  /** Position `i` of `d` holds a digit, or an underscore with a digit right after it. */
  predicate GroupedAt(d: string, i: nat)
    requires i < |d|
  {
    IsDigit(d[i]) || (d[i] == '_' && i + 1 < |d| && IsDigit(d[i + 1]))
  }

  /** Value of the digits in `d`, read most significant first; underscores carry no value. */
  function DigitsValue(d: string): nat
  {
    if |d| == 0 then 0
    else if IsDigit(d[|d| - 1]) then 10 * DigitsValue(d[..|d| - 1]) + DigitValue(d[|d| - 1])
    else DigitsValue(d[..|d| - 1])
  }

  /**
    CPython's default `sys.get_int_max_str_digits()`: `int(text)` raises
    `ValueError` for text with more decimal digits than this, and `str(n)`
    for a number that needs more.
   */
  const MaxStrDigits: nat := 4300

  /** The message of the `ValueError` that `str(n)` raises beyond the limit. */
  const StrDigitsError :=
    "Exceeds the limit (4300 digits) for integer string conversion; "
    + "use sys.set_int_max_str_digits() to increase the limit"

  /** Number of digits in `d`; underscores do not count. */
  function DigitCount(d: string): (c: nat)
    ensures c <= |d|
  {
    if |d| == 0 then 0
    else DigitCount(d[..|d| - 1]) + (if IsDigit(d[|d| - 1]) then 1 else 0)
  }

  /** `d` has at most `MaxStrDigits` digits. */
  predicate DigitsWithinLimit(d: string)
  {
    DigitCount(d) <= MaxStrDigits
  }

  /**
    `int(text)`: surrounding whitespace, an optional sign, then a digit group
    of at most `MaxStrDigits` digits; `None` where Python raises `ValueError`.
   */
  function ParseInt(text: string): Option<int>
  {
    var t := Strip(text);
    if |t| > 0 && (t[0] == '+' || t[0] == '-') then
      if IsDigitGroup(t[1..]) && DigitsWithinLimit(t[1..]) then
        var magnitude: int := DigitsValue(t[1..]);
        Some(if t[0] == '-' then -magnitude else magnitude)
      else None
    else if IsDigitGroup(t) && DigitsWithinLimit(t) then Some(DigitsValue(t))
    else None
  }

  /** `str(n)` for `n >= 0`: decimal digits, no leading zero. */
  function NatToString(n: nat): (s: string)
    ensures |s| > 0
    ensures forall i :: 0 <= i < |s| ==> IsDigit(s[i])
    ensures |s| > 1 ==> s[0] != '0'
  {
    if n < 10 then [DigitChar(n)] else NatToString(n / 10) + [DigitChar(n % 10)]
  }

  /**
    The text `str(n)` writes: a minus sign before the digits of a negative
    number. `str(n)` produces it only when `StrFits(n)`, and raises otherwise.
   */
  function IntToString(n: int): string
  {
    if n < 0 then "-" + NatToString(-n) else NatToString(n)
  }

  /** `str(n)` does not raise: `n` has at most `MaxStrDigits` digits. */
  predicate StrFits(n: int)
  {
    |NatToString(if n < 0 then -n else n)| <= MaxStrDigits
  }

  lemma {:induction false} DigitsValueNatToString(n: nat)
    ensures DigitsValue(NatToString(n)) == n
  {
    var s := NatToString(n);
    if n >= 10 {
      DigitsValueNatToString(n / 10);
      assert s[..|s| - 1] == NatToString(n / 10);
    }
  }

  lemma DigitNotSpace(c: char)
    requires IsDigit(c) || c == '-'
    ensures !IsSpace(c)
  {
  }

  lemma NatToStringIsDigitGroup(n: nat)
    ensures IsDigitGroup(NatToString(n))
  {
    var s := NatToString(n);
    forall i | 0 <= i < |s| ensures GroupedAt(s, i) {
      assert IsDigit(s[i]);
    }
  }

  /**
    What `str` writes, `int` reads back: the rendered number is the number.
    A number too long for `str` is too long for `int` as well.
   */
  lemma ParseIntToString(n: int)
    ensures ParseInt(IntToString(n)) == if StrFits(n) then Some(n) else None
  {
    var m: nat := if n < 0 then -n else n;
    var digits := NatToString(m);
    var t := IntToString(n);
    DigitsValueNatToString(m);
    NatToStringIsDigitGroup(m);
    DigitCountAllDigits(digits);
    DigitNotSpace(t[0]);
    DigitNotSpace(t[|t| - 1]);
    StripUnchanged(t);
    if n < 0 {
      assert t[1..] == digits;
    } else {
      assert t == digits;
    }
  }

  lemma {:induction false} DigitCountAllDigits(d: string)
    requires forall i :: 0 <= i < |d| ==> IsDigit(d[i])
    ensures DigitCount(d) == |d|
  {
    if |d| > 0 {
      DigitCountAllDigits(d[..|d| - 1]);
    }
  }

  function Pow10(k: nat): (p: nat)
    ensures p >= 1
  {
    if k == 0 then 1 else 10 * Pow10(k - 1)
  }

  /** Digits read as a number stay below ten to the number of digits. */
  lemma {:induction false} DigitsValueBound(d: string)
    ensures DigitsValue(d) < Pow10(DigitCount(d))
  {
    if |d| > 0 {
      DigitsValueBound(d[..|d| - 1]);
    }
  }

  /** A number below ten to the `k` is written with at most `k` digits, and never with none. */
  lemma {:induction false} NatToStringLength(n: nat, k: nat)
    requires n < Pow10(k)
    ensures |NatToString(n)| <= if k == 0 then 1 else k
  {
    if n >= 10 {
      assert k > 0;
      assert n / 10 < Pow10(k - 1);
      NatToStringLength(n / 10, k - 1);
    }
  }

  /** What `int()` accepts, `str()` can write back: leading zeros only make the text longer. */
  lemma ParseIntFits(text: string)
    ensures ParseInt(text).Some? ==> StrFits(ParseInt(text).value)
  {
    var t := Strip(text);
    var d := if |t| > 0 && (t[0] == '+' || t[0] == '-') then t[1..] else t;
    DigitsValueBound(d);
    NatToStringLength(DigitsValue(d), DigitCount(d));
  }

  /** A rendered number contains no character other than digits and `-`, so never a `:`. */
  lemma IntToStringNoColon(n: int)
    ensures ':' !in IntToString(n)
  {
  }

  /** `int()` rejects whatever has no digit at all. */
  lemma ParseIntNeedsDigit(text: string)
    requires forall i :: 0 <= i < |text| ==> !IsDigit(text[i])
    ensures ParseInt(text) == None
  {
    var l := StripLeft(text);
    var t := Strip(text);
    assert l == text[|text| - |l|..];
    assert t == l[..|t|];
    if |t| > 0 {
      assert t[0] == text[|text| - |l|];
      if |t| > 1 {
        assert t[1] == text[|text| - |l| + 1];
      }
    }
  }

  /** `int()` reads `10`. */
  lemma ParseIntAcceptsTen()
    ensures ParseInt("10") == Some(10)
  {
    assert NatToString(1) == "1";
    assert NatToString(10) == "10";
    ParseIntToString(10);
  }

  /** `int()` looks only at the stripped text. */
  lemma ParseIntSameStrip(x: string, y: string)
    requires Strip(x) == Strip(y)
    ensures ParseInt(x) == ParseInt(y)
  {
  }

  /** Whitespace around the number does not matter. */
  lemma ParseIntSurrounded(w1: string, n: int, w2: string)
    requires AllSpace(w1) && AllSpace(w2)
    ensures ParseInt(w1 + IntToString(n) + w2) == if StrFits(n) then Some(n) else None
  {
    var t := IntToString(n);
    DigitNotSpace(t[0]);
    DigitNotSpace(t[|t| - 1]);
    StripSurrounded(w1, t, w2);
    StripUnchanged(t);
    ParseIntSameStrip(w1 + t + w2, t);
    ParseIntToString(n);
  }

  /** A sign and surrounding whitespace are allowed: ` -7` followed by a newline reads as -7. */
  lemma ParseIntAcceptsSigned()
    ensures ParseInt(" -7\n") == Some(-7)
  {
    assert NatToString(7) == "7";
    assert " -7\n" == " " + IntToString(-7) + "\n";
    assert StrFits(-7);
    ParseIntSurrounded(" ", -7, "\n");
  }

  /** `int()` reads digits grouped by single underscores. */
  lemma ParseIntAcceptsUnderscore()
    ensures ParseInt("1_000") == Some(1000)
  {
    var d := "1_000";
    assert Strip(d) == d by { StripUnchanged(d); }
    assert IsDigitGroup(d);
    assert DigitsValue("1") == 1 by { assert "1"[..0] == ""; }
    assert DigitsValue("1_") == 1 by { assert "1_"[..1] == "1"; }
    assert DigitsValue("1_0") == 10 by { assert "1_0"[..2] == "1_"; }
    assert DigitsValue("1_00") == 100 by { assert "1_00"[..3] == "1_0"; }
    assert DigitsValue(d) == 1000 by { assert d[..4] == "1_00"; }
  }

  /** An underscore must stand between two digits: `1_000` is a digit group, `1__0` and `12_` are not. */
  lemma DigitGroupUnderscores()
    ensures IsDigitGroup("1_000")
    ensures !IsDigitGroup("1__0")
    ensures !IsDigitGroup("12_")
  {
    assert !GroupedAt("1__0", 1);
    assert !GroupedAt("12_", 2);
  }
}
