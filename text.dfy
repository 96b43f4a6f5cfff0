/**
  The string operations the command wrappers use before handing a script to
  `osascript`: Python's `str.replace('"', '\\"')`, `str.split(sep)`,
  `str.startswith(prefix)`, the removal of the whitespace `int()` skips
  around its digits, and the slice `s[:n]`. Characters are Unicode scalar
  values, as Python's are code points.
 */
module Text {
  import opened Wrappers

  /** Number of occurrences of `c` in `s`. */
  function Count(c: char, s: string): nat
  {
    if |s| == 0 then 0 else (if s[0] == c then 1 else 0) + Count(c, s[1..])
  }

  lemma {:induction false} CountAbsent(c: char, s: string)
    ensures c !in s <==> Count(c, s) == 0
  {
    if |s| > 0 {
      CountAbsent(c, s[1..]);
      assert s == [s[0]] + s[1..];
    }
  }

  // ---------------------------------------------------------------------
  // Double-quote escaping: `text.replace('"', '\\"')`

  /** Every `"` of `s` replaced by the two characters `\"`; nothing else changes. */
  function Escape(s: string): string
  {
    if |s| == 0 then ""
    else (if s[0] == '"' then "\\\"" else [s[0]]) + Escape(s[1..])
  }

  /** Inverse of `Escape`: drops the backslash of every `\"` pair, scanning from the left. */
  function Unescape(t: string): string
  {
    if |t| == 0 then ""
    else if |t| >= 2 && t[0] == '\\' && t[1] == '"' then "\"" + Unescape(t[2..])
    else [t[0]] + Unescape(t[1..])
  }

  lemma {:induction false} EscapeLength(s: string)
    ensures |Escape(s)| == |s| + Count('"', s)
  {
    if |s| > 0 {
      EscapeLength(s[1..]);
    }
  }

  lemma {:induction false} EscapeNoQuote(s: string)
    requires '"' !in s
    ensures Escape(s) == s
  {
    if |s| > 0 {
      EscapeNoQuote(s[1..]);
      assert s == [s[0]] + s[1..];
    }
  }

  lemma {:induction false} EscapeConcat(a: string, b: string)
    ensures Escape(a + b) == Escape(a) + Escape(b)
  {
    if |a| == 0 {
      assert a + b == b;
    } else {
      assert (a + b)[1..] == a[1..] + b;
      EscapeConcat(a[1..], b);
    }
  }

  /** Every `"` of `t` sits right after a `\`. */
  ghost predicate QuotesBackslashed(t: string)
  {
    forall i :: 0 <= i < |t| && t[i] == '"' ==> 0 < i && t[i - 1] == '\\'
  }

  lemma {:induction false} EscapeQuotesBackslashed(s: string)
    ensures QuotesBackslashed(Escape(s))
  {
    if |s| > 0 {
      EscapeQuotesBackslashed(s[1..]);
      var head: string := if s[0] == '"' then "\\\"" else [s[0]];
      var tail := Escape(s[1..]);
      assert Escape(s) == head + tail;
      forall i | 0 <= i < |head + tail| && (head + tail)[i] == '"'
        ensures 0 < i && (head + tail)[i - 1] == '\\'
      {
        if i >= |head| {
          assert (head + tail)[i] == tail[i - |head|];
        }
      }
    }
  }

  /** The escape inserts exactly one character before each `"`, and the original is recoverable. */
  lemma {:induction false} UnescapeEscape(s: string)
    ensures Unescape(Escape(s)) == s
  {
    if |s| > 0 {
      UnescapeEscape(s[1..]);
      if s[0] == '"' {
        assert Escape(s) == "\\\"" + Escape(s[1..]);
        assert Escape(s)[2..] == Escape(s[1..]);
      } else {
        var t := Escape(s);
        assert t == [s[0]] + Escape(s[1..]);
        assert t[1..] == Escape(s[1..]);
        if |t| >= 2 && t[0] == '\\' {
          // The character after an original backslash is never a quote in escaped text.
          EscapeQuotesBackslashed(s[1..]);
          assert t[1] == Escape(s[1..])[0];
        }
      }
      assert s == [s[0]] + s[1..];
    }
  }

  lemma EscapeInjective(a: string, b: string)
    requires Escape(a) == Escape(b)
    ensures a == b
  {
    UnescapeEscape(a);
    UnescapeEscape(b);
  }

  // ---------------------------------------------------------------------
  // `s.startswith(p)`

  predicate StartsWith(s: string, p: string)
  {
    |p| <= |s| && s[..|p|] == p
  }

  /** The text that `head` and `tail` enclose in `s`, if `s` starts with one and ends with the other. */
  function Between(s: string, head: string, tail: string): Option<string>
  {
    if |head| + |tail| <= |s| && s[..|head|] == head && s[|s| - |tail|..] == tail
    then Some(s[|head|..|s| - |tail|])
    else None
  }

  lemma BetweenOf3(head: string, x: string, y: string, z: string, tail: string)
    ensures Between(head + x + y + z + tail, head, tail) == Some(x + y + z)
  {
    assert head + x + y + z + tail == head + (x + y + z) + tail;
    BetweenOf(head, x + y + z, tail);
  }

  lemma BetweenOf(head: string, x: string, tail: string)
    ensures Between(head + x + tail, head, tail) == Some(x)
  {
    var s := head + x + tail;
    assert s[..|head|] == head;
    assert s[|s| - |tail|..] == tail;
    assert s[|head|..|s| - |tail|] == x;
  }

  /**
    A prefix free of `"` and `\` survives the escape unchanged, so testing the
    escaped text for it is the same as testing the raw text.
   */
  lemma {:induction false} EscapeStartsWith(s: string, p: string)
    requires '"' !in p && '\\' !in p
    ensures StartsWith(Escape(s), p) <==> StartsWith(s, p)
  {
    if |p| > 0 && |s| > 0 {
      var head: string := if s[0] == '"' then "\\\"" else [s[0]];
      assert Escape(s) == head + Escape(s[1..]);
      if s[0] == p[0] {
        assert p[0] != '"';
        assert Escape(s) == [s[0]] + Escape(s[1..]);
        EscapeStartsWith(s[1..], p[1..]);
        assert StartsWith(s, p) <==> StartsWith(s[1..], p[1..]) by {
          assert s == [s[0]] + s[1..];
          assert p == [p[0]] + p[1..];
        }
        assert StartsWith(Escape(s), p) <==> StartsWith(Escape(s[1..]), p[1..]) by {
          assert p == [p[0]] + p[1..];
        }
      } else {
        assert Escape(s)[0] != p[0];
      }
    }
  }

  // ---------------------------------------------------------------------
  // `s.split(sep)` and `sep.join(fields)`

  /** Python's `s.split(sep)` for a one-character separator: never an empty list. */
  function Split(s: string, sep: char): (fields: seq<string>)
    ensures |fields| >= 1
  {
    if |s| == 0 then [""]
    else
      var rest := Split(s[1..], sep);
      if s[0] == sep then [""] + rest
      else [[s[0]] + rest[0]] + rest[1..]
  }

  function Join(fields: seq<string>, sep: char): string
  {
    if |fields| == 0 then ""
    else if |fields| == 1 then fields[0]
    else fields[0] + [sep] + Join(fields[1..], sep)
  }

  /** Splitting loses nothing: joining the fields with the separator restores `s`. */
  lemma {:induction false} JoinSplit(s: string, sep: char)
    ensures Join(Split(s, sep), sep) == s
  {
    if |s| > 0 {
      var rest := Split(s[1..], sep);
      JoinSplit(s[1..], sep);
      if s[0] == sep {
        assert Split(s, sep)[1..] == rest;
      } else {
        var f := Split(s, sep);
        assert f[0] == [s[0]] + rest[0];
        if |rest| == 1 {
          assert f == [[s[0]] + rest[0]];
        } else {
          assert f[1..] == rest[1..];
        }
      }
      assert s == [s[0]] + s[1..];
    }
  }

  /** No field contains the separator. */
  lemma {:induction false} SplitFieldsFree(s: string, sep: char)
    ensures forall k :: 0 <= k < |Split(s, sep)| ==> sep !in Split(s, sep)[k]
  {
    if |s| > 0 {
      SplitFieldsFree(s[1..], sep);
      var rest := Split(s[1..], sep);
      var f := Split(s, sep);
      if s[0] != sep {
        forall k | 0 <= k < |f| ensures sep !in f[k] {
          if k > 0 {
            assert f[k] == rest[k];
          }
        }
      } else {
        forall k | 0 <= k < |f| ensures sep !in f[k] {
          if k > 0 {
            assert f[k] == rest[k - 1];
          }
        }
      }
    }
  }

  /** There is one field more than there are separators. */
  lemma {:induction false} SplitCount(s: string, sep: char)
    ensures |Split(s, sep)| == Count(sep, s) + 1
  {
    if |s| > 0 {
      SplitCount(s[1..], sep);
    }
  }

  lemma {:induction false} SplitNoSeparator(s: string, sep: char)
    requires sep !in s
    ensures Split(s, sep) == [s]
  {
    if |s| > 0 {
      SplitNoSeparator(s[1..], sep);
      assert s == [s[0]] + s[1..];
    }
  }

  /** One step of `Split`: how the first character extends or starts the fields. */
  lemma SplitCons(c: char, rest: string, sep: char)
    ensures Split([c] + rest, sep) ==
      if c == sep then [""] + Split(rest, sep)
      else [[c] + Split(rest, sep)[0]] + Split(rest, sep)[1..]
  {
    assert ([c] + rest)[1..] == rest;
  }

  /** Splitting at a separator: the fields of `a` followed by the fields of `b`. */
  lemma {:induction false} SplitAtSeparator(a: string, sep: char, b: string)
    ensures Split(a + [sep] + b, sep) == Split(a, sep) + Split(b, sep)
  {
    if |a| == 0 {
      assert a + [sep] + b == [sep] + b;
      SplitCons(sep, b, sep);
    } else {
      var tail := a[1..];
      SplitAtSeparator(tail, sep, b);
      SplitAtSeparatorStep(a[0], tail, sep, b);
      assert a == [a[0]] + tail;
      assert a + [sep] + b == [a[0]] + (tail + [sep] + b);
    }
  }

  /** The inductive step of `SplitAtSeparator`: one more character in front. */
  lemma SplitAtSeparatorStep(c: char, tail: string, sep: char, b: string)
    requires Split(tail + [sep] + b, sep) == Split(tail, sep) + Split(b, sep)
    ensures Split([c] + (tail + [sep] + b), sep) == Split([c] + tail, sep) + Split(b, sep)
  {
    var whole := Split(tail + [sep] + b, sep);
    var left := Split(tail, sep);
    var right := Split(b, sep);
    SplitCons(c, tail + [sep] + b, sep);
    SplitCons(c, tail, sep);
    if c == sep {
      ConsAppend([""], left, right);
    } else {
      HeadTailAppend(left, right);
      ConsAppend([[c] + left[0]], left[1..], right);
    }
  }

  lemma ConsAppend<T>(x: seq<T>, y: seq<T>, z: seq<T>)
    ensures x + (y + z) == (x + y) + z
  {
  }

  lemma HeadTailAppend<T>(y: seq<T>, z: seq<T>)
    requires |y| > 0
    ensures (y + z)[0] == y[0] && (y + z)[1..] == y[1..] + z
  {
    assert (y + z)[1..] == y[1..] + z;
  }

  lemma Regroup(a: string, b: string, c: string, d: string, e: string)
    ensures a + (b + c + d) + e == a + b + (c + d + e)
  {
  }

  /**
    Splitting `a`, then a text `w` enclosed in two separators, then `b`,
    where neither `a` nor `b` holds a separator: `a` is the first field and
    `b` the last.
   */
  lemma SplitEnclosed(a: string, sep: char, w: string, b: string)
    requires sep !in a && sep !in b
    ensures Split(a + ([sep] + w + [sep]) + b, sep) == [a] + Split(w, sep) + [b]
  {
    Regroup(a, [sep], w, [sep], b);
    SplitAtSeparator(a, sep, w + [sep] + b);
    SplitAtSeparator(w, sep, b);
    SplitNoSeparator(a, sep);
    SplitNoSeparator(b, sep);
  }

  // ---------------------------------------------------------------------
  // `s[:limit]`

  /** Python's slice `s[:limit]`: the longest prefix of `s` of length at most `limit`. */
  function Truncate(s: string, limit: nat): (r: string)
    ensures r <= s
    ensures |r| <= limit
    ensures |s| <= limit ==> r == s
    ensures |s| >= limit ==> |r| == limit
  {
    if |s| <= limit then s else s[..limit]
  }

  // ---------------------------------------------------------------------
  // The whitespace `int()` skips around its digits

  /**
    The whitespace `int()` skips around its digits: the six ASCII blanks
    and the characters above U+007F for which `str.isspace()` holds.
   */
  predicate IsSpace(c: char)
  {
    || ('\t' <= c <= '\r')
    || c == ' ' || c == '\U{85}' || c == '\U{A0}' || c == '\U{1680}'
    || ('\U{2000}' <= c <= '\U{200A}')
    || c == '\U{2028}' || c == '\U{2029}' || c == '\U{202F}' || c == '\U{205F}' || c == '\U{3000}'
  }

  /** `s` without its leading whitespace. */
  function StripLeft(s: string): (r: string)
    ensures |r| <= |s| && r == s[|s| - |r|..]
    ensures forall i :: 0 <= i < |s| - |r| ==> IsSpace(s[i])
    ensures |r| > 0 ==> !IsSpace(r[0])
  {
    if |s| > 0 && IsSpace(s[0]) then StripLeft(s[1..]) else s
  }

  /** `s` without its trailing whitespace. */
  function StripRight(s: string): (r: string)
    ensures |r| <= |s| && r == s[..|r|]
    ensures forall i :: |r| <= i < |s| ==> IsSpace(s[i])
    ensures |r| > 0 ==> !IsSpace(r[|r| - 1])
  {
    if |s| > 0 && IsSpace(s[|s| - 1]) then StripRight(s[..|s| - 1]) else s
  }

  function Strip(s: string): string
  {
    StripRight(StripLeft(s))
  }

  /** Only whitespace. */
  ghost predicate AllSpace(w: string)
  {
    forall i :: 0 <= i < |w| ==> IsSpace(w[i])
  }

  lemma {:induction false} StripLeftSpace(w: string, t: string)
    requires AllSpace(w) && (|t| > 0 ==> !IsSpace(t[0]))
    ensures StripLeft(w + t) == t
  {
    if |w| > 0 {
      assert (w + t)[0] == w[0];
      assert (w + t)[1..] == w[1..] + t;
      StripLeftSpace(w[1..], t);
    } else {
      assert w + t == t;
    }
  }

  lemma {:induction false} StripRightSpace(t: string, w: string)
    requires AllSpace(w) && (|t| > 0 ==> !IsSpace(t[|t| - 1]))
    ensures StripRight(t + w) == t
  {
    if |w| > 0 {
      var s := t + w;
      assert s[|s| - 1] == w[|w| - 1];
      assert s[..|s| - 1] == t + w[..|w| - 1];
      StripRightSpace(t, w[..|w| - 1]);
    } else {
      assert t + w == t;
    }
  }

  /** Whitespace around a text that neither starts nor ends with whitespace is exactly what `Strip` removes. */
  lemma StripSurrounded(w1: string, t: string, w2: string)
    requires AllSpace(w1) && AllSpace(w2)
    requires |t| > 0 && !IsSpace(t[0]) && !IsSpace(t[|t| - 1])
    ensures Strip(w1 + t + w2) == t
  {
    assert w1 + t + w2 == w1 + (t + w2);
    StripLeftSpace(w1, t + w2);
    StripRightSpace(t, w2);
  }

  /** Text that neither starts nor ends with whitespace is left alone. */
  lemma StripUnchanged(s: string)
    requires |s| > 0 && !IsSpace(s[0]) && !IsSpace(s[|s| - 1])
    ensures Strip(s) == s
  {
    assert StripLeft(s) == s;
  }
}
