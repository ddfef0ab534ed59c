/** The parts of Python's `str` that the modelled code relies on: the
    whitespace and word-character classes, `strip`, clamped slicing,
    `split` on one character, and the substring test `in`. */
module Strings {

  import opened Errors

  /** `c.isspace()`, which is also what `\s` matches in a `str` regex:
      tab to carriage return, the four information separators, space,
      NEL, no-break space and the Unicode space separators. */
  predicate IsSpace(c: char)
  {
    var n := c as int;
    (9 <= n <= 13) || (28 <= n <= 32) || n == 0x85 || n == 0xA0 || n == 0x1680
    || (0x2000 <= n <= 0x200A) || n == 0x2028 || n == 0x2029 || n == 0x202F
    || n == 0x205F || n == 0x3000
  }

  /** `\w`, restricted to ASCII: a letter, a digit or the underscore. */
  predicate IsWordChar(c: char)
  {
    ('a' <= c <= 'z') || ('A' <= c <= 'Z') || ('0' <= c <= '9') || c == '_'
  }

  predicate AllSpace(s: string)
  {
    forall k :: 0 <= k < |s| ==> IsSpace(s[k])
  }

  /** `s.lstrip()`: the suffix left after removing leading whitespace. */
  function StripLeft(s: string): string
  {
    if s != [] && IsSpace(s[0]) then StripLeft(s[1..]) else s
  }

  /** `s.rstrip()`: the prefix left after removing trailing whitespace. */
  function StripRight(s: string): string
  {
    if s != [] && IsSpace(s[|s| - 1]) then StripRight(s[..|s| - 1]) else s
  }

  /** `lstrip` removes exactly the leading whitespace: what is left is a
      suffix, everything cut off is whitespace, and what is left does not
      start with whitespace. */
  lemma {:induction false} StripLeftSpec(s: string)
    ensures var r := StripLeft(s);
      |r| <= |s| && r == s[|s| - |r|..] && AllSpace(s[..|s| - |r|])
      && (r != [] ==> !IsSpace(r[0]))
  {
    if s != [] && IsSpace(s[0]) {
      var t := s[1..];
      StripLeftSpec(t);
      var r := StripLeft(t);
      assert StripLeft(s) == r;
      assert r == s[|s| - |r|..] by {
        assert t[|t| - |r|..] == s[|s| - |r|..];
      }
      assert s[..|s| - |r|] == [s[0]] + t[..|t| - |r|];
    }
  }

  /** `rstrip` removes exactly the trailing whitespace. */
  lemma {:induction false} StripRightSpec(s: string)
    ensures var r := StripRight(s);
      |r| <= |s| && r == s[..|r|] && AllSpace(s[|r|..])
      && (r != [] ==> !IsSpace(r[|r| - 1]))
  {
    if s != [] && IsSpace(s[|s| - 1]) {
      var t := s[..|s| - 1];
      StripRightSpec(t);
      var r := StripRight(t);
      assert StripRight(s) == r;
      assert r == s[..|r|] by {
        assert t[..|r|] == s[..|r|];
      }
      assert s[|r|..] == t[|r|..] + [s[|s| - 1]];
    }
  }

  /** `s.strip()`: `s` without its leading and trailing whitespace. */
  function Strip(s: string): string
  {
    StripRight(StripLeft(s))
  }

  /** A whitespace-free-edged prefix `r` of a whitespace-free-edged suffix
      `l` of `s` is an infix of `s` at `|s| - |l|`. */
  lemma {:induction false} TrimmedInfix(s: string, l: string, r: string)
    requires |l| <= |s| && l == s[|s| - |l|..] && AllSpace(s[..|s| - |l|])
    requires l != [] ==> !IsSpace(l[0])
    requires |r| <= |l| && r == l[..|r|] && AllSpace(l[|r|..])
    requires r != [] ==> !IsSpace(r[|r| - 1])
    ensures var a := |s| - |l|;
      a + |r| <= |s| && r == s[a..a + |r|]
      && AllSpace(s[..a]) && AllSpace(s[a + |r|..])
      && (r != [] ==> !IsSpace(r[0]) && !IsSpace(r[|r| - 1]))
  {
    var a := |s| - |l|;
    assert l[..|r|] == s[a..a + |r|];
    assert s[a + |r|..] == l[|r|..];
    if r != [] {
      assert r[0] == l[0];
    }
  }

  /** `strip` cuts off the `|s| - |lstrip(s)|` leading characters and
      keeps the next `|strip(s)|`. */
  lemma {:induction false} StripTrimmedAt(s: string)
    ensures var r := Strip(s); var a := |s| - |StripLeft(s)|;
      0 <= a && a + |r| <= |s| && r == s[a..a + |r|]
      && AllSpace(s[..a]) && AllSpace(s[a + |r|..])
      && (r != [] ==> !IsSpace(r[0]) && !IsSpace(r[|r| - 1]))
  {
    var l := StripLeft(s);
    var r := StripRight(l);
    StripLeftSpec(s);
    StripRightSpec(l);
    TrimmedInfix(s, l, r);
    assert Strip(s) == r;
  }

  /** What `strip` keeps: an infix of `s` that neither starts nor ends with
      whitespace, with only whitespace cut off on either side. */
  lemma {:induction false} StripIsTrimmedInfix(s: string)
    ensures var r := Strip(s);
      exists a :: 0 <= a && a + |r| <= |s| && r == s[a..a + |r|]
        && AllSpace(s[..a]) && AllSpace(s[a + |r|..])
        && (r != [] ==> !IsSpace(r[0]) && !IsSpace(r[|r| - 1]))
  {
    StripTrimmedAt(s);
    var a := |s| - |StripLeft(s)|;
    assert a + |Strip(s)| <= |s|;
  }

  lemma {:induction false} StripContained(s: string)
    ensures Contains(s, Strip(s))
  {
    var l := StripLeft(s);
    StripLeftSpec(s);
    StripRightSpec(l);
    assert IsAt(s, Strip(s), |s| - |l|);
  }

  /** Stripping twice is stripping once (`qrzlookup` strips text that
      the XML extractor has already stripped). */
  lemma {:induction false} StripIdempotent(s: string)
    ensures Strip(Strip(s)) == Strip(s)
  {
    var r := Strip(s);
    var l := StripLeft(s);
    StripLeftSpec(s);
    StripRightSpec(l);
    if r != [] {
      assert r[0] == l[0];
      assert StripLeft(r) == r;
      assert StripRight(r) == r;
    }
  }

  /** A string that neither starts nor ends with whitespace is its own
      `strip`. */
  lemma {:induction false} StripUnchanged(s: string)
    requires s != [] ==> !IsSpace(s[0]) && !IsSpace(s[|s| - 1])
    ensures Strip(s) == s
  {
  }

  /** Python's `s[lo:hi]` for non-negative bounds: both bounds are clamped
      to the length, and a reversed range gives the empty string. */
  function Slice(s: string, lo: nat, hi: nat): (r: string)
    ensures |r| == if hi <= lo || |s| <= lo then 0 else (if hi < |s| then hi else |s|) - lo
    ensures forall k :: 0 <= k < |r| ==> r[k] == s[lo + k]
  {
    var h := if hi < |s| then hi else |s|;
    if h <= lo then [] else s[lo..h]
  }

  /** Python's `s[lo:]` for a non-negative bound. */
  function SliceFrom(s: string, lo: nat): (r: string)
    ensures |r| == if |s| <= lo then 0 else |s| - lo
    ensures forall k :: 0 <= k < |r| ==> r[k] == s[lo + k]
  {
    if |s| <= lo then [] else s[lo..]
  }

  /** `pat` occurs in `s` starting at index `i`. */
  predicate IsAt(s: string, pat: string, i: nat)
  {
    i + |pat| <= |s| && s[i..i + |pat|] == pat
  }

  /** Python's `pat in s` for strings. */
  predicate Contains(s: string, pat: string)
  {
    exists i: nat | i + |pat| <= |s| :: IsAt(s, pat, i)
  }

  /** `s.startswith(pat)`. */
  predicate StartsWith(s: string, pat: string)
  {
    IsAt(s, pat, 0)
  }

  /** The first index at or after `from` that holds `c`, if any. */
  function IndexOf(s: string, c: char, from: nat): (r: Option<nat>)
    decreases |s| - from
    ensures r.Some? ==> from <= r.value < |s| && s[r.value] == c
  {
    if |s| <= from then None
    else if s[from] == c then Some(from)
    else IndexOf(s, c, from + 1)
  }

  /** `IndexOf` finds the FIRST occurrence, and reports none only when
      there is none. */
  lemma {:induction false} IndexOfSpec(s: string, c: char, from: nat)
    decreases |s| - from
    ensures var r := IndexOf(s, c, from);
      r.Some? ==> forall k :: from <= k < r.value ==> s[k] != c
    ensures IndexOf(s, c, from).None? ==> forall k :: from <= k < |s| ==> s[k] != c
  {
    if from < |s| && s[from] != c {
      IndexOfSpec(s, c, from + 1);
    }
  }

  /** Python's `s.split(sep)` for a one-character separator: the pieces
      between separators, in order, empty pieces included. */
  function Split(s: string, sep: char): (r: seq<string>)
    decreases |s|
    ensures |r| >= 1
    ensures forall p :: p in r ==> sep !in p
  {
    IndexOfSpec(s, sep, 0);
    match IndexOf(s, sep, 0)
    case None => [s]
    case Some(i) =>
      assert sep !in s[..i] by {
        forall k | 0 <= k < i ensures s[..i][k] != sep { }
      }
      [s[..i]] + Split(s[i + 1..], sep)
  }

  /** `sep.join(parts)`. */
  function Join(parts: seq<string>, sep: char): string
  {
    if |parts| <= 1 then (if parts == [] then "" else parts[0])
    else parts[0] + [sep] + Join(parts[1..], sep)
  }

  /** `split` loses nothing: joining its pieces with the separator gives
      back the string. */
  lemma {:induction false} JoinSplit(s: string, sep: char)
    ensures Join(Split(s, sep), sep) == s
    decreases |s|
  {
    match IndexOf(s, sep, 0)
    case None =>
    case Some(i) =>
      JoinSplit(s[i + 1..], sep);
      assert s == s[..i] + [sep] + s[i + 1..];
  }

  /** In a string without the separator there is none to find. */
  lemma {:induction false} IndexOfAbsent(p: string, sep: char)
    requires sep !in p
    ensures IndexOf(p, sep, 0).None?
  {
    assert forall k :: 0 <= k < |p| ==> p[k] != sep by {
      forall k | 0 <= k < |p| ensures p[k] != sep {
        assert p[k] in p;
      }
    }
  }

  /** The first separator of `p + [sep] + rest`, when `p` holds none, is
      the one right after `p`. */
  lemma {:induction false} IndexOfAfter(p: string, rest: string, sep: char)
    requires sep !in p
    ensures IndexOf(p + [sep] + rest, sep, 0) == Some(|p|)
  {
    var s := p + [sep] + rest;
    assert forall k :: 0 <= k < |p| ==> s[k] != sep by {
      forall k | 0 <= k < |p| ensures s[k] != sep {
        assert s[k] == p[k] && p[k] in p;
      }
    }
    assert s[|p|] == sep;
    IndexOfSpec(s, sep, 0);
  }

  /** Splitting at the first separator peels off the piece before it. */
  lemma {:induction false} SplitStep(p: string, rest: string, sep: char)
    requires sep !in p
    ensures Split(p + [sep] + rest, sep) == [p] + Split(rest, sep)
  {
    var s := p + [sep] + rest;
    IndexOfAfter(p, rest, sep);
    assert s[..|p|] == p;
    assert s[|p| + 1..] == rest;
  }

  /** Conversely, splitting a join of separator-free pieces gives the pieces
      back, so `split` is the one decomposition of `s` into such pieces. */
  lemma {:induction false} SplitJoin(parts: seq<string>, sep: char)
    requires |parts| >= 1
    requires forall p :: p in parts ==> sep !in p
    ensures Split(Join(parts, sep), sep) == parts
    decreases |parts|
  {
    if |parts| == 1 {
      assert parts[0] in parts;
      IndexOfAbsent(parts[0], sep);
    } else {
      var tail := parts[1..];
      assert parts[0] in parts;
      SplitStep(parts[0], Join(tail, sep), sep);
      assert forall q :: q in tail ==> q in parts;
      SplitJoin(tail, sep);
      assert parts == [parts[0]] + tail;
    }
  }
}
