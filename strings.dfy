/** Python string operations the core relies on: `str.split`, `str.join`,
    `str.replace` and the `in` test on strings. */
module Strings {

  /** `t in s` for strings: `t` occurs in `s` as a contiguous block. */
  predicate Contains(s: string, t: string)
    decreases |s|
  {
    |t| <= |s| && (s[..|t|] == t || Contains(s[1..], t))
  }

  /** `s.split(sep)` for a non-empty separator: the pieces between the
      non-overlapping occurrences of `sep`, found scanning from the left. */
  function Split(s: string, sep: string): (parts: seq<string>)
    requires |sep| > 0
    ensures |parts| >= 1
    decreases |s|
  {
    if |s| < |sep| then [s]
    else if s[..|sep|] == sep then [""] + Split(s[|sep|..], sep)
    else
      var rest := Split(s[1..], sep);
      [[s[0]] + rest[0]] + rest[1..]
  }

  /** `sep.join(parts)`. */
  function Join(parts: seq<string>, sep: string): string
  {
    if |parts| == 0 then ""
    else if |parts| == 1 then parts[0]
    else parts[0] + sep + Join(parts[1..], sep)
  }

  /** `s.replace(pat, rep)` for a non-empty pattern: every non-overlapping
      occurrence of `pat`, scanning from the left, becomes `rep`. */
  function ReplaceAll(s: string, pat: string, rep: string): string
    requires |pat| > 0
    decreases |s|
  {
    if |s| < |pat| then s
    else if s[..|pat|] == pat then rep + ReplaceAll(s[|pat|..], pat, rep)
    else [s[0]] + ReplaceAll(s[1..], pat, rep)
  }

  /** The last piece of `s.split(".")`, as in `parts[len(parts) - 1]`. */
  function LastSegment(s: string): string
  {
    var parts := Split(s, ".");
    parts[|parts| - 1]
  }

  /** `s.replace(pat, rep)` equals `rep.join(s.split(pat))`: every
      occurrence of the pattern is replaced, and nothing else changes. */
  lemma {:induction false} ReplaceAllIsJoinOfSplit(s: string, pat: string, rep: string)
    requires |pat| > 0
    ensures ReplaceAll(s, pat, rep) == Join(Split(s, pat), rep)
    decreases |s|
  {
    if |s| < |pat| {
    } else if s[..|pat|] == pat {
      ReplaceAllIsJoinOfSplit(s[|pat|..], pat, rep);
      var rest := Split(s[|pat|..], pat);
      assert Split(s, pat) == [""] + rest;
      assert ([""] + rest)[1..] == rest;
    } else {
      ReplaceAllIsJoinOfSplit(s[1..], pat, rep);
      var rest := Split(s[1..], pat);
      var parts := [[s[0]] + rest[0]] + rest[1..];
      assert Split(s, pat) == parts;
      if |rest| > 1 {
        assert parts[1..] == rest[1..];
        assert Join(parts, rep) == [s[0]] + (rest[0] + rep + Join(rest[1..], rep));
      }
    }
  }

  /** Replacing a pattern by itself gives the string back. */
  lemma {:induction false} ReplaceAllBySelf(s: string, pat: string)
    requires |pat| > 0
    ensures ReplaceAll(s, pat, pat) == s
    decreases |s|
  {
    if |s| < |pat| {
    } else if s[..|pat|] == pat {
      ReplaceAllBySelf(s[|pat|..], pat);
      assert s == s[..|pat|] + s[|pat|..];
    } else {
      ReplaceAllBySelf(s[1..], pat);
      assert s == [s[0]] + s[1..];
    }
  }

  /** Joining the pieces of a split with the same separator restores the
      string. */
  lemma JoinSplitRoundTrip(s: string, sep: string)
    requires |sep| > 0
    ensures Join(Split(s, sep), sep) == s
  {
    ReplaceAllIsJoinOfSplit(s, sep, sep);
    ReplaceAllBySelf(s, sep);
  }

  /** A string in which the pattern does not occur is left as it is. */
  lemma {:induction false} ReplaceAllAbsent(s: string, pat: string, rep: string)
    requires |pat| > 0 && !Contains(s, pat)
    ensures ReplaceAll(s, pat, rep) == s
    decreases |s|
  {
    if |s| >= |pat| {
      ReplaceAllAbsent(s[1..], pat, rep);
      assert s == [s[0]] + s[1..];
    }
  }

  /** A prefix in which the pattern's first character never appears is
      copied through unchanged. */
  lemma {:induction false} ReplaceAllSkipsPrefix(p: string, s: string, pat: string, rep: string)
    requires |pat| > 0 && pat[0] !in p
    ensures ReplaceAll(p + s, pat, rep) == p + ReplaceAll(s, pat, rep)
    decreases |p|
  {
    if p != [] {
      ReplaceAllSkipsPrefix(p[1..], s, pat, rep);
      var t := p + s;
      assert t[1..] == p[1..] + s;
      if |t| >= |pat| {
        assert t[..|pat|][0] == p[0];
        assert t[..|pat|] != pat;
        assert ReplaceAll(t, pat, rep) == [p[0]] + (p[1..] + ReplaceAll(s, pat, rep));
        assert p == [p[0]] + p[1..];
        assert [p[0]] + (p[1..] + ReplaceAll(s, pat, rep)) == p + ReplaceAll(s, pat, rep);
      } else {
        assert |s| < |pat|;
        assert ReplaceAll(s, pat, rep) == s;
        assert ReplaceAll(t, pat, rep) == t;
      }
    } else {
      assert p + s == s;
    }
  }

  /** Shape of the last piece of a split on a one-character separator: it
      holds no separator, it is a suffix of the string, and it is either the
      whole string (when there is a single piece) or preceded by the
      separator. */
  lemma {:induction false} SplitLastPiece(s: string, c: char)
    ensures var parts := Split(s, [c]);
            var r := parts[|parts| - 1];
            && c !in r
            && |r| <= |s| && s[|s| - |r|..] == r
            && (|r| < |s| ==> s[|s| - |r| - 1] == c)
            && (|parts| == 1 ==> r == s)
            && (|parts| > 1 ==> |r| < |s|)
    decreases |s|
  {
    if |s| < 1 {
    } else if s[..1] == [c] {
      SplitLastPiece(s[1..], c);
      var rest := Split(s[1..], [c]);
      assert Split(s, [c]) == [""] + rest;
    } else {
      SplitLastPiece(s[1..], c);
      var rest := Split(s[1..], [c]);
      var parts := [[s[0]] + rest[0]] + rest[1..];
      assert Split(s, [c]) == parts;
      if |rest| == 1 {
        assert s == [s[0]] + s[1..];
      } else {
        assert parts[|parts| - 1] == rest[|rest| - 1];
      }
    }
  }

  /** The routing-key suffix taken by `split(".")[-1]` contains no dot and
      is exactly the text after the last dot, or the whole key if it has
      none. */
  lemma LastSegmentIsAfterLastDot(s: string)
    ensures '.' !in LastSegment(s)
    ensures |LastSegment(s)| <= |s| && s[|s| - |LastSegment(s)|..] == LastSegment(s)
    ensures |LastSegment(s)| < |s| ==> s[|s| - |LastSegment(s)| - 1] == '.'
  {
    SplitLastPiece(s, '.');
  }
  /** A routing key `prefix + "." + t`, where `t` holds no dot, ends in the
      segment `t`. */
  lemma LastSegmentAfterDot(prefix: string, t: string)
    requires '.' !in t
    ensures LastSegment(prefix + "." + t) == t
  {
    var s := prefix + "." + t;
    var r := LastSegment(s);
    LastSegmentIsAfterLastDot(s);
    assert s[|s| - |t| - 1] == '.';
    assert s[|s| - |t|..] == t;
  }

  /** Text found in a string is still found after appending to it. */
  lemma {:induction false} ContainsExtended(s: string, q: string, t: string)
    requires Contains(s, t)
    ensures Contains(s + q, t)
    decreases |s|
  {
    if s[..|t|] == t {
      assert (s + q)[..|t|] == t;
    } else {
      ContainsExtended(s[1..], q, t);
      assert (s + q)[1..] == s[1..] + q;
    }
  }
}
