/**
 * Ruby's `String#include?` and `String#gsub` with a plain (non-regexp)
 * string pattern and a string replacement, as the plugin uses them to swap
 * CDN origins. The scan is left to right and matches do not overlap.
 * `Split` cuts the text into the pieces between the matches that scan finds;
 * joining them with the replacement is proved to be the same replacement.
 */
module Gsub {

  /** `pat` occurs in `s` starting at index `i`. */
  predicate OccursAt(s: string, pat: string, i: int) {
    0 <= i && i + |pat| <= |s| && s[i..i + |pat|] == pat
  }

  /**
   * `s.include?(pat)`. A pattern longer than the text never occurs; the empty
   * pattern occurs in every text.
   */
  predicate Contains(s: string, pat: string): (b: bool)
    ensures b ==> |pat| <= |s|
    ensures |pat| == 0 ==> b
  {
    assert |pat| == 0 ==> OccursAt(s, pat, 0);
    exists i :: 0 <= i <= |s| - |pat| && OccursAt(s, pat, i)
  }

  /**
   * `s.gsub(pat, rep)`: every leftmost, non-overlapping match of `pat` becomes
   * `rep`. Replacing the pattern by itself (the control bucket's choice) gives
   * the text back, and a replacement as long as the pattern keeps the length.
   */
  function ReplaceAll(s: string, pat: string, rep: string): (r: string)
    requires |pat| > 0
    ensures rep == pat ==> r == s
    ensures |rep| == |pat| ==> |r| == |s|
    decreases |s|
  {
    if |s| < |pat| then s
    else if s[..|pat|] == pat then
      assert s == s[..|pat|] + s[|pat|..];
      rep + ReplaceAll(s[|pat|..], pat, rep)
    else
      assert s == [s[0]] + s[1..];
      [s[0]] + ReplaceAll(s[1..], pat, rep)
  }

  /**
   * The pieces between the matches that `ReplaceAll`'s scan finds, in order;
   * there is one more piece than there are matches.
   */
  function Split(s: string, pat: string): (parts: seq<string>)
    requires |pat| > 0
    ensures |parts| > 0
    decreases |s|
  {
    if |s| < |pat| then [s]
    else if s[..|pat|] == pat then [""] + Split(s[|pat|..], pat)
    else
      var rest := Split(s[1..], pat);
      [[s[0]] + rest[0]] + rest[1..]
  }

  /** `parts.join(sep)`. */
  function Join(parts: seq<string>, sep: string): string
    requires |parts| > 0
    decreases |parts|
  {
    if |parts| == 1 then parts[0] else parts[0] + sep + Join(parts[1..], sep)
  }

  /** A match in `s[1..]` is a match in `s`, one position further on. */
  lemma ContainsTail(s: string, pat: string)
    requires |s| > 0 && Contains(s[1..], pat)
    ensures Contains(s, pat)
  {
    var i :| 0 <= i <= |s[1..]| - |pat| && OccursAt(s[1..], pat, i);
    assert s[i + 1..i + 1 + |pat|] == s[1..][i..i + |pat|];
    assert OccursAt(s, pat, i + 1);
  }

  /** A text without a match comes back unchanged. */
  lemma {:induction false} ReplaceAllWithoutMatch(s: string, pat: string, rep: string)
    requires |pat| > 0 && !Contains(s, pat)
    ensures ReplaceAll(s, pat, rep) == s
    decreases |s|
  {
    if |s| >= |pat| {
      assert !OccursAt(s, pat, 0);
      if Contains(s[1..], pat) {
        ContainsTail(s, pat);
      }
      ReplaceAllWithoutMatch(s[1..], pat, rep);
      assert s == [s[0]] + s[1..];
    }
  }

  /** When the text has a match, the replacement appears in the result. */
  lemma {:induction false} ReplaceAllIntroduces(s: string, pat: string, rep: string)
    requires |pat| > 0 && Contains(s, pat)
    ensures Contains(ReplaceAll(s, pat, rep), rep)
    decreases |s|
  {
    var r := ReplaceAll(s, pat, rep);
    var i :| 0 <= i <= |s| - |pat| && OccursAt(s, pat, i);
    if s[..|pat|] == pat {
      assert r[0..|rep|] == rep;
      assert OccursAt(r, rep, 0);
    } else {
      assert i != 0;
      assert s[1..][i - 1..i - 1 + |pat|] == s[i..i + |pat|];
      assert OccursAt(s[1..], pat, i - 1);
      ReplaceAllIntroduces(s[1..], pat, rep);
      var t := ReplaceAll(s[1..], pat, rep);
      assert r == [s[0]] + t;
      ContainsTail(r, rep);
    }
  }

  /** Gluing `c` onto the first piece glues it onto the joined text. */
  lemma {:induction false} JoinPrepend(c: string, parts: seq<string>, sep: string)
    requires |parts| > 0
    ensures Join([c + parts[0]] + parts[1..], sep) == c + Join(parts, sep)
  {
    var q := [c + parts[0]] + parts[1..];
    if |parts| > 1 {
      assert q[1..] == parts[1..];
    }
  }

  /** Joining the pieces with the pattern gives back the original text. */
  lemma {:induction false} JoinSplit(s: string, pat: string)
    requires |pat| > 0
    ensures Join(Split(s, pat), pat) == s
    decreases |s|
  {
    if |s| >= |pat| {
      if s[..|pat|] == pat {
        var rest := Split(s[|pat|..], pat);
        JoinSplit(s[|pat|..], pat);
        assert ([""] + rest)[1..] == rest;
        assert s == s[..|pat|] + s[|pat|..];
      } else {
        var rest := Split(s[1..], pat);
        JoinSplit(s[1..], pat);
        JoinPrepend([s[0]], rest, pat);
        assert s == [s[0]] + s[1..];
      }
    }
  }

  /** `gsub` is `split` followed by `join` with the replacement. */
  lemma {:induction false} ReplaceAllIsSplitJoin(s: string, pat: string, rep: string)
    requires |pat| > 0
    ensures ReplaceAll(s, pat, rep) == Join(Split(s, pat), rep)
    decreases |s|
  {
    if |s| >= |pat| {
      if s[..|pat|] == pat {
        var rest := Split(s[|pat|..], pat);
        ReplaceAllIsSplitJoin(s[|pat|..], pat, rep);
        assert ([""] + rest)[1..] == rest;
      } else {
        var rest := Split(s[1..], pat);
        ReplaceAllIsSplitJoin(s[1..], pat, rep);
        JoinPrepend([s[0]], rest, rep);
      }
    }
  }

  /** The first piece of a split is a prefix of the text. */
  lemma SplitHeadIsPrefix(s: string, pat: string)
    requires |pat| > 0
    ensures |Split(s, pat)[0]| <= |s| && s[..|Split(s, pat)[0]|] == Split(s, pat)[0]
  {
    var parts := Split(s, pat);
    JoinSplit(s, pat);
    if |parts| > 1 {
      assert s == parts[0] + (pat + Join(parts[1..], pat));
    }
  }

  /**
   * A text `t` read from `s[1..]` that holds no match, preceded by `s[0]`,
   * still holds none when the scan found no match at the start of `s`.
   */
  lemma ConsAvoidsPattern(s: string, pat: string, t: string)
    requires |pat| > 0 && |s| >= |pat| && s[..|pat|] != pat
    requires |t| < |s| && s[1..][..|t|] == t && !Contains(t, pat)
    ensures !Contains([s[0]] + t, pat)
  {
    var head := [s[0]] + t;
    assert head == s[..|head|];
    if Contains(head, pat) {
      var i :| 0 <= i <= |head| - |pat| && OccursAt(head, pat, i);
      if i == 0 {
        assert false;
      } else {
        assert t[i - 1..i - 1 + |pat|] == head[i..i + |pat|];
        assert OccursAt(t, pat, i - 1);
      }
    }
  }

  /** No piece between the scan's matches contains the pattern. */
  lemma {:induction false} SplitPiecesAvoidPattern(s: string, pat: string, k: nat)
    requires |pat| > 0 && k < |Split(s, pat)|
    ensures !Contains(Split(s, pat)[k], pat)
    decreases |s|
  {
    if |s| < |pat| {
    } else if s[..|pat|] == pat {
      if k > 0 {
        SplitPiecesAvoidPattern(s[|pat|..], pat, k - 1);
      }
    } else if k > 0 {
      SplitPiecesAvoidPattern(s[1..], pat, k);
    } else {
      var rest := Split(s[1..], pat);
      SplitPiecesAvoidPattern(s[1..], pat, 0);
      SplitHeadIsPrefix(s[1..], pat);
      ConsAvoidsPattern(s, pat, rest[0]);
    }
  }
}
