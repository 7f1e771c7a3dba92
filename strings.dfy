/** Python's string operations used by the scripts: `in`, `endswith`,
    `replace`, `split` on one character, `'sep'.join` and `os.path.basename`. */
module Strings {
  import opened Seqs

  /** `sub` occurs in `s` starting at position `i`. */
  predicate OccursAt(s: string, sub: string, i: int)
  {
    0 <= i <= |s| - |sub| && s[i..i + |sub|] == sub
  }

  /** `sub in s`: `sub` occurs somewhere in `s`. */
  predicate Contains(s: string, sub: string)
  {
    exists i :: 0 <= i <= |s| - |sub| && OccursAt(s, sub, i)
  }

  /** `s.endswith(suffix)`. */
  predicate EndsWith(s: string, suffix: string)
  {
    |suffix| <= |s| && s[|s| - |suffix|..] == suffix
  }

  lemma ContainsTail(s: string, sub: string)
    requires |s| > 0 && Contains(s[1..], sub)
    ensures Contains(s, sub)
  {
    var i :| 0 <= i <= |s[1..]| - |sub| && OccursAt(s[1..], sub, i);
    assert s[i + 1..i + 1 + |sub|] == sub;
    assert OccursAt(s, sub, i + 1);
  }

  lemma ContainsPrefix(s: string, sub: string)
    requires |sub| <= |s| && s[..|sub|] == sub
    ensures Contains(s, sub)
  {
    assert OccursAt(s, sub, 0);
  }

  /** A string ending in `sub` contains it. */
  lemma ContainsSuffix(a: string, sub: string)
    ensures Contains(a + sub, sub)
  {
    var s := a + sub;
    assert s[|a|..|a| + |sub|] == sub;
    assert OccursAt(s, sub, |a|);
  }

  lemma NotContainsTail(s: string, sub: string)
    requires |s| > 0 && !Contains(s, sub)
    ensures !Contains(s[1..], sub)
  {
    if Contains(s[1..], sub) { ContainsTail(s, sub); }
  }

  /** `s.replace(pat, rep)`: every non-overlapping occurrence of `pat`,
      scanning from the left, is replaced by `rep`. */
  function ReplaceAll(s: string, pat: string, rep: string): (r: string)
    requires |pat| > 0
    decreases |s|
  {
    if |s| < |pat| then s
    else if s[..|pat|] == pat then rep + ReplaceAll(s[|pat|..], pat, rep)
    else [s[0]] + ReplaceAll(s[1..], pat, rep)
  }

  /** A string without the pattern is left as it is. */
  lemma {:induction false} ReplaceAbsent(s: string, pat: string, rep: string)
    requires |pat| > 0
    ensures !Contains(s, pat) ==> ReplaceAll(s, pat, rep) == s
    decreases |s|
  {
    if !Contains(s, pat) && |s| >= |pat| {
      if s[..|pat|] == pat { ContainsPrefix(s, pat); }
      NotContainsTail(s, pat);
      ReplaceAbsent(s[1..], pat, rep);
      assert s == [s[0]] + s[1..];
    }
  }

  /** The leftmost occurrence of the pattern is replaced, and the scan
      resumes right after it; with `ReplaceAbsent` this determines the
      result of `str.replace` on every string. */
  lemma {:induction false} ReplaceLeftmost(s: string, pat: string, rep: string, k: nat)
    requires |pat| > 0 && OccursAt(s, pat, k)
    requires forall j :: 0 <= j < k ==> !OccursAt(s, pat, j)
    ensures ReplaceAll(s, pat, rep) == s[..k] + rep + ReplaceAll(s[k + |pat|..], pat, rep)
    decreases k
  {
    if k == 0 {
      assert s[..|pat|] == s[0..|pat|];
      assert s[..0] == [];
    } else {
      NoEarlierInTail(s, pat, k);
      ReplaceLeftmost(s[1..], pat, rep, k - 1);
      ReplaceSkip(s, pat, rep, k);
    }
  }

  /** Dropping the first character moves every occurrence one place left. */
  lemma NoEarlierInTail(s: string, pat: string, k: nat)
    requires 0 < k && OccursAt(s, pat, k)
    requires forall j :: 0 <= j < k ==> !OccursAt(s, pat, j)
    ensures OccursAt(s[1..], pat, k - 1)
    ensures forall j :: 0 <= j < k - 1 ==> !OccursAt(s[1..], pat, j)
  {
    OccursAtTail(s, pat, k - 1);
    forall j | 0 <= j < k - 1 ensures !OccursAt(s[1..], pat, j) {
      OccursAtTail(s, pat, j);
    }
  }

  /** One step of the scan past a position where the pattern does not start. */
  lemma ReplaceSkip(s: string, pat: string, rep: string, k: nat)
    requires |pat| > 0 && 0 < k && k + |pat| <= |s| && !OccursAt(s, pat, 0)
    requires ReplaceAll(s[1..], pat, rep) == s[1..][..k - 1] + rep + ReplaceAll(s[1..][k - 1 + |pat|..], pat, rep)
    ensures ReplaceAll(s, pat, rep) == s[..k] + rep + ReplaceAll(s[k + |pat|..], pat, rep)
  {
    var t := s[1..];
    var u := s[k + |pat|..];
    assert t[k - 1 + |pat|..] == u;
    ReplaceStep(s, pat, rep);
    ConsSlice(s, k);
    Regroup4([s[0]], t[..k - 1], rep, ReplaceAll(u, pat, rep));
  }

  lemma Regroup4(a: string, b: string, c: string, d: string)
    ensures a + (b + c + d) == (a + b) + c + d
  {
  }

  /** The scan keeps the first character when the pattern does not start there. */
  lemma ReplaceStep(s: string, pat: string, rep: string)
    requires |pat| > 0 && |pat| <= |s| && !OccursAt(s, pat, 0)
    ensures ReplaceAll(s, pat, rep) == [s[0]] + ReplaceAll(s[1..], pat, rep)
  {
    assert s[..|pat|] == s[0..|pat|];
  }

  lemma ConsSlice(s: string, k: nat)
    requires 0 < k <= |s|
    ensures [s[0]] + s[1..][..k - 1] == s[..k]
  {
  }

  /** An occurrence in the tail is an occurrence one position further on. */
  lemma OccursAtTail(s: string, pat: string, j: nat)
    requires |s| > 0
    ensures OccursAt(s[1..], pat, j) <==> OccursAt(s, pat, j + 1)
  {
    if j + |pat| <= |s| - 1 {
      assert s[1..][j..j + |pat|] == s[j + 1..j + 1 + |pat|];
    }
  }

  /** Removing a pattern (`rep == ""`) never lengthens; a replacement that
      is longer than the pattern never shortens. */
  lemma {:induction false} ReplaceLength(s: string, pat: string, rep: string)
    requires |pat| > 0
    ensures |rep| <= |pat| ==> |ReplaceAll(s, pat, rep)| <= |s|
    ensures |rep| >= |pat| ==> |ReplaceAll(s, pat, rep)| >= |s|
    decreases |s|
  {
    if |s| >= |pat| {
      if s[..|pat|] == pat {
        ReplaceLength(s[|pat|..], pat, rep);
      } else {
        ReplaceLength(s[1..], pat, rep);
      }
    }
  }

  /** `sep.join(parts)`. */
  function Join(parts: seq<string>, sep: char): (r: string)
    requires |parts| > 0
  {
    if |parts| == 1 then parts[0] else parts[0] + [sep] + Join(parts[1..], sep)
  }

  /** `s.split(sep)` for a one-character separator: the pieces between the
      occurrences of `sep`, empty pieces included. */
  function Split(s: string, sep: char): (r: seq<string>)
    ensures |r| == Count(s, sep) + 1
    ensures forall k :: 0 <= k < |r| ==> sep !in r[k]
    ensures Join(r, sep) == s
    decreases |s|
  {
    if |s| == 0 then [""]
    else
      var rest := Split(s[1..], sep);
      SplitStep(s, sep, rest);
      PrependToSplit(s[0], rest, sep)
  }

  /** The pieces of `[c] + t` from the pieces of `t`: a separator starts a
      new empty piece, any other character joins the first piece. */
  function PrependToSplit(c: char, rest: seq<string>, sep: char): (r: seq<string>)
    requires |rest| > 0
  {
    if c == sep then [""] + rest else [[c] + rest[0]] + rest[1..]
  }

  lemma SplitStep(s: string, sep: char, rest: seq<string>)
    requires |s| > 0
    requires |rest| == Count(s[1..], sep) + 1
    requires forall k :: 0 <= k < |rest| ==> sep !in rest[k]
    requires Join(rest, sep) == s[1..]
    ensures |PrependToSplit(s[0], rest, sep)| == Count(s, sep) + 1
    ensures forall k :: 0 <= k < |PrependToSplit(s[0], rest, sep)| ==> sep !in PrependToSplit(s[0], rest, sep)[k]
    ensures Join(PrependToSplit(s[0], rest, sep), sep) == s
  {
    var r := PrependToSplit(s[0], rest, sep);
    assert s == [s[0]] + s[1..];
    if s[0] == sep {
      assert r[1..] == rest;
    } else {
      assert r[1..] == rest[1..];
      if |rest| > 1 {
        assert Join(rest, sep) == rest[0] + [sep] + Join(rest[1..], sep);
      }
    }
  }

  /** The first piece of a split is the text before the first separator,
      or the whole string when there is none. */
  lemma SplitFirst(s: string, sep: char)
    ensures |Split(s, sep)[0]| <= |s| && s[..|Split(s, sep)[0]|] == Split(s, sep)[0]
    ensures sep !in s ==> Split(s, sep)[0] == s
    ensures sep in s ==> |Split(s, sep)[0]| < |s| && s[|Split(s, sep)[0]|] == sep
  {
    var parts := Split(s, sep);
    if |parts| > 1 {
      assert s == parts[0] + [sep] + Join(parts[1..], sep);
    }
  }

  /** The final component of a POSIX path (`os.path.basename`): everything
      after the last '/'. */
  function Basename(path: string): (r: string)
    ensures '/' !in r
    ensures EndsWith(path, r)
    ensures '/' !in path ==> r == path
    ensures |r| < |path| ==> path[|path| - |r| - 1] == '/'
  {
    var parts := Split(path, '/');
    BasenameIsSuffix(parts, path);
    parts[|parts| - 1]
  }

  lemma {:induction false} BasenameIsSuffix(parts: seq<string>, path: string)
    requires |parts| > 0 && Join(parts, '/') == path
    ensures EndsWith(path, parts[|parts| - 1])
    ensures |parts| == 1 ==> parts[0] == path
    ensures |parts| > 1 ==> |parts[|parts| - 1]| < |path| && path[|path| - |parts[|parts| - 1]| - 1] == '/'
    decreases |parts|
  {
    if |parts| > 1 {
      var tail := Join(parts[1..], '/');
      BasenameIsSuffix(parts[1..], tail);
      assert path == parts[0] + ['/'] + tail;
      assert parts[1..][|parts[1..]| - 1] == parts[|parts| - 1];
      var last := parts[|parts| - 1];
      assert path[|path| - |last|..] == tail[|tail| - |last|..];
      if |parts| == 2 {
        assert path[|path| - |last| - 1] == '/';
      } else {
        assert path[|path| - |last| - 1] == tail[|tail| - |last| - 1];
      }
    }
  }
}
