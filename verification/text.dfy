/**
 * Python's substring search and `str.split(sep)` / `sep.join(parts)` on a
 * non-empty separator.  `split` scans from the left and, after every match,
 * resumes the search right after it, so matches never overlap.
 */
module Text {
  import opened Wrappers

  /** The separator d occurs in s at index i. */
  predicate OccursAt(s: string, d: string, i: nat) {
    i + |d| <= |s| && s[i .. i + |d|] == d
  }

  /** `s.find(d, start)`: the first index from start on at which d occurs in s. */
  function FindFrom(s: string, d: string, start: nat): (r: Option<nat>)
    requires |d| > 0
    ensures r.Some? ==> start <= r.value && OccursAt(s, d, r.value)
    ensures r.Some? ==> forall j :: start <= j < r.value ==> !OccursAt(s, d, j)
    ensures r.None? ==> forall j :: start <= j ==> !OccursAt(s, d, j)
    decreases |s| - start
  {
    if start + |d| > |s| then None
    else if OccursAt(s, d, start) then Some(start)
    else FindFrom(s, d, start + 1)
  }

  /** `s.find(d)`. */
  function Find(s: string, d: string): (r: Option<nat>)
    requires |d| > 0
  {
    FindFrom(s, d, 0)
  }

  /** `d in s`. */
  predicate Contains(s: string, d: string)
    requires |d| > 0
  {
    Find(s, d).Some?
  }

  /** `s.split(d)`: the pieces between the matches found scanning from the left. */
  function SplitOn(s: string, d: string): (r: seq<string>)
    requires |d| > 0
    ensures |r| >= 1
    decreases |s|
  {
    match Find(s, d)
    case None => [s]
    case Some(i) => [s[..i]] + SplitOn(s[i + |d|..], d)
  }

  /** The text is cut exactly when it holds a match. */
  lemma SplitCount(s: string, d: string)
    requires |d| > 0
    ensures |SplitOn(s, d)| >= 2 <==> Contains(s, d)
  {
  }

  /** No piece of the split holds a match. */
  lemma {:induction false} PiecesHoldNoMatch(s: string, d: string)
    requires |d| > 0
    ensures forall k :: 0 <= k < |SplitOn(s, d)| ==> !Contains(SplitOn(s, d)[k], d)
    decreases |s|
  {
    match Find(s, d)
    case None =>
    case Some(i) =>
      PrefixBeforeFirst(s, d, i);
      PiecesHoldNoMatch(s[i + |d|..], d);
      SplitAtFirst(s, d, i);
  }

  /** The first piece ends at the first match, and the rest is split after it. */
  lemma SplitAtFirst(s: string, d: string, i: nat)
    requires |d| > 0 && Find(s, d) == Some(i)
    ensures i + |d| <= |s|
    ensures SplitOn(s, d) == [s[..i]] + SplitOn(s[i + |d|..], d)
  {
  }

  /** The text before the first match holds no match. */
  lemma PrefixBeforeFirst(s: string, d: string, i: nat)
    requires |d| > 0 && i <= |s|
    requires forall j :: 0 <= j < i ==> !OccursAt(s, d, j)
    ensures !Contains(s[..i], d)
  {
    forall j | 0 <= j ensures !OccursAt(s[..i], d, j) {
      if j + |d| <= i {
        assert s[..i][j .. j + |d|] == s[j .. j + |d|];
        assert !OccursAt(s, d, j);
      }
    }
  }

  /** A match that no earlier match precedes is the one `find` reports. */
  lemma FirstMatch(s: string, d: string, i: nat)
    requires |d| > 0
    requires OccursAt(s, d, i) && forall j :: 0 <= j < i ==> !OccursAt(s, d, j)
    ensures Find(s, d) == Some(i)
  {
  }

  /** A match inside a prefix of s is a match in s, and back. */
  lemma PrefixOccurs(s: string, t: string, d: string, j: nat)
    requires |t| <= |s| && s[..|t|] == t && j + |d| <= |t|
    ensures OccursAt(s, d, j) <==> OccursAt(t, d, j)
  {
    var a, b := s[j .. j + |d|], t[j .. j + |d|];
    forall x | 0 <= x < |d| ensures a[x] == b[x] {
      assert s[j + x] == s[..|t|][j + x];
    }
    assert a == b;
  }

  /** A match in a suffix of s is a match in s, k indices further on. */
  lemma SuffixOccurs(s: string, k: nat, d: string, j: nat)
    requires k <= |s|
    ensures OccursAt(s[k..], d, j) <==> OccursAt(s, d, j + k)
  {
    if j + k + |d| <= |s| {
      assert s[k..][j .. j + |d|] == s[j + k .. j + k + |d|];
    }
  }

  /** `d.join(parts)`: the parts with d between each two neighbours. */
  function JoinWith(d: string, parts: seq<string>): (r: string)
    ensures |parts| == 1 ==> r == parts[0]
    ensures |parts| >= 1 ==> |parts[0]| <= |r| && r[..|parts[0]|] == parts[0]
  {
    if parts == [] then ""
    else if |parts| == 1 then parts[0]
    else parts[0] + d + JoinWith(d, parts[1..])
  }

  /** Joining with d the pieces `split` cut at d gives back the text. */
  lemma {:induction false} JoinSplit(s: string, d: string)
    requires |d| > 0
    ensures JoinWith(d, SplitOn(s, d)) == s
    decreases |s|
  {
    match Find(s, d)
    case None =>
    case Some(i) =>
      var rest := s[i + |d|..];
      JoinSplit(rest, d);
      SplitAtFirst(s, d, i);
      var r := SplitOn(s, d);
      assert r[0] == s[..i] && r[1..] == SplitOn(rest, d) && |r| >= 2;
      assert JoinWith(d, r) == r[0] + d + JoinWith(d, r[1..]);
      assert s == s[..i] + d + rest;
  }

  /** Joining all but the last piece, then d, then the last piece, is joining them all. */
  lemma {:induction false} JoinLast(d: string, parts: seq<string>)
    requires |parts| >= 2
    ensures JoinWith(d, parts) == JoinWith(d, parts[..|parts| - 1]) + d + parts[|parts| - 1]
    decreases |parts|
  {
    if |parts| > 2 {
      JoinLast(d, parts[1..]);
      assert parts[1..][..|parts[1..]| - 1] == parts[..|parts| - 1][1..];
    }
  }

  /** A text holding d is all pieces but the last joined with d, then d, then the last piece, which holds no d. */
  lemma SplitLast(s: string, d: string)
    requires |d| > 0 && Contains(s, d)
    ensures var pieces := SplitOn(s, d);
      && |pieces| >= 2
      && s == JoinWith(d, pieces[..|pieces| - 1]) + d + pieces[|pieces| - 1]
      && !Contains(pieces[|pieces| - 1], d)
  {
    SplitCount(s, d);
    JoinSplit(s, d);
    JoinedLast(s, d, SplitOn(s, d));
    PiecesHoldNoMatch(s, d);
  }

  /** Text joined from two or more parts is the join of all but the last, d, and the last. */
  lemma JoinedLast(s: string, d: string, parts: seq<string>)
    requires |parts| >= 2 && JoinWith(d, parts) == s
    ensures s == JoinWith(d, parts[..|parts| - 1]) + d + parts[|parts| - 1]
  {
    JoinLast(d, parts);
  }

  /**
   * No match of d in t + d begins inside t and ends inside the appended d:
   * the separator after t is matched where it stands.
   */
  predicate NoStraddle(t: string, d: string) {
    forall j :: |t| - |d| < j < |t| && 0 <= j ==> !OccursAt(t + d, d, j)
  }

  /**
   * Splitting t + d + n, where no match straddles the end of t and n holds
   * no match, cuts exactly where t would be cut and once more after t.
   */
  lemma {:induction false} SplitAppend(t: string, d: string, n: string)
    requires |d| > 0
    requires NoStraddle(t, d)
    requires !Contains(n, d)
    ensures SplitOn(t + d + n, d) == SplitOn(t, d) + [n]
    decreases |t|
  {
    match Find(t, d)
    case None =>
      SplitAppendLast(t, d, n);
    case Some(i) =>
      var t' := t[i + |d|..];
      FindAppendFirst(t, d, n, i);
      var s := t + d + n;
      assert s[i + |d|..] == t' + d + n && s[..i] == t[..i];
      StraddleSuffix(t, d, i + |d|);
      SplitAppend(t', d, n);
      SplitAtFirst(s, d, i);
      SplitAtFirst(t, d, i);
      calc {
        SplitOn(s, d);
        [s[..i]] + SplitOn(s[i + |d|..], d);
        [t[..i]] + (SplitOn(t', d) + [n]);
        ([t[..i]] + SplitOn(t', d)) + [n];
        SplitOn(t, d) + [n];
      }
  }

  /** When t holds no match, t + d + n is cut once, right after t. */
  lemma SplitAppendLast(t: string, d: string, n: string)
    requires |d| > 0
    requires NoStraddle(t, d)
    requires !Contains(n, d) && !Contains(t, d)
    ensures SplitOn(t + d + n, d) == [t, n]
  {
    var s := t + d + n;
    assert s[..|t|] == t && s[..|t| + |d|] == t + d;
    forall j | 0 <= j < |t| ensures !OccursAt(s, d, j) {
      if j + |d| <= |t| {
        PrefixOccurs(s, t, d, j);
      } else {
        PrefixOccurs(s, t + d, d, j);
      }
    }
    assert OccursAt(s, d, |t|) by { assert s[|t| .. |t| + |d|] == d; }
    FirstMatch(s, d, |t|);
    assert s[|t| + |d|..] == n;
  }

  /** When t's first match is at i, so is the first match of t + d + n. */
  lemma FindAppendFirst(t: string, d: string, n: string, i: nat)
    requires |d| > 0
    requires Find(t, d) == Some(i)
    ensures i + |d| <= |t|
    ensures Find(t + d + n, d) == Some(i)
  {
    var s := t + d + n;
    assert s[..|t|] == t;
    PrefixOccurs(s, t, d, i);
    forall j | 0 <= j < i ensures !OccursAt(s, d, j) {
      PrefixOccurs(s, t, d, j);
    }
    FirstMatch(s, d, i);
  }

  /** No match straddles the end of a suffix of t when none straddles the end of t. */
  lemma StraddleSuffix(t: string, d: string, k: nat)
    requires k <= |t| && NoStraddle(t, d)
    ensures NoStraddle(t[k..], d)
  {
    var t' := t[k..];
    assert t' + d == (t + d)[k..];
    forall j | |t'| - |d| < j < |t'| && 0 <= j ensures !OccursAt(t' + d, d, j) {
      SuffixOccurs(t + d, k, d, j);
    }
  }
}
