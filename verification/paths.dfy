/**
 * The POSIX `os.path` functions the saving scheme relies on: `join` of two
 * components, `split` (and so `dirname` and `basename`) and `splitext`.
 * `abspath` is not modelled: the paths handed to these functions are taken
 * to be absolute and normalised already.
 */
module PathOps {

  /** `s.rfind(c)`: the last index holding c, or -1. */
  function RFind(s: string, c: char): (r: int)
    ensures -1 <= r < |s|
    ensures r >= 0 ==> s[r] == c
    ensures forall j :: r < j < |s| ==> s[j] != c
  {
    if s == [] then -1
    else if s[|s| - 1] == c then |s| - 1
    else RFind(s[..|s| - 1], c)
  }

  /** No '/' in s: a single path component. */
  predicate NoSep(s: string) {
    forall j :: 0 <= j < |s| ==> s[j] != '/'
  }

  /** Two single components side by side make one. */
  lemma NoSepConcat(a: string, b: string)
    requires NoSep(a) && NoSep(b)
    ensures NoSep(a + b)
  {
    forall j | 0 <= j < |a + b| ensures (a + b)[j] != '/' {
      if j >= |a| { assert (a + b)[j] == b[j - |a|]; }
    }
  }

  predicate IsAbsolute(p: string) {
    |p| > 0 && p[0] == '/'
  }

  /** `os.path.join(a, b)`: b alone when it is absolute, else a and b with one '/' between unless a is empty or already ends in '/'. */
  function Join(a: string, b: string): (r: string)
    ensures IsAbsolute(b) ==> r == b
    ensures !IsAbsolute(b) ==> |a| + |b| <= |r| <= |a| + |b| + 1 && r[..|a|] == a && r[|r| - |b|..] == b
    ensures !IsAbsolute(b) && a != [] ==> r[|r| - |b| - 1] == '/'
    // a '/' is added exactly when a is non-empty and does not already end in one
    ensures !IsAbsolute(b) ==> (|r| == |a| + |b| <==> a == [] || a[|a| - 1] == '/')
  {
    if IsAbsolute(b) then b
    else if a == [] || a[|a| - 1] == '/' then a + b
    else a + "/" + b
  }

  /** Every character of s is '/'. */
  predicate AllSeps(s: string) {
    forall j :: 0 <= j < |s| ==> s[j] == '/'
  }

  /** `s.rstrip('/')`. */
  function StripSeps(s: string): (r: string)
    ensures |r| <= |s| && r == s[..|r|]
    ensures r == [] || r[|r| - 1] != '/'
    ensures AllSeps(s[|r|..])
  {
    if s == [] || s[|s| - 1] != '/' then s else StripSeps(s[..|s| - 1])
  }

  /** The head that `os.path.split(p)` returns: up to the last '/', trailing '/' dropped unless it is all '/'. */
  function Dirname(p: string): (r: string)
    ensures |r| <= |p| && r == p[..|r|]
  {
    var head := p[..RFind(p, '/') + 1];
    if head != [] && !AllSeps(head) then StripSeps(head) else head
  }

  /** The tail that `os.path.split(p)` returns: everything after the last '/'. */
  function Basename(p: string): (r: string)
    ensures NoSep(r)
    ensures |r| <= |p| && r == p[|p| - |r|..]
    ensures |r| < |p| ==> p[|p| - |r| - 1] == '/'
  {
    p[RFind(p, '/') + 1..]
  }

  /** A directory name `split` gives back unchanged: '/'-only, or not ending in '/'. */
  predicate IsDirName(a: string) {
    a != [] && (AllSeps(a) || a[|a| - 1] != '/')
  }

  /** An absolute path without empty components and without a trailing '/'. */
  predicate IsNormal(p: string) {
    && IsAbsolute(p) && |p| >= 2 && p[|p| - 1] != '/'
    && forall j :: 0 < j < |p| ==> (p[j] == '/' ==> p[j - 1] != '/')
  }

  /** `basename(join(a, b)) == b` for a single component b. */
  lemma BasenameOfJoin(a: string, b: string)
    requires NoSep(b)
    ensures Basename(Join(a, b)) == b
  {
    var r := Join(a, b);
    var i := RFind(r, '/');
    if a == [] {
      assert r == b;
      assert i == -1;
    } else {
      assert r[|r| - |b| - 1] == '/';
      assert forall j :: |r| - |b| <= j < |r| ==> r[j] == b[j - (|r| - |b|)];
      assert i == |r| - |b| - 1;
    }
  }

  /** `dirname(join(a, b)) == a` for a directory name a and a single component b. */
  lemma DirnameOfJoin(a: string, b: string)
    requires IsDirName(a) && NoSep(b)
    ensures Dirname(Join(a, b)) == a
  {
    var r := Join(a, b);
    assert forall j :: |r| - |b| <= j < |r| ==> r[j] == b[j - (|r| - |b|)];
    var i := RFind(r, '/');
    assert i == |r| - |b| - 1;
    var head := r[..i + 1];
    if AllSeps(a) {
      if a[|a| - 1] == '/' {
        assert head == a;
      } else {
        assert false;
      }
    } else {
      assert a[|a| - 1] != '/';
      assert head == a + "/";
      assert !AllSeps(head) by { var j :| 0 <= j < |a| && a[j] != '/'; assert head[j] == a[j]; }
      StripOneSep(a);
    }
  }

  /** `split(join(a, b))` gives back b, and a when a is a directory name. */
  lemma SplitOfJoin(a: string, b: string)
    ensures NoSep(b) ==> Basename(Join(a, b)) == b
    ensures NoSep(b) && IsDirName(a) ==> Dirname(Join(a, b)) == a
  {
    if NoSep(b) {
      BasenameOfJoin(a, b);
      if IsDirName(a) {
        DirnameOfJoin(a, b);
      }
    }
  }

  /** Stripping `a + "/"` for an a that does not end in '/' gives a. */
  lemma StripOneSep(a: string)
    requires a == [] || a[|a| - 1] != '/'
    ensures StripSeps(a + "/") == a
  {
    assert (a + "/")[..|a|] == a;
  }

  /** A normal path is the join of its dirname and its basename. */
  lemma JoinDirBase(p: string)
    requires IsNormal(p)
    ensures IsDirName(Dirname(p)) && NoSep(Basename(p)) && Basename(p) != []
    ensures Join(Dirname(p), Basename(p)) == p
  {
    var i := RFind(p, '/');
    assert i >= 0 by { assert p[0] == '/'; }
    var base := p[i + 1..];
    assert base != [] && base[0] != '/';
    if i == 0 {
      assert p[..1] == "/";
      assert Dirname(p) == "/";
    } else {
      var head := p[..i + 1];
      assert p[i - 1] != '/';
      assert !AllSeps(head) by { assert head[i - 1] == p[i - 1]; }
      assert head == p[..i] + "/";
      StripOneSep(p[..i]);
      assert Dirname(p) == p[..i];
      assert p == p[..i] + "/" + base;
    }
  }

  /** Appending text without c leaves the last c where it was. */
  lemma {:induction false} RFindAppend(p: string, x: string, c: char)
    requires forall j :: 0 <= j < |x| ==> x[j] != c
    ensures RFind(p + x, c) == RFind(p, c)
    decreases |x|
  {
    if x != [] {
      var shorter := x[..|x| - 1];
      assert (p + x)[..|p + x| - 1] == p + shorter;
      RFindAppend(p, shorter, c);
    } else {
      assert p + x == p;
    }
  }

  /** A c in the appended text is the last c of the whole, |p| further on. */
  lemma {:induction false} RFindShift(p: string, x: string, c: char)
    requires RFind(x, c) >= 0
    ensures RFind(p + x, c) == |p| + RFind(x, c)
    decreases |x|
  {
    if x[|x| - 1] != c {
      var shorter := x[..|x| - 1];
      assert (p + x)[..|p + x| - 1] == p + shorter;
      RFindShift(p, shorter, c);
    }
  }

  /** A path that is empty or ends in '/' has an empty basename, so its basename after b is b's. */
  lemma BasenameAfterDir(front: string, b: string)
    requires front == [] || front[|front| - 1] == '/'
    ensures Basename(front + b) == Basename(b)
  {
    if RFind(b, '/') >= 0 {
      RFindShift(front, b, '/');
      assert (front + b)[|front| + RFind(b, '/') + 1..] == b[RFind(b, '/') + 1..];
    } else {
      assert NoSep(b);
      AppendComponentText(front, b);
      assert Basename(front) == [];
    }
  }

  /** `basename(join(a, b)) == basename(b)`, whatever a and b are. */
  lemma BasenameOfAnyJoin(a: string, b: string)
    ensures Basename(Join(a, b)) == Basename(b)
  {
    if !IsAbsolute(b) {
      if a == [] || a[|a| - 1] == '/' {
        BasenameAfterDir(a, b);
      } else {
        BasenameAfterDir(a + "/", b);
        assert Join(a, b) == (a + "/") + b;
      }
    }
  }

  /** Appending text without '/' to a path keeps its dirname and extends its basename. */
  lemma AppendComponentText(p: string, x: string)
    requires NoSep(x)
    ensures Dirname(p + x) == Dirname(p)
    ensures Basename(p + x) == Basename(p) + x
  {
    var q := p + x;
    RFindAppend(p, x, '/');
    var k := RFind(p, '/') + 1;
    assert q[..k] == p[..k];
    assert q[k..] == p[k..] + x;
  }

  /** The characters of s from lo up to hi are not all '.'. */
  predicate HasNonDot(s: string, lo: int, hi: int)
    requires 0 <= lo && hi <= |s|
  {
    exists j :: lo <= j < hi && s[j] != '.'
  }

  /**
   * `os.path.splitext(p)`: the extension starts at the last '.' after the
   * last '/', provided a character other than '.' precedes that dot in the
   * last component; otherwise the extension is empty.
   */
  function Splitext(p: string): (r: (string, string))
    ensures r.0 + r.1 == p
    ensures r.1 != [] ==> r.1[0] == '.' && forall j :: 0 < j < |r.1| ==> r.1[j] != '.' && r.1[j] != '/'
    // a split leaves a character other than '.' in the last component of the root
    ensures r.1 != [] ==> RFind(p, '/') < |r.0| && HasNonDot(p, RFind(p, '/') + 1, |r.0|)
    // no split: no '.' of the last component has a character other than '.' before it there
    ensures r.1 == [] ==> forall j :: RFind(p, '/') < j < |p| && p[j] == '.' ==> !HasNonDot(p, RFind(p, '/') + 1, j)
  {
    var sep, dot := RFind(p, '/'), RFind(p, '.');
    if dot > sep && HasNonDot(p, sep + 1, dot) then
      assert forall j :: 0 < j < |p[dot..]| ==> p[dot..][j] == p[dot + j];
      (p[..dot], p[dot..])
    else
      // every '.' of the last component lies at or before the last one, which has only dots before it
      assert forall j :: sep < j < |p| && p[j] == '.' ==> j <= dot && !HasNonDot(p, sep + 1, j);
      (p, [])
  }

  /** A stem without '/' that is not all dots keeps a dot-led extension without dots or '/' as its extension. */
  lemma SplitextOf(stem: string, ext: string)
    requires NoSep(stem) && HasNonDot(stem, 0, |stem|)
    requires |ext| >= 1 && ext[0] == '.' && forall j :: 0 < j < |ext| ==> ext[j] != '.' && ext[j] != '/'
    ensures Splitext(stem + ext) == (stem, ext)
  {
    var p := stem + ext;
    assert forall j :: |stem| < j < |p| ==> p[j] == ext[j - |stem|];
    assert RFind(p, '.') == |stem| by { assert p[|stem|] == '.'; }
    assert RFind(p, '/') == -1 by {
      assert forall j :: 0 <= j < |stem| ==> p[j] == stem[j];
    }
    var w :| 0 <= w < |stem| && stem[w] != '.';
    assert p[w] == stem[w];
    assert p[..|stem|] == stem && p[|stem|..] == ext;
  }
}
