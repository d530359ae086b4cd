/**
 * The few numpy array constructors that the routing tables of the deep
 * neural decision forest are built from, on integer sequences.  Each is
 * defined by recursion, the way the array is assembled, and its contract
 * gives the element at every index in closed form.
 */
module ArrayOps {

  import opened Arith

  /** `np.repeat([x], n)`: n copies of x. */
  function Fill(x: int, n: nat): (r: seq<int>)
    ensures |r| == n
    ensures forall j :: 0 <= j < n ==> r[j] == x
  {
    if n == 0 then [] else [x] + Fill(x, n - 1)
  }

  /** `np.repeat(s, n)`: every element of s repeated n times in place. */
  function Repeat(s: seq<int>, n: nat): (r: seq<int>)
    ensures |r| == |s| * n
    ensures forall j :: 0 <= j < |r| ==> 0 <= j / n < |s| && r[j] == s[j / n]
  {
    if s == [] || n == 0 then []
    else
      var rest := Repeat(s[1..], n);
      var r := Fill(s[0], n) + rest;
      assert |r| == |s| * n by {
        assert |s| * n == n + (|s| - 1) * n;
      }
      forall j | 0 <= j < |r| ensures 0 <= j / n < |s| && r[j] == s[j / n] {
        RepeatConsAt(s, n, rest, j);
      }
      r
  }

  /** One element of `[s[0]] * n + rest`, where rest already repeats the tail of s. */
  lemma RepeatConsAt(s: seq<int>, n: nat, rest: seq<int>, j: nat)
    requires |s| >= 1 && n >= 1
    requires forall t :: 0 <= t < |rest| ==> 0 <= t / n < |s| - 1 && rest[t] == s[1..][t / n]
    requires j < n + |rest|
    ensures 0 <= j / n < |s|
    ensures (Fill(s[0], n) + rest)[j] == s[j / n]
  {
    if j >= n {
      ShiftQuotient(j - n, n);
      assert (Fill(s[0], n) + rest)[j] == rest[j - n];
    } else {
      SmallQuotient(j, n);
    }
  }

  lemma RepeatAt(s: seq<int>, n: nat, x: nat)
    requires x < |s| * n
    ensures 0 <= x / n < |s| && |Repeat(s, n)| == |s| * n && Repeat(s, n)[x] == s[x / n]
  {
  }

  /** `np.tile(s, n)`: s laid end to end n times. */
  function Tile(s: seq<int>, n: nat): (r: seq<int>)
    ensures |r| == |s| * n
    ensures forall j :: 0 <= j < |r| ==> r[j] == s[j % |s|]
  {
    if n == 0 then []
    else
      var rest := Tile(s, n - 1);
      var r := s + rest;
      assert |s| * n == |s| + |s| * (n - 1);
      forall j | 0 <= j < |r| ensures r[j] == s[j % |s|] {
        if j >= |s| {
          ShiftQuotient(j - |s|, |s|);
        } else {
          SmallQuotient(j, |s|);
        }
      }
      r
  }

  /** `np.arange(lo, hi)`: the integers lo, lo + 1, ..., hi - 1. */
  function Arange(lo: int, hi: int): (r: seq<int>)
    ensures |r| == if lo <= hi then hi - lo else 0
    ensures forall j :: 0 <= j < |r| ==> r[j] == lo + j
    decreases hi - lo
  {
    if hi <= lo then [] else [lo] + Arange(lo + 1, hi)
  }

  /** Elementwise `a + b` of two arrays of one shape. */
  function Add(a: seq<int>, b: seq<int>): (r: seq<int>)
    requires |a| == |b|
    ensures |r| == |a|
    ensures forall j :: 0 <= j < |r| ==> r[j] == a[j] + b[j]
  {
    if a == [] then [] else [a[0] + b[0]] + Add(a[1..], b[1..])
  }

  lemma SmallQuotient(j: nat, n: nat)
    requires j < n
    ensures j / n == 0 && j % n == j
  {
    DivMod(j, n, 0, j);
  }

  lemma ShiftQuotient(j: nat, n: nat)
    requires n > 0
    ensures (j + n) / n == j / n + 1 && (j + n) % n == j % n
  {
    DivShift(j, n, 1);
  }
}
