/** Counting, sums and sizes the other modules share. */
module Basics {

  function One(b: bool): nat { if b then 1 else 0 }

  ghost predicate Distinct<T>(s: seq<T>) {
    forall i, j :: 0 <= i < j < |s| ==> s[i] != s[j]
  }

  lemma SubsetSize<T>(a: set<T>, b: set<T>)
    requires a <= b
    ensures |a| <= |b|
  {
    assert b == a + (b - a);
  }

  lemma MulMono(a: nat, b: nat, k: nat)
    requires a <= b
    ensures a * k <= b * k
  {
  }

  function Sum(xs: seq<int>): int {
    if xs == [] then 0 else Sum(xs[..|xs| - 1]) + xs[|xs| - 1]
  }

  lemma {:induction false} SumUpdate(xs: seq<int>, i: nat, x: int)
    requires i < |xs|
    ensures Sum(xs[i := x]) == Sum(xs) - xs[i] + x
    decreases |xs|
  {
    var k := |xs| - 1;
    if i < k {
      assert xs[i := x][..k] == xs[..k][i := x];
      SumUpdate(xs[..k], i, x);
    } else {
      assert xs[i := x][..k] == xs[..k];
    }
  }

  lemma OneLess(ws: seq<int>, ws': seq<int>, i: nat)
    requires i < |ws| == |ws'| && forall v :: 0 <= v < |ws| ==> ws'[v] == ws[v] - One(v == i)
    ensures Sum(ws') == Sum(ws) - 1
  {
    assert ws' == ws[i := ws[i] - 1];
    SumUpdate(ws, i, ws[i] - 1);
  }

  lemma {:induction false} SumHead(xs: seq<int>)
    requires xs != []
    ensures Sum(xs) == xs[0] + Sum(xs[1..])
    decreases |xs|
  {
    var k := |xs| - 1;
    if k > 0 {
      SumHead(xs[..k]);
      assert xs[..k][1..] == xs[1..][..k - 1];
    }
  }

  lemma {:induction false} SumNonNegative(xs: seq<int>)
    requires forall i :: 0 <= i < |xs| ==> xs[i] >= 0
    ensures Sum(xs) >= 0
    decreases |xs|
  {
    if xs != [] { SumNonNegative(xs[..|xs| - 1]); }
  }

  lemma {:induction false} SumZero(xs: seq<int>)
    requires forall i :: 0 <= i < |xs| ==> xs[i] == 0
    ensures Sum(xs) == 0
    decreases |xs|
  {
    if xs != [] { SumZero(xs[..|xs| - 1]); }
  }

  /** What came in is what went out followed by what waits: kept by one more step. */
  lemma Regroup<T>(ins: seq<T>, outs: seq<T>, waiting: seq<T>, come: seq<T>, gone: seq<T>, rest: seq<T>)
    requires ins == outs + waiting && waiting + come == gone + rest
    ensures ins + come == (outs + gone) + rest
  {
    assert ins + come == outs + (waiting + come);
  }
}
