/** `graph_builder` and the star and ring graph pairs made with it. */
module Topology {
  import opened Folds
  import opened Graphs

  type Edge = (nat, nat)

  ghost function Succs(e: set<Edge>, i: nat): set<nat> { set x | x in e && x.0 == i && x.1 != i :: x.1 }
  ghost function Preds(e: set<Edge>, i: nat): set<nat> { set x | x in e && x.1 == i && x.0 != i :: x.0 }

  predicate Ascending(s: seq<nat>) {
    forall i, j :: 0 <= i < j < |s| ==> s[i] < s[j]
  }

  ghost predicate Lists(s: seq<nat>, members: set<nat>) {
    Ascending(s) && forall x :: x in s <==> x in members
  }

  lemma ListsAppend(s: seq<nat>, members: set<nat>, m: nat)
    requires Lists(s, members) && forall x :: x in members ==> x < m
    ensures Lists(s + [m], members + {m})
  {
    forall i | 0 <= i < |s| ensures s[i] < m { assert s[i] in s; }
  }

  lemma ListsTail(s: seq<nat>, members: set<nat>)
    requires Lists(s, members) && s != []
    ensures s[0] in members && Lists(s[1..], members - {s[0]})
    ensures forall x :: x in members ==> s[0] <= x
  {
    assert s[0] in s;
    forall x ensures x in s[1..] <==> x in members - {s[0]} {
      if x in s[1..] { assert x in s; }
    }
  }

  lemma ListsEmpty(s: seq<nat>, members: set<nat>)
    requires Lists(s, members)
    ensures s == [] <==> members == {}
  {
    if s != [] { assert s[0] in s; }
  }

  /** A set has only one ascending list. */
  lemma {:induction false} ListsUnique(a: seq<nat>, b: seq<nat>, members: set<nat>)
    requires Lists(a, members) && Lists(b, members)
    ensures a == b
    decreases |a|
  {
    ListsEmpty(a, members);
    ListsEmpty(b, members);
    if a != [] {
      ListsTail(a, members);
      ListsTail(b, members);
      assert a[0] == b[0];
      ListsUnique(a[1..], b[1..], members - {a[0]});
    }
  }

  lemma {:induction false} ListExists(s: set<nat>)
    ensures exists r :: Lists(r, s)
    decreases |s|
  {
    if s == {} {
      assert Lists([], s);
    } else {
      var m := Last(s);
      assert IsLast(m, s);
      ListExists(s - {m});
      var r :| Lists(r, s - {m});
      ListsAppend(r, s - {m}, m);
      assert s - {m} + {m} == s;
    }
  }

  /** The members of a set in ascending order. */
  ghost function Sorted(s: set<nat>): (r: seq<nat>)
    ensures Lists(r, s)
  {
    ListExists(s);
    var r :| Lists(r, s); r
  }

  /** The graph an edge set stands for: every list sorted and without duplicates, `reverse`
      swapping the directions, self loops kept apart from the lists. */
  ghost function GraphOf(n: nat, e: set<Edge>, reverse: bool, addSelfLoops: bool): Graph {
    Graph(seq(n, i requires 0 <= i < n => addSelfLoops || (i, i) in e),
          seq(n, i requires 0 <= i < n => Sorted(if reverse then Preds(e, i) else Succs(e, i))),
          seq(n, i requires 0 <= i < n => Sorted(if reverse then Succs(e, i) else Preds(e, i))))
  }

  class GraphBuilder {
    var selfLoop: seq<bool>
    var nexts: seq<set<nat>>
    var prevs: seq<set<nat>>

    ghost predicate Valid()
      reads this
    {
      && |selfLoop| == |nexts| == |prevs|
      && (forall i: nat :: i < |nexts| ==> i !in nexts[i] && forall j :: j in nexts[i] ==> j < |nexts|)
      && (forall i: nat :: i < |nexts| ==> forall j :: j in prevs[i] ==> j < |nexts|)
      && (forall i: nat, j: nat :: i < |nexts| && j < |nexts| ==> (j in nexts[i] <==> i in prevs[j]))
    }

    ghost function Edges(): set<Edge>
      requires Valid()
      reads this
    {
      set i: nat, j: nat | i < |nexts| && j < |nexts| && (if i == j then selfLoop[i] else j in nexts[i]) :: (i, j)
    }

    constructor (n: nat)
      ensures Valid() && Edges() == {} && |nexts| == n
    {
      selfLoop := seq(n, _ => false);
      nexts := seq(n, _ => {});
      prevs := seq(n, _ => {});
    }

    method EdgeExists(i: nat, j: nat) returns (b: bool)
      requires Valid() && i < |nexts| && j < |nexts|
      ensures b <==> (i, j) in Edges()
    {
      if i == j {
        return selfLoop[i];
      }
      return j in nexts[i];
    }

    method AddEdge(i: nat, j: nat) returns (added: bool)
      requires Valid() && i < |nexts| && j < |nexts|
      modifies this
      ensures Valid() && |nexts| == old(|nexts|)
      ensures Edges() == old(Edges()) + {(i, j)}
      ensures added <==> (i, j) !in old(Edges())
    {
      var exists_ := EdgeExists(i, j);
      if exists_ {
        assert Edges() == old(Edges()) + {(i, j)};
        return false;
      }
      if i == j {
        selfLoop := selfLoop[i := true];
      } else {
        nexts := nexts[i := nexts[i] + {j}];
        prevs := prevs[j := prevs[j] + {i}];
      }
      assert Edges() == old(Edges()) + {(i, j)};
      return true;
    }

    method Build(reverse: bool, addSelfLoops: bool) returns (g: Graph)
      requires Valid()
      ensures g == GraphOf(|nexts|, Edges(), reverse, addSelfLoops)
    {
      var n := |selfLoop|;
      var ns := SortAll(nexts);
      var ps := SortAll(prevs);
      forall i: nat | i < n ensures ns[i] == Sorted(Succs(Edges(), i)) && ps[i] == Sorted(Preds(Edges(), i)) {
        assert nexts[i] == Succs(Edges(), i) by {
          forall j | j in nexts[i] ensures j in Succs(Edges(), i) { assert (i, j) in Edges(); }
        }
        assert prevs[i] == Preds(Edges(), i) by {
          forall j | j in prevs[i] ensures j in Preds(Edges(), i) { assert (j, i) in Edges(); }
        }
      }
      if reverse {
        ns, ps := ps, ns;
      }
      var loops := if addSelfLoops then seq(n, _ => true) else selfLoop;
      g := Graph(loops, ns, ps);
      ghost var want := GraphOf(n, Edges(), reverse, addSelfLoops);
      forall i: nat | i < n ensures loops[i] == want.selfLoop[i] { assert (i, i) in Edges() <==> selfLoop[i]; }
      assert g.selfLoop == want.selfLoop && g.nexts == want.nexts && g.prevs == want.prevs;
    }
  }

  ghost predicate AllBelow(s: set<nat>, y: nat) {
    forall x :: x in s ==> x < y
  }

  lemma BelowGrows(s: set<nat>, rest: set<nat>, m: nat)
    requires IsLeast(m, rest) && forall y :: y in rest ==> AllBelow(s, y)
    ensures forall y :: y in rest - {m} ==> AllBelow(s + {m}, y)
  {
    forall y | y in rest - {m} ensures AllBelow(s + {m}, y) {
      assert AllBelow(s, y) && m < y;
    }
  }

  ghost predicate IsLeast(m: nat, s: set<nat>) {
    m in s && forall x :: x in s ==> m <= x
  }

  method SortSet(s: set<nat>) returns (v: seq<nat>)
    ensures v == Sorted(s)
  {
    v := [];
    var rest := s;
    ghost var done: set<nat> := {};
    while rest != {}
      invariant Lists(v, done) && done + rest == s
      invariant forall y :: y in rest ==> AllBelow(done, y)
      decreases |rest|
    {
      var m := Least(rest);
      assert AllBelow(done, m);
      ListsAppend(v, done, m);
      BelowGrows(done, rest, m);
      v, done, rest := v + [m], done + {m}, rest - {m};
    }
    assert done == s;
    ListsUnique(v, Sorted(s), s);
  }

  method Least(s: set<nat>) returns (m: nat)
    requires s != {}
    ensures IsLeast(m, s)
  {
    m :| m in s;
    var seen, rest := {m}, s - {m};
    while rest != {}
      invariant m in seen && seen + rest == s && forall x :: x in seen ==> m <= x
      decreases |rest|
    {
      var x :| x in rest;
      if x < m { m := x; }
      seen, rest := seen + {x}, rest - {x};
    }
  }

  method SortAll(sets: seq<set<nat>>) returns (v: seq<seq<nat>>)
    ensures |v| == |sets| && forall i :: 0 <= i < |v| ==> v[i] == Sorted(sets[i])
  {
    v := [];
    for i := 0 to |sets|
      invariant |v| == i && forall k :: 0 <= k < i ==> v[k] == Sorted(sets[k])
    {
      var x := SortSet(sets[i]);
      v := v + [x];
    }
  }

  /** Whatever edges were added, `nexts` and `prevs` hold exactly them, and building in
      reverse is exact edge reversal. */
  lemma BuildMeaning(n: nat, e: set<Edge>, reverse: bool, loops: bool, i: nat, j: nat)
    requires i < n && j < n
    ensures var g := GraphOf(n, e, reverse, loops);
            && (j in g.nexts[i] <==> i != j && (if reverse then (j, i) in e else (i, j) in e))
            && (i in g.prevs[j] <==> j in g.nexts[i])
            && Ascending(g.nexts[i]) && Ascending(g.prevs[i])
            && g.nexts == GraphOf(n, e, !reverse, loops).prevs
  {
    var g, h := GraphOf(n, e, reverse, loops), GraphOf(n, e, !reverse, loops);
    forall k: nat | k < n ensures g.nexts[k] == h.prevs[k] {}
    assert g.nexts == h.prevs;
  }

  // ---------------------------------------------------------------- star

  ghost function StarEdges(root: nat, k: nat): set<Edge> {
    set i: nat | i < k && i != root :: (root, i)
  }

  ghost function StarPair(n: nat, root: nat): GraphPair {
    GraphPair(GraphOf(n, StarEdges(root, n), true, true), GraphOf(n, StarEdges(root, n), false, false))
  }

  method StarBroadcastGraphBuilder(n: nat, root: nat) returns (g: GraphBuilder)
    requires root < n
    ensures fresh(g) && g.Valid() && |g.nexts| == n && g.Edges() == StarEdges(root, n)
  {
    g := new GraphBuilder(n);
    for i := 0 to n
      invariant fresh(g) && g.Valid() && |g.nexts| == n && g.Edges() == StarEdges(root, i)
    {
      if i != root {
        var _ := g.AddEdge(root, i);
      }
      assert StarEdges(root, i + 1) == StarEdges(root, i) + if i != root then {(root, i)} else {};
    }
  }

  method MakeStar(n: nat, root: nat) returns (gp: GraphPair)
    requires root < n
    ensures gp == StarPair(n, root)
  {
    var g := StarBroadcastGraphBuilder(n, root);
    var rg := g.Build(true, true);
    var bg := g.Build(false, false);
    gp := GraphPair(rg, bg);
  }

  // ---------------------------------------------------------------- ring

  /** From the rank `i` places along the ring from `r` to the next one. */
  function Hop(n: nat, r: nat, i: nat): Edge
    requires n > 0
  {
    ((r + i) % n, (r + i + 1) % n)
  }

  ghost function RingReduceEdges(n: nat, r: nat, k: nat): set<Edge>
    requires n > 0
  {
    set i: nat | 1 <= i < k :: Hop(n, r, i)
  }

  ghost function RingBcastEdges(n: nat, r: nat, k: nat): set<Edge>
    requires n > 0
  {
    set i: nat | 0 <= i < k - 1 :: Hop(n, r, i)
  }

  ghost function RingPair(n: nat, r: nat): GraphPair
    requires n > 0
  {
    GraphPair(GraphOf(n, RingReduceEdges(n, r, n), false, true), GraphOf(n, RingBcastEdges(n, r, n), false, false))
  }

  lemma RingGrows(n: nat, r: nat, i: nat)
    requires 1 <= i < n
    ensures RingReduceEdges(n, r, i + 1) == RingReduceEdges(n, r, i) + {Hop(n, r, i)}
    ensures RingBcastEdges(n, r, i + 1) == RingBcastEdges(n, r, i) + {Hop(n, r, i - 1)}
  {
  }

  method MakeCircularGraphPair(n: nat, r: nat) returns (gp: GraphPair)
    requires n > 0
    ensures gp == RingPair(n, r)
  {
    var rg := new GraphBuilder(n);
    var bg := new GraphBuilder(n);
    var i := 1;
    while i < n
      invariant 1 <= i <= n && rg != bg && fresh(rg) && fresh(bg)
      invariant rg.Valid() && |rg.nexts| == n && rg.Edges() == RingReduceEdges(n, r, i)
      invariant bg.Valid() && |bg.nexts| == n && bg.Edges() == RingBcastEdges(n, r, i)
    {
      var _ := rg.AddEdge((r + i) % n, (r + i + 1) % n);
      var _ := bg.AddEdge((r + i - 1) % n, (r + i) % n);
      RingGrows(n, r, i);
      i := i + 1;
    }
    var g0 := rg.Build(false, true);
    var g1 := bg.Build(false, false);
    gp := GraphPair(g0, g1);
  }

  datatype Strategy = Star | Ring

  ghost function PairsOf(s: Strategy, n: nat): seq<GraphPair>
    requires n > 0
  {
    match s
    case Star => [StarPair(n, 0)]
    case Ring => seq(n, r requires 0 <= r < n => RingPair(n, r))
  }

  method MakeGraphPairList(s: Strategy, n: nat) returns (pairs: seq<GraphPair>)
    requires n > 0
    ensures pairs == PairsOf(s, n)
    ensures s.Star? ==> pairs == [StarPair(n, 0)]
    ensures s.Ring? ==> |pairs| == n && forall r :: 0 <= r < n ==> pairs[r] == RingPair(n, r)
  {
    match s {
      case Star =>
        var gp := MakeStar(n, 0);
        pairs := [gp];
      case Ring =>
        pairs := [];
        for i := 0 to n
          invariant |pairs| == i && forall k :: 0 <= k < i ==> pairs[k] == RingPair(n, k)
        {
          var gp := MakeCircularGraphPair(n, i);
          pairs := pairs + [gp];
        }
    }
  }

  // ---------------------------------------------------------------- both are tree pairs

  lemma SortedNone()
    ensures Sorted({}) == []
  {
    ListsUnique(Sorted({}), [], {});
  }

  lemma SortedOne(x: nat)
    ensures Sorted({x}) == [x]
  {
    ListsUnique(Sorted({x}), [x], {x});
  }

  ghost function StarDepth(n: nat, root: nat): seq<nat> { seq(n, i requires 0 <= i < n => if i == root then 0 else 1) }

  /** For every size and root, star is a spanning in-tree and out-tree with that root. */
  lemma StarIsTreePair(n: nat, root: nat)
    requires root < n
    ensures TreePair(StarPair(n, root), n, root, StarDepth(n, root), StarDepth(n, root))
    ensures Elems(StarPair(n, root).bcast.nexts[root]) == Elems(StarPair(n, root).reduce.prevs[root])
    ensures forall v: nat :: v < n && v != root ==> StarPair(n, root).bcast.nexts[v] == []
    ensures forall v: nat :: v < n && v != root ==> StarPair(n, root).reduce.nexts[v] == [root]
  {
    var e := StarEdges(root, n);
    var gp := StarPair(n, root);
    forall v: nat | v < n
      ensures v == root ==> gp.reduce.nexts[v] == [] == gp.bcast.prevs[v]
      ensures v != root ==> gp.reduce.nexts[v] == [root] == gp.bcast.prevs[v] && gp.bcast.nexts[v] == []
    {
      if v == root {
        assert Preds(e, v) == {};
        SortedNone();
      } else {
        assert (root, v) in e;
        assert Preds(e, v) == {root} && Succs(e, v) == {};
        SortedOne(root);
        SortedNone();
      }
    }
    forall v: nat, c: nat | v < n && c < n
      ensures c in gp.reduce.prevs[v] <==> v in gp.reduce.nexts[c]
      ensures c in gp.bcast.nexts[v] <==> v in gp.bcast.prevs[c]
    {
      BuildMeaning(n, e, true, true, c, v);
      BuildMeaning(n, e, false, false, v, c);
    }
    forall v: nat, c: nat | v < n
      ensures c in gp.reduce.prevs[v] ==> c < n
      ensures c in gp.bcast.nexts[v] ==> c < n
    {
    }
  }

  /** The star, rank by rank: every other rank sends to the root and receives from it. */
  lemma StarLists(n: nat, root: nat, v: nat)
    requires root < n && v < n
    ensures var gp := StarPair(n, root);
            && gp.reduce.selfLoop[v] && !gp.bcast.selfLoop[v]
            && gp.reduce.nexts[v] == gp.bcast.prevs[v] == (if v == root then [] else [root])
            && gp.reduce.prevs[v] == gp.bcast.nexts[v] && Ascending(gp.bcast.nexts[v])
            && forall c: nat :: c in gp.bcast.nexts[v] <==> v == root && c < n && c != root
  {
    var e := StarEdges(root, n);
    var gp := StarPair(n, root);
    StarIsTreePair(n, root);
    forall c: nat ensures c in gp.bcast.nexts[v] <==> v == root && c < n && c != root {
      if v == root && c < n && c != root { assert (root, c) in e; }
    }
    if v == root { assert gp.bcast.prevs[v] == []; } else { assert gp.bcast.prevs[v] == gp.reduce.nexts[v]; }
  }

  /** Position of `v` on the ring, counted from `r`. */
  function Offset(n: nat, r: nat, v: nat): (k: nat)
    requires r < n && v < n
    ensures k < n
  {
    if v >= r then v - r else v + n - r
  }

  function Along(n: nat, r: nat, k: nat): (v: nat)
    requires r < n && k <= n
    ensures v < n
    ensures Offset(n, r, v) == if k == n then 0 else k
  {
    if r + k < n then r + k else r + k - n
  }

  lemma AlongMod(n: nat, r: nat, k: nat)
    requires r < n && k <= n
    ensures Along(n, r, k) == (r + k) % n
  {
    SmallMod(n, r + k);
  }

  lemma SmallMod(n: nat, x: nat)
    requires 0 < n && x < 2 * n
    ensures x % n == if x < n then x else x - n
  {
    if x >= n { assert x == n + (x - n); }
  }

  lemma RingReduceEdge(n: nat, r: nat, u: nat, v: nat)
    requires r < n && u < n && v < n
    ensures (u, v) in RingReduceEdges(n, r, n) <==> u != r && v == Along(n, r, Offset(n, r, u) + 1)
  {
    var k := Offset(n, r, u);
    assert Along(n, r, k) == u;
    if u != r && v == Along(n, r, k + 1) {
      AlongMod(n, r, k);
      AlongMod(n, r, k + 1);
      assert (u, v) == Hop(n, r, k);
    }
    if (u, v) in RingReduceEdges(n, r, n) {
      var i: nat :| 1 <= i < n && (u, v) == Hop(n, r, i);
      AlongMod(n, r, i);
      AlongMod(n, r, i + 1);
      assert u == Along(n, r, i) && v == Along(n, r, i + 1);
    }
  }

  lemma RingBcastEdge(n: nat, r: nat, u: nat, v: nat)
    requires r < n && u < n && v < n
    ensures (u, v) in RingBcastEdges(n, r, n) <==> v != r && Offset(n, r, v) == Offset(n, r, u) + 1
  {
    var k := Offset(n, r, v);
    assert Along(n, r, k) == v && Along(n, r, Offset(n, r, u)) == u;
    if v != r && k == Offset(n, r, u) + 1 {
      AlongMod(n, r, k - 1);
      AlongMod(n, r, k);
      assert (u, v) == Hop(n, r, k - 1);
    }
    if (u, v) in RingBcastEdges(n, r, n) {
      var i: nat :| 0 <= i < n - 1 && (u, v) == Hop(n, r, i);
      AlongMod(n, r, i);
      AlongMod(n, r, i + 1);
      assert u == Along(n, r, i) && v == Along(n, r, i + 1);
    }
  }

  ghost function RingReduceDepth(n: nat, r: nat): seq<nat>
    requires r < n
  {
    seq(n, v requires 0 <= v < n => if v == r then 0 else n - Offset(n, r, v))
  }

  ghost function RingBcastDepth(n: nat, r: nat): seq<nat>
    requires r < n
  {
    seq(n, v requires 0 <= v < n => Offset(n, r, v))
  }

  /** The rank `k` places along the ring, or nothing. */
  ghost function Stop(n: nat, r: nat, present: bool, k: int): seq<nat>
    requires r < n && (present ==> 0 <= k <= n)
  {
    if present then [Along(n, r, k)] else []
  }

  lemma RingReduceSuccs(n: nat, r: nat, v: nat)
    requires r < n && v < n
    ensures Succs(RingReduceEdges(n, r, n), v) == Elems(Stop(n, r, v != r, Offset(n, r, v) + 1))
  {
    var e := RingReduceEdges(n, r, n);
    var k := Offset(n, r, v);
    forall u: nat ensures u in Succs(e, v) <==> u in Elems(Stop(n, r, v != r, Offset(n, r, v) + 1)) {
      InRange(n, r, v, u);
      if u < n {
        RingReduceEdge(n, r, v, u);
        assert Along(n, r, Offset(n, r, u)) == u;
      }
    }
  }

  lemma RingReducePreds(n: nat, r: nat, v: nat)
    requires r < n && v < n
    ensures Preds(RingReduceEdges(n, r, n), v) == Elems(Stop(n, r, n > 1 &&
            Offset(n, r, v) != 1, if v == r then n - 1 else Offset(n, r, v) - 1))
  {
    var e := RingReduceEdges(n, r, n);
    var k := Offset(n, r, v);
    forall u: nat ensures u in Preds(e, v) <==>
        u in Elems(Stop(n, r, n > 1 && Offset(n, r, v) != 1, if v == r then n - 1 else Offset(n, r, v) - 1)) {
      InRange(n, r, u, v);
      if u < n {
        RingReduceEdge(n, r, u, v);
        assert Along(n, r, Offset(n, r, u)) == u;
      }
    }
  }

  lemma RingBcastSuccs(n: nat, r: nat, v: nat)
    requires r < n && v < n
    ensures Succs(RingBcastEdges(n, r, n), v) == Elems(Stop(n, r, Offset(n, r, v) + 1 < n, Offset(n, r, v) + 1))
  {
    var e := RingBcastEdges(n, r, n);
    var k := Offset(n, r, v);
    forall u: nat ensures u in Succs(e, v) <==> u in Elems(Stop(n, r, Offset(n, r, v) + 1 < n, Offset(n, r, v) + 1)) {
      InRange(n, r, v, u);
      if u < n {
        RingBcastEdge(n, r, v, u);
        assert Along(n, r, Offset(n, r, u)) == u;
      }
    }
  }

  lemma RingBcastPreds(n: nat, r: nat, v: nat)
    requires r < n && v < n
    ensures Preds(RingBcastEdges(n, r, n), v) == Elems(Stop(n, r, v != r, Offset(n, r, v) - 1))
  {
    var e := RingBcastEdges(n, r, n);
    var k := Offset(n, r, v);
    forall u: nat ensures u in Preds(e, v) <==> u in Elems(Stop(n, r, v != r, Offset(n, r, v) - 1)) {
      InRange(n, r, u, v);
      if u < n {
        RingBcastEdge(n, r, u, v);
        assert Along(n, r, Offset(n, r, u)) == u;
      }
    }
  }

  lemma SortedStop(n: nat, r: nat, present: bool, k: int, s: set<nat>)
    requires r < n && (present ==> 0 <= k <= n) && s == Elems(Stop(n, r, present, k))
    ensures Sorted(s) == Stop(n, r, present, k)
  {
    ListsUnique(Sorted(s), Stop(n, r, present, k), s);
  }

  /** Where each rank receives from and sends to: the reduce chain r+1, r+2, ..., r and
      the broadcast chain r, r+1, ..., r-1. */
  lemma RingNeighbours(n: nat, r: nat, v: nat)
    requires r < n && v < n
    ensures var gp := RingPair(n, r);
            var k := Offset(n, r, v);
            && gp.reduce.nexts[v] == Stop(n, r, v != r, k + 1)
            && gp.reduce.prevs[v] == Stop(n, r, n > 1 && k != 1, if v == r then n - 1 else k - 1)
            && gp.bcast.nexts[v] == Stop(n, r, k + 1 < n, k + 1)
            && gp.bcast.prevs[v] == Stop(n, r, v != r, k - 1)
  {
    var k := Offset(n, r, v);
    var re, be := RingReduceEdges(n, r, n), RingBcastEdges(n, r, n);
    RingReduceSuccs(n, r, v);
    RingReducePreds(n, r, v);
    RingBcastSuccs(n, r, v);
    RingBcastPreds(n, r, v);
    var gp := RingPair(n, r);
    assert gp.reduce.nexts[v] == Stop(n, r, v != r, k + 1) by {
      SortedStop(n, r, v != r, k + 1, Succs(re, v));
    }
    assert gp.reduce.prevs[v] == Stop(n, r, n > 1 && k != 1, if v == r then n - 1 else k - 1) by {
      SortedStop(n, r, n > 1 && k != 1, if v == r then n - 1 else k - 1, Preds(re, v));
    }
    assert gp.bcast.nexts[v] == Stop(n, r, k + 1 < n, k + 1) by {
      SortedStop(n, r, k + 1 < n, k + 1, Succs(be, v));
    }
    assert gp.bcast.prevs[v] == Stop(n, r, v != r, k - 1) by {
      SortedStop(n, r, v != r, k - 1, Preds(be, v));
    }
  }

  /** The ring, rank by rank: towards the root, from the rank after it, and away from the root, to
      the rank before it. */
  lemma RingLists(n: nat, r: nat, v: nat)
    requires r < n && v < n
    ensures var gp, next, prev := RingPair(n, r), (v + 1) % n, (v + n - 1) % n;
            && gp.reduce.selfLoop[v] && !gp.bcast.selfLoop[v]
            && gp.reduce.nexts[v] == (if v == r then [] else [next])
            && gp.reduce.prevs[v] == (if n == 1 || v == (r + 1) % n then [] else [prev])
            && gp.bcast.nexts[v] == (if next == r then [] else [next])
            && gp.bcast.prevs[v] == (if v == r then [] else [prev])
  {
    RingNeighbours(n, r, v);
    SmallMod(n, v + 1);
    SmallMod(n, v + n - 1);
    SmallMod(n, r + 1);
    RingIsTreePair(n, r);
    Neighbours(n, r, v);
  }

  lemma Neighbours(n: nat, r: nat, v: nat)
    requires r < n && v < n
    ensures var k, next, prev := Offset(n, r, v), if v + 1 < n then v + 1 else 0, if v > 0 then v - 1 else n - 1;
            && Along(n, r, k + 1) == next && (k + 1 < n <==> next != r)
            && (k > 0 ==> Along(n, r, k - 1) == prev) && (v == r ==> Along(n, r, n - 1) == prev)
            && (k == 1 <==> n > 1 && v == if r + 1 < n then r + 1 else 0)
  {
  }

  lemma InRange(n: nat, r: nat, u: nat, v: nat)
    requires n > 0
    ensures (u, v) in RingReduceEdges(n, r, n) || (u, v) in RingBcastEdges(n, r, n) ==> u < n && v < n
  {
  }

  lemma RingReduceRow(n: nat, r: nat, v: nat)
    requires r < n && v < n
    ensures var g := RingPair(n, r).reduce;
            |g.nexts| == n && (v == r ==> g.nexts[v] == []) && (v != r ==>
                ParentOk(n, v, g.nexts, RingReduceDepth(n, r)))
  {
    RingNeighbours(n, r, v);
    if v != r { RingReduceDepthFalls(n, r, v); }
  }

  lemma RingReduceDepthFalls(n: nat, r: nat, v: nat)
    requires r < n && v < n && v != r
    ensures RingReduceDepth(n, r)[Along(n, r, Offset(n, r, v) + 1)] < RingReduceDepth(n, r)[v]
  {
  }

  lemma RingReduceInRange(n: nat, r: nat, v: nat)
    requires r < n && v < n
    ensures |RingPair(n, r).reduce.prevs| == n
    ensures forall c :: c in RingPair(n, r).reduce.prevs[v] ==> c < n
  {
    RingNeighbours(n, r, v);
  }

  lemma RingReduceIsTree(n: nat, r: nat)
    requires r < n
    ensures IsTree(n, r, RingPair(n, r).reduce.nexts, RingPair(n, r).reduce.prevs, RingReduceDepth(n, r))
  {
    var g := RingPair(n, r).reduce;
    forall v: nat | v < n
      ensures v == r ==> g.nexts[v] == []
      ensures v != r ==> ParentOk(n, v, g.nexts, RingReduceDepth(n, r))
      ensures forall c :: c in g.prevs[v] ==> c < n
    {
      RingReduceRow(n, r, v);
      RingReduceInRange(n, r, v);
    }
    forall v: nat, c: nat | v < n && c < n ensures c in g.prevs[v] <==> v in g.nexts[c] {
      BuildMeaning(n, RingReduceEdges(n, r, n), false, true, c, v);
    }
  }

  lemma RingBcastIsTree(n: nat, r: nat)
    requires r < n
    ensures IsTree(n, r, RingPair(n, r).bcast.prevs, RingPair(n, r).bcast.nexts, RingBcastDepth(n, r))
  {
    var g := RingPair(n, r).bcast;
    forall v: nat | v < n
      ensures v == r ==> g.prevs[v] == []
      ensures v != r ==> ParentOk(n, v, g.prevs, RingBcastDepth(n, r))
      ensures forall c :: c in g.nexts[v] ==> c < n
    {
      RingNeighbours(n, r, v);
    }
    forall v: nat, c: nat | v < n && c < n ensures c in g.nexts[v] <==> v in g.prevs[c] {
      BuildMeaning(n, RingBcastEdges(n, r, n), false, false, v, c);
    }
  }

  /** For every size and root, the ring pair is a spanning in-tree and out-tree with that root. */
  lemma RingIsTreePair(n: nat, r: nat)
    requires r < n
    ensures TreePair(RingPair(n, r), n, r, RingReduceDepth(n, r), RingBcastDepth(n, r))
  {
    RingReduceIsTree(n, r);
    RingBcastIsTree(n, r);
    RingHasNoSelfEdge(n, r);
  }

  lemma RingHasNoSelfEdge(n: nat, r: nat)
    requires r < n
    ensures forall v: nat :: v < n ==> (v, v) !in RingBcastEdges(n, r, n)
  {
    forall v: nat | v < n ensures (v, v) !in RingBcastEdges(n, r, n) {
      RingBcastEdge(n, r, v, v);
    }
  }
}
