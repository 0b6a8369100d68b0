/** The outcomes of the all-reduce protocol are the all-reduce of the inputs: for any
    tree pair under an associative and commutative operator exactly when no rank
    forwards without having received, for star always, and for the ring as the chain
    order leaves them. */
module AllReduceMeaning {
  import opened Folds
  import opened Graphs
  import opened Topology
  import opened AllReduce
  import opened AllReduceProgress
  import opened AllReduceResults

  // ---------------------------------------------------------------- any tree pair

  /** `u` is in the reduce subtree of `c` in call `k`. */
  ghost predicate Under<T>(p: Plan<T>, k: nat, u: nat, c: nat)
    requires p.Valid() && u < p.n
  {
    assert p.IsPair(p.At(k));
    UnderIn(p.n, p.At(k), u, c)
  }

  ghost predicate UnderIn(n: nat, t: Tree, u: nat, c: nat)
    requires IsTree(n, t.root, t.gp.reduce.nexts, t.gp.reduce.prevs, t.rdepth) && u < n
  {
    Reaches(n, t.root, t.gp.reduce.nexts, t.gp.reduce.prevs, t.rdepth, u, c)
  }

  ghost predicate UnderSome<T>(p: Plan<T>, k: nat, u: nat, cs: set<nat>)
    requires p.Valid() && u < p.n
  {
    exists c :: c in cs && Under(p, k, u, c)
  }

  /** The ranks whose inputs `v` has combined once it has heard from `got`. */
  ghost function Covered<T>(p: Plan<T>, k: nat, v: nat, got: set<nat>): (s: set<nat>)
    requires p.Valid() && v < p.n
    ensures v in s && Within(s, p.n)
  {
    set u: nat | u < p.n && (u == v || UnderSome(p, k, u, got))
  }

  ghost function SubtreeOf<T>(p: Plan<T>, k: nat, c: nat): (s: set<nat>)
    requires p.Valid() && c < p.n
    ensures c in s && Within(s, p.n)
  {
    assert Under(p, k, c, c);
    set u: nat | u < p.n && Under(p, k, u, c)
  }

  ghost function FoldAccount<T>(p: Plan<T>, other: T): Account<T>
    requires p.Valid()
  {
    (k: nat, v: nat, got: set<nat>) =>
      if k < |p.xs| && v < p.n then FoldSet(p.op, p.xs[k], Covered(p, k, v, got)) else other
  }

  lemma UnderStep<T>(p: Plan<T>, k: nat, u: nat, c: nat)
    requires p.Valid() && u < p.n && c < p.n
    ensures Under(p, k, u, c) <==> u == c || UnderSome(p, k, u, p.RPrevs(k, c))
  {
    var t := p.At(k);
    assert p.IsPair(t);
    SubtreeStep(p.n, t.root, t.gp.reduce.nexts, t.gp.reduce.prevs, t.rdepth, u, c);
    if UnderSome(p, k, u, p.RPrevs(k, c)) {
      var b :| b in p.RPrevs(k, c) && Under(p, k, u, b);
      assert b in t.gp.reduce.prevs[c];
    }
    if b :| b in t.gp.reduce.prevs[c] && UnderIn(p.n, t, u, b) {
      assert b in p.RPrevs(k, c) && Under(p, k, u, b);
    }
  }

  lemma CoveredAll<T>(p: Plan<T>, k: nat, c: nat)
    requires p.Valid() && c < p.n
    ensures Covered(p, k, c, p.RPrevs(k, c)) == SubtreeOf(p, k, c)
  {
    forall u: nat | u < p.n ensures u in Covered(p, k, c, p.RPrevs(k, c)) <==> u in SubtreeOf(p, k, c) {
      UnderStep(p, k, u, c);
    }
  }

  lemma ChildIsNotParent<T>(p: Plan<T>, k: nat, v: nat, c: nat)
    requires p.Valid() && v < p.n && c in p.RPrevs(k, v)
    ensures c < p.n && c != v
  {
    PeerInRange(p, k, v, c);
    CallEnds(p, k, c, v);
  }

  lemma Apart<T>(p: Plan<T>, k: nat, u: nat, c: nat, b: nat, v: nat)
    requires p.Valid() && u < p.n && v < p.n && b < p.n && c in p.RPrevs(k, v) && (b == v || b in p.RPrevs(k, v))
    requires b != c && Under(p, k, u, c)
    ensures if b == v then u != v else !Under(p, k, u, b)
  {
    var t := p.At(k);
    assert p.IsPair(t);
    SiblingsDisjoint(p.n, t.root, t.gp.reduce.nexts, t.gp.reduce.prevs, t.rdepth, u, c, b, v);
  }

  lemma CoveredGrows<T>(p: Plan<T>, k: nat, v: nat, c: nat, got: set<nat>)
    requires p.Valid() && v < p.n && c in p.RPrevs(k, v) && c !in got && got <= p.RPrevs(k, v)
    ensures c < p.n && SubtreeOf(p, k, c) !! Covered(p, k, v, got)
    ensures Covered(p, k, v, got + {c}) == SubtreeOf(p, k, c) + Covered(p, k, v, got)
  {
    ChildIsNotParent(p, k, v, c);
    forall u: nat | u in SubtreeOf(p, k, c) ensures u !in Covered(p, k, v, got) {
      Apart(p, k, u, c, v, v);
      forall b | b in got ensures !Under(p, k, u, b) {
        ChildIsNotParent(p, k, v, b);
        Apart(p, k, u, c, b, v);
      }
      assert !UnderSome(p, k, u, got);
    }
    forall u: nat | u < p.n ensures UnderSome(p, k, u, got + {c}) <==> Under(p, k, u, c) || UnderSome(p, k, u, got) {
      if Under(p, k, u, c) { assert c in got + {c}; }
      if UnderSome(p, k, u, got) {
        var b :| b in got && Under(p, k, u, b);
        assert b in got + {c};
      }
    }
  }

  /** For an associative and commutative operator every arrival order gives the fold of
      the covered inputs. */
  lemma FoldExplains<T(!new)>(p: Plan<T>, other: T)
    requires p.Valid() && Associative(p.op) && Commutative(p.op)
    ensures Explains(p, FoldAccount(p, other))
  {
    var acc := FoldAccount(p, other);
    forall k: nat, v: nat | k < |p.xs| && v < p.n ensures acc(k, v, {}) == p.xs[k][v] {
      assert Covered(p, k, v, {}) == {v};
      assert IsLast(v, {v}) && Last({v}) == v;
    }
    forall k: nat, v: nat, c: nat, got: set<nat>
      | k < |p.xs| && v < p.n && c in p.RPrevs(k, v) && c !in got && got <= p.RPrevs(k, v)
      ensures AddsOne(p, acc, k, v, c, got)
    {
      CoveredGrows(p, k, v, c, got);
      CoveredAll(p, k, c);
      FoldUnion(p.op, p.xs[k], SubtreeOf(p, k, c), Covered(p, k, v, got));
    }
  }

  lemma RootTotal<T(!new)>(p: Plan<T>, other: T, k: nat)
    requires p.Valid() && k < |p.xs|
    ensures p.Root(k) < p.n
    ensures Contribution(p, FoldAccount(p, other), k, p.Root(k)) == LeftFold(p.op, p.xs[k])
  {
    var t := p.At(k);
    assert p.IsPair(t);
    CoveredAll(p, k, t.root);
    forall u: nat | u < p.n ensures u in SubtreeOf(p, k, t.root) {
      RootReached(p.n, t.root, t.gp.reduce.nexts, t.gp.reduce.prevs, t.rdepth, u);
    }
    assert SubtreeOf(p, k, t.root) == Ranks(p.n);
    FoldAllRanks(p.op, p.xs[k], p.n);
    assert p.xs[k][..p.n] == p.xs[k];
  }

  /** In call `k`, no rank below the root forwards a broadcast without having received a
      reduce message, unless its send and receive buffers are one. */
  ghost predicate ForwardersReceive<T>(p: Plan<T>, k: nat)
    requires p.Valid()
  {
    forall u: nat :: u < p.n && u != p.Root(k) && p.BNexts(k, u) != {} ==> p.RPrevs(k, u) != {} || p.inPlace[u]
  }

  lemma RootReceives<T>(p: Plan<T>, k: nat, v: nat)
    requires p.Valid() && v < p.n && v != p.Root(k)
    ensures p.Root(k) < p.n && p.RPrevs(k, p.Root(k)) != {}
  {
    var t := p.At(k);
    assert p.IsPair(t);
    var c := RootHasChild(p.n, t.root, t.gp.reduce.nexts, t.gp.reduce.prevs, t.rdepth);
    assert c in p.RPrevs(k, t.root);
  }

  lemma {:induction false} EveryoneGetsTheTotal<T>(p: Plan<T>, acc: Account<T>, k: nat, v: nat)
    requires p.Valid() && ForwardersReceive(p, k) && k < |p.xs| && v < p.n && p.Root(k) < p.n
    ensures Outcome(p, acc, k, v) == Contribution(p, acc, k, p.Root(k))
    decreases p.BDepth(k, v)
  {
    if v != p.Root(k) {
      var u := p.BParent(k, v);
      EveryoneGetsTheTotal(p, acc, k, u);
      if u == p.Root(k) { RootReceives(p, k, v); }
    }
  }

  /** All-reduce over any tree pairs: whatever the interleaving of all the ranks, each call
      that has returned left the fold of all the inputs of that call. */
  lemma AllReduceIsFold<T(!new)>(p: Plan<T>, tr: seq<Sys<T>>, acts: seq<Action>, i: nat, v: nat, k: nat)
    requires p.Valid() && Run(p, tr, acts) && i < |tr| && v < p.n && k < tr[i].ranks[v].round
    requires Associative(p.op) && Commutative(p.op) && ForwardersReceive(p, k)
    ensures k < |p.xs| && k < |tr[i].ranks[v].outs|
    ensures tr[i].ranks[v].outs[k] == LeftFold(p.op, p.xs[k])
  {
    var other := tr[0].ranks[0].recv;
    FoldExplains(p, other);
    ResultsAreDetermined(p, FoldAccount(p, other), tr, acts, i, v, k);
    RootTotal(p, other, k);
    EveryoneGetsTheTotal(p, FoldAccount(p, other), k, v);
  }

  // ---------------------------------------------------------------- the side condition is exact

  lemma {:induction false} FoldOnes(op: (int, int) -> int, xs: seq<int>)
    requires xs != [] && (forall x, y :: op(x, y) == x + y) && forall i :: 0 <= i < |xs| ==> xs[i] == 1
    ensures LeftFold(op, xs) == |xs|
  {
    if |xs| > 1 { FoldOnes(op, xs[..|xs| - 1]); }
  }

  lemma SumLaws(op: (int, int) -> int)
    requires forall x, y :: op(x, y) == x + y
    ensures Associative(op) && Commutative(op)
  {
    forall x, y, z ensures op(op(x, y), z) == op(x, op(y, z)) {
      assert op(op(x, y), z) == x + y + z == op(x, op(y, z));
    }
    forall x, y ensures op(x, y) == op(y, x) {
      assert op(x, y) == x + y == op(y, x);
    }
  }

  lemma CompleteOutcomes<T>(p: Plan<T>, acc: Account<T>, tr: seq<Sys<T>>, acts: seq<Action>, k: nat, v: nat)
    requires p.Valid() && Explains(p, acc) && Run(p, tr, acts) && Finished(p, tr[|acts|]) && k < |p.xs| && v < p.n
    ensures |tr[|acts|].ranks[v].outs| == |p.xs| && tr[|acts|].ranks[v].outs[k] == Outcome(p, acc, k, v)
  {
    ResultsAreDetermined(p, acc, tr, acts, |acts|, v, k);
    RunData(p, acc, tr, acts, |acts|);
    assert RankOk(p, v, tr[|acts|].ranks[v]);
  }

  lemma BadForwarder<T>(p: Plan<T>, acc: Account<T>, k: nat) returns (u: nat, v: nat)
    requires p.Valid() && !ForwardersReceive(p, k) && k < |p.xs|
    ensures u < p.n && v < p.n && p.n > 1 && Outcome(p, acc, k, v) == p.xs[k][u]
  {
    u :| u < p.n && u != p.Root(k) && p.BNexts(k, u) != {} && p.RPrevs(k, u) == {} && !p.inPlace[u];
    v :| v in p.BNexts(k, u);
    assert p.IsPair(p.At(k)) && v in p.At(k).gp.bcast.nexts[u] && v < p.n;
    CallEnds(p, k, u, v);
    assert v != p.Root(k) && p.BParent(k, v) == u;
  }

  /** Summing ones, a complete run leaves the number of ranks everywhere if and only if
      every forwarding rank receives in the reduce stage or works in place. */
  lemma SideConditionIsExact(p: Plan<int>, tr: seq<Sys<int>>, acts: seq<Action>, k: nat)
    requires p.Valid() && Run(p, tr, acts) && Finished(p, tr[|acts|]) && k < |p.xs|
    requires forall x, y :: p.op(x, y) == x + y
    requires forall v :: 0 <= v < p.n ==> p.xs[k][v] == 1
    ensures ForwardersReceive(p, k) <==>
            forall v: nat :: v < p.n ==> |tr[|acts|].ranks[v].outs| == |p.xs| && tr[|acts|].ranks[v].outs[k] == p.n
  {
    var acc := FoldAccount(p, 0);
    SumLaws(p.op);
    FoldExplains(p, 0);
    RootTotal(p, 0, k);
    FoldOnes(p.op, p.xs[k]);
    if ForwardersReceive(p, k) {
      forall v: nat | v < p.n ensures |tr[|acts|].ranks[v].outs| == |p.xs| && tr[|acts|].ranks[v].outs[k] == p.n {
        CompleteOutcomes(p, acc, tr, acts, k, v);
        EveryoneGetsTheTotal(p, acc, k, v);
      }
    } else {
      var u, v := BadForwarder(p, acc, k);
      CompleteOutcomes(p, acc, tr, acts, k, v);
    }
  }

  // ---------------------------------------------------------------- star

  ghost function StarTree(n: nat, root: nat): Tree {
    Tree(StarPair(n, root), root, StarDepth(n, root), StarDepth(n, root))
  }

  /** Every call goes over a star, each with any root. */
  ghost predicate IsStar<T>(p: Plan<T>) {
    && p.Shape() && p.trees != []
    && forall i: nat :: i < |p.trees| ==> p.trees[i].root < p.n && p.trees[i] == StarTree(p.n, p.trees[i].root)
  }

  lemma StarIsValid<T>(p: Plan<T>)
    requires IsStar(p)
    ensures p.Valid()
  {
    forall i: nat | i < |p.trees| ensures p.IsPair(p.trees[i]) { StarIsTreePair(p.n, p.trees[i].root); }
  }

  lemma StarIsSafe<T>(p: Plan<T>, k: nat)
    requires IsStar(p)
    ensures p.Valid() && ForwardersReceive(p, k)
  {
    StarIsValid(p);
    StarIsTreePair(p.n, p.Root(k));
  }

  /** Star all-reduce: for every size, any number of calls and every interleaving, the fold. */
  lemma StarAllReduce<T(!new)>(p: Plan<T>, tr: seq<Sys<T>>, acts: seq<Action>, i: nat, v: nat, k: nat)
    requires IsStar(p) && Run(p, tr, acts) && i < |tr| && v < p.n && k < tr[i].ranks[v].round
    requires Associative(p.op) && Commutative(p.op)
    ensures k < |p.xs| && k < |tr[i].ranks[v].outs|
    ensures tr[i].ranks[v].outs[k] == LeftFold(p.op, p.xs[k])
  {
    StarIsSafe(p, k);
    AllReduceIsFold(p, tr, acts, i, v, k);
  }

  // ---------------------------------------------------------------- ring

  ghost function RingTree(n: nat, root: nat): Tree
    requires root < n
  {
    Tree(RingPair(n, root), root, RingReduceDepth(n, root), RingBcastDepth(n, root))
  }

  /** Every call goes over a ring, each with any root. */
  ghost predicate IsRing<T>(p: Plan<T>) {
    && p.Shape() && p.trees != []
    && forall i: nat :: i < |p.trees| ==> p.trees[i].root < p.n && p.trees[i] == RingTree(p.n, p.trees[i].root)
  }

  lemma RingIsValid<T>(p: Plan<T>)
    requires IsRing(p)
    ensures p.Valid()
  {
    forall i: nat | i < |p.trees| ensures p.IsPair(p.trees[i]) { RingIsTreePair(p.n, p.trees[i].root); }
  }

  /** The inputs in chain order: x[r+1], x[r+2], ..., x[r]. */
  function RingOrder<T>(x: seq<T>, r: nat): seq<T>
    requires r < |x|
  {
    seq(|x|, i requires 0 <= i < |x| => x[Along(|x|, r, i + 1)])
  }

  /** Place of rank `v` in that order, counted from one. */
  function Place(n: nat, r: nat, v: nat): (j: nat)
    requires r < n && v < n
    ensures 1 <= j <= n
  {
    if v == r then n else Offset(n, r, v)
  }

  ghost function RingAccount<T>(p: Plan<T>, other: T): Account<T>
    requires IsRing(p)
  {
    (k: nat, v: nat, got: set<nat>) =>
      if !(k < |p.xs| && v < p.n) then other
      else if got == {} then p.xs[k][v]
      else LeftFold(p.op, RingOrder(p.xs[k], p.Root(k))[..Place(p.n, p.Root(k), v)])
  }

  /** The two chains of call `k` at one rank. */
  ghost predicate ChainRow<T>(p: Plan<T>, k: nat, v: nat)
    requires p.Shape() && p.Root(k) < p.n && v < p.n
  {
    var r := p.Root(k);
    var j := Place(p.n, r, v);
    && p.RPrevs(k, v) == (if j == 1 then {} else {Along(p.n, r, j - 1)})
    && p.BPrevs(k, v) == (if v == r then [] else [Along(p.n, r, Offset(p.n, r, v) - 1)])
  }

  lemma RingSources(n: nat, r: nat, v: nat)
    requires r < n && v < n
    ensures |RingPair(n, r).reduce.prevs| == |RingPair(n, r).bcast.prevs| == n
    ensures var j := Place(n, r, v);
            Elems(RingPair(n, r).reduce.prevs[v]) == if j == 1 then {} else {Along(n, r, j - 1)}
    ensures RingPair(n, r).bcast.prevs[v] == if v == r then [] else [Along(n, r, Offset(n, r, v) - 1)]
  {
    RingNeighbours(n, r, v);
  }

  lemma RingRow<T>(p: Plan<T>, k: nat, v: nat)
    requires IsRing(p) && v < p.n
    ensures ChainRow(p, k, v)
  {
    RingSources(p.n, p.Root(k), v);
  }

  lemma PlaceBefore(n: nat, r: nat, v: nat)
    requires r < n && v < n
    ensures Along(n, r, Place(n, r, v)) == v
    ensures Place(n, r, v) > 1 ==> Place(n, r, Along(n, r, Place(n, r, v) - 1)) == Place(n, r, v) - 1
  {
  }

  lemma RingContribution<T>(p: Plan<T>, other: T, k: nat, v: nat)
    requires IsRing(p) && p.Valid() && k < |p.xs| && v < p.n
    ensures var r := p.Root(k);
            Contribution(p, RingAccount(p, other), k, v) == LeftFold(p.op, RingOrder(p.xs[k], r)[..Place(p.n, r, v)])
  {
    var r := p.Root(k);
    RingRow(p, k, v);
    PlaceBefore(p.n, r, v);
    if Place(p.n, r, v) == 1 {
      assert RingOrder(p.xs[k], r)[..1] == [p.xs[k][v]];
    }
  }

  lemma RingAccountIs<T>(p: Plan<T>, other: T, k: nat, v: nat, c: nat)
    requires IsRing(p) && k < |p.xs| && v < p.n
    ensures var x, r := p.xs[k], p.Root(k);
            RingAccount(p, other)(k, v, {} + {c}) == LeftFold(p.op, RingOrder(x, r)[..Place(p.n, r, v)])
    ensures RingAccount(p, other)(k, v, {}) == p.xs[k][v]
  {
    assert {} + {c} == {c} && c in {c};
  }

  lemma RingAddsOne<T>(p: Plan<T>, other: T, k: nat, v: nat, c: nat)
    requires IsRing(p) && p.Valid() && k < |p.xs| && v < p.n && c in p.RPrevs(k, v)
    ensures AddsOne(p, RingAccount(p, other), k, v, c, {})
  {
    var r := p.Root(k);
    PreviousPlace(p, k, v, c);
    RingAccountIs(p, other, k, v, c);
    RingContribution(p, other, k, c);
    LastOfOrder(p.op, p.xs[k], r, v);
  }

  lemma PreviousPlace<T>(p: Plan<T>, k: nat, v: nat, c: nat)
    requires IsRing(p) && v < p.n && c in p.RPrevs(k, v)
    ensures c < p.n && Place(p.n, p.Root(k), v) > 1
    ensures Place(p.n, p.Root(k), c) == Place(p.n, p.Root(k), v) - 1
  {
    RingRow(p, k, v);
    PlaceBefore(p.n, p.Root(k), v);
  }

  lemma LastOfOrder<T>(op: (T, T) -> T, x: seq<T>, r: nat, v: nat)
    requires r < |x| && v < |x| && Place(|x|, r, v) > 1
    ensures var j := Place(|x|, r, v);
            LeftFold(op, RingOrder(x, r)[..j]) == op(LeftFold(op, RingOrder(x, r)[..j - 1]), x[v])
  {
    PlaceBefore(|x|, r, v);
    var j := Place(|x|, r, v);
    var order := RingOrder(x, r);
    assert order[j - 1] == x[v];
    assert order[..j][..j - 1] == order[..j - 1];
  }

  lemma RingExplains<T>(p: Plan<T>, other: T)
    requires IsRing(p) && p.Valid()
    ensures Explains(p, RingAccount(p, other))
  {
    forall k: nat, v: nat, c: nat, got: set<nat>
      | k < |p.xs| && v < p.n && c in p.RPrevs(k, v) && c !in got && got <= p.RPrevs(k, v)
      ensures AddsOne(p, RingAccount(p, other), k, v, c, got)
    {
      RingRow(p, k, v);
      assert got == {};
      RingAddsOne(p, other, k, v, c);
    }
  }

  /** Where the ring leaves the total: everywhere if the first rank of the chain works in
      place; otherwise only at the root and at that rank, which then sends its own input
      on to all the others. */
  lemma {:induction false} RingOutcome<T>(p: Plan<T>, other: T, k: nat, v: nat)
    requires IsRing(p) && p.Valid() && k < |p.xs| && v < p.n
    ensures var r, first := p.Root(k), Along(p.n, p.Root(k), 1);
            Outcome(p, RingAccount(p, other), k, v) ==
            if v == r || v == first || p.inPlace[first]
            then LeftFold(p.op, RingOrder(p.xs[k], r))
            else p.xs[k][first]
    decreases Offset(p.n, p.Root(k), v)
  {
    var r := p.Root(k);
    if v == r {
      RingContribution(p, other, k, v);
      assert RingOrder(p.xs[k], r)[..p.n] == RingOrder(p.xs[k], r);
    } else {
      RingStep(p, k, v);
      RingOutcome(p, other, k, p.BParent(k, v));
    }
  }

  /** The rank before `v` on the broadcast chain, and whether it has received. */
  lemma RingStep<T>(p: Plan<T>, k: nat, v: nat)
    requires IsRing(p) && p.Valid() && v < p.n && v != p.Root(k)
    ensures var r, u := p.Root(k), p.BParent(k, v);
            && Offset(p.n, r, u) == Offset(p.n, r, v) - 1
            && (u == r <==> v == Along(p.n, r, 1))
            && (p.RPrevs(k, u) == {} <==> u == Along(p.n, r, 1))
  {
    var r, u := p.Root(k), p.BParent(k, v);
    RingRow(p, k, v);
    RingRow(p, k, u);
    assert u == Along(p.n, r, Offset(p.n, r, v) - 1);
    PlaceBefore(p.n, r, v);
    PlaceBefore(p.n, r, u);
  }

  /** Ring all-reduce over any interleaving, any operator, and any root in each call. */
  lemma RingAllReduce<T>(p: Plan<T>, tr: seq<Sys<T>>, acts: seq<Action>, i: nat, v: nat, k: nat)
    requires IsRing(p) && Run(p, tr, acts) && i < |tr| && v < p.n && k < tr[i].ranks[v].round
    ensures k < |p.xs| && k < |tr[i].ranks[v].outs|
    ensures var r, first := p.Root(k), Along(p.n, p.Root(k), 1);
            tr[i].ranks[v].outs[k] ==
            if v == r || v == first || p.inPlace[first]
            then LeftFold(p.op, RingOrder(p.xs[k], r))
            else p.xs[k][first]
  {
    RingIsValid(p);
    var other := tr[0].ranks[0].recv;
    RingExplains(p, other);
    ResultsAreDetermined(p, RingAccount(p, other), tr, acts, i, v, k);
    RingOutcome(p, other, k, v);
  }
}
