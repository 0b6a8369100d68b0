/** What an all-reduce with separate send and receive buffers delivers to each rank of a
    session: on the star the fold, on the ring the fold only where it arrives. */
module Sessions {
  import opened Folds
  import opened Topology
  import opened AllReduce
  import opened AllReduceMeaning
  import opened Chunking
  import opened ChunkedAllReduce

  /** `oneRoot` is the root that the name of a one-element call selects; `byteRoot` gives the
      root of the chunk that holds an element, for a call of so many bytes. */
  datatype Session = Session(n: nat, strategy: Strategy, oneRoot: nat, byteRoot: (nat, nat) -> nat)
  {
    ghost predicate Valid() {
      n >= 1 && oneRoot < n && forall size, i :: byteRoot(size, i) < n
    }
  }

  /** The rank that starts the chain of a ring. */
  function First(n: nat, root: nat): nat
    requires root < n
  {
    Along(n, root, 1)
  }

  /** The ranks that end with the fold. */
  predicate Sees(s: Session, root: nat, v: nat)
    requires root < s.n
  {
    s.strategy.Star? || s.n <= 2 || v == root || v == First(s.n, root)
  }

  /** Every rank ends with the fold, whatever the root. */
  predicate Trusty(s: Session) {
    s.strategy.Star? || s.n <= 2
  }

  lemma TrustyIsExact(s: Session, root: nat)
    requires root < s.n
    ensures Trusty(s) <==> forall v: nat :: v < s.n ==> Sees(s, root, v)
  {
    if !Trusty(s) {
      assert !Sees(s, root, Along(s.n, root, 2));
    }
  }

  /** The result of one call at rank `v`, element by element. */
  function Delivered<E>(s: Session, op: (E, E) -> E, xs: seq<seq<E>>, count: nat, root: nat -> nat, v: nat): (r: seq<E>)
    requires |xs| == s.n >= 1 && (forall i :: root(i) < s.n) && forall u :: 0 <= u < s.n ==> |xs[u]| == count
    ensures |r| == count
  {
    FoldOfCut(op, xs, count, 0, 0);
    seq(count, i requires 0 <= i < count =>
      if Sees(s, root(i), v) then LeftFold(Zip(op), xs)[i] else xs[First(s.n, root(i))][i])
  }

  // ---------------------------------------------------------------- the order of the chain does not matter

  lemma {:induction false} FoldConcat<T(!new)>(op: (T, T) -> T, a: seq<T>, b: seq<T>)
    requires Associative(op) && a != [] && b != []
    ensures LeftFold(op, a + b) == op(LeftFold(op, a), LeftFold(op, b))
    decreases |b|
  {
    var s := a + b;
    if |b| == 1 {
      assert s[..|s| - 1] == a;
    } else {
      var rest := b[..|b| - 1];
      assert s[..|s| - 1] == a + rest;
      FoldConcat(op, a, rest);
    }
  }

  lemma ChainOrderSplits<T>(x: seq<T>, r: nat)
    requires r < |x|
    ensures RingOrder(x, r) == x[r + 1..] + x[..r + 1]
  {
  }

  lemma TurnedFolds<T(!new)>(op: (T, T) -> T, x: seq<T>, i: nat)
    requires Associative(op) && Commutative(op) && i <= |x| && x != []
    ensures LeftFold(op, x[i..] + x[..i]) == LeftFold(op, x)
  {
    var a, b := x[..i], x[i..];
    if a == [] || b == [] {
      assert b + a == x;
    } else {
      assert a + b == x;
      FoldConcat(op, a, b);
      FoldConcat(op, b, a);
    }
  }

  /** The order of the chain does not matter to the fold. */
  lemma ChainOrderFolds<T(!new)>(op: (T, T) -> T, x: seq<T>, r: nat)
    requires Associative(op) && Commutative(op) && r < |x|
    ensures LeftFold(op, RingOrder(x, r)) == LeftFold(op, x)
  {
    ChainOrderSplits(x, r);
    TurnedFolds(op, x, r + 1);
  }

  // ---------------------------------------------------------------- what runs of the protocol deliver

  /** A plan of the session, with a receive buffer of its own at every rank. */
  ghost predicate SessionPlan<T>(s: Session, p: Plan<T>) {
    p.n == s.n && OnSession(s.strategy, p) && forall u :: 0 <= u < |p.inPlace| ==> !p.inPlace[u]
  }

  lemma PlanDelivers<T(!new)>(s: Session, p: Plan<T>, tr: seq<Sys<T>>, acts: seq<Action>, v: nat, j: nat)
    requires SessionPlan(s, p) && Associative(p.op) && Commutative(p.op) && p.Root(j) < s.n
    requires Run(p, tr, acts) && Finished(p, tr[|acts|]) && v < s.n && j < |p.xs|
    ensures |p.xs[j]| == s.n && j < |tr[|acts|].ranks[v].outs|
    ensures tr[|acts|].ranks[v].outs[j]
         == if Sees(s, p.Root(j), v) then LeftFold(p.op, p.xs[j]) else p.xs[j][First(s.n, p.Root(j))]
  {
    SessionIsValid(s.strategy, p);
    if s.strategy.Star? {
      StarAllReduce(p, tr, acts, |acts|, v, j);
    } else {
      RingAllReduce(p, tr, acts, |acts|, v, j);
      ChainOrderFolds(p.op, p.xs[j], p.Root(j));
      if s.n <= 2 { EveryoneSeesTwo(s.n, p.Root(j), v); }
    }
  }

  lemma EveryoneSeesTwo(n: nat, root: nat, v: nat)
    requires n <= 2 && root < n && v < n
    ensures v == root || v == First(n, root)
  {
  }

  lemma DeliveredSlice<E>(s: Session, op: (E, E) -> E, xs: seq<seq<E>>, count: nat, root: nat -> nat,
                          a: nat, b: nat, r: nat, v: nat)
    requires |xs| == s.n >= 1 && (forall i :: root(i) < s.n) && (forall u :: 0 <= u < s.n ==> |xs[u]| == count)
    requires r < s.n && a <= b <= count && forall i: nat :: a <= i < b ==> root(i) == r
    ensures |LeftFold(Zip(op), xs)| == count
    ensures Delivered(s, op, xs, count, root, v)[a..b]
         == if Sees(s, r, v) then LeftFold(Zip(op), xs)[a..b] else xs[First(s.n, r)][a..b]
  {
    FoldOfCut(op, xs, count, a, b);
    var d, fold, first := Delivered(s, op, xs, count, root, v), LeftFold(Zip(op), xs), xs[First(s.n, r)];
    forall i: nat | a <= i < b ensures d[i] == if Sees(s, r, v) then fold[i] else first[i] {
      assert root(i) == r;
    }
    assert d[a..b] == if Sees(s, r, v) then fold[a..b] else first[a..b];
  }

  /** `root` gives the root of the pair that the chunk of an element goes over. */
  ghost predicate RootsOf<T>(w: Workspace, k: nat, p: Plan<T>, root: nat -> nat)
    requires 0 < k && p.Shape()
  {
    forall j: nat, i: nat :: j < k && Begin(w.count, k, j) <= i < Begin(w.count, k, j + 1) ==> root(i) == p.Root(j)
  }

  lemma ChunkDelivers<E(!new)>(s: Session, op: (E, E) -> E, xs: seq<seq<E>>, w: Workspace, k: nat, root: nat -> nat,
                               p: Plan<seq<E>>, tr: seq<Sys<seq<E>>>, acts: seq<Action>, v: nat, j: nat)
    requires 0 < k && |xs| == s.n >= 1 && (forall u :: 0 <= u < |xs| ==> |xs[u]| == w.count)
    requires IsCall(op, xs, w, k, s.strategy, p) && SessionPlan(s, p)
    requires (forall i :: root(i) < s.n) && RootsOf(w, k, p, root) && Associative(op) && Commutative(op)
    requires Run(p, tr, acts) && Finished(p, tr[|acts|]) && v < s.n && j < k
    ensures j < |tr[|acts|].ranks[v].outs|
    ensures OutputOf(w, k, j, tr[|acts|].ranks[v].outs[j], Delivered(s, op, xs, w.count, root, v))
  {
    var a, b := Begin(w.count, k, j), Begin(w.count, k, j + 1);
    assert InputOf(xs, w, k, j, p.xs[j]);
    ZipLaws(op);
    PlanDelivers(s, p, tr, acts, v, j);
    DeliveredSlice(s, op, xs, w.count, root, a, b, p.Root(j), v);
    FoldOfCut(op, xs, w.count, a, b);
  }

  /** A complete run of a chunked call leaves at every rank exactly what `Delivered` says. */
  lemma CallDelivers<E(!new)>(s: Session, op: (E, E) -> E, xs: seq<seq<E>>, w: Workspace, k: nat, root: nat -> nat,
                              p: Plan<seq<E>>, tr: seq<Sys<seq<E>>>, acts: seq<Action>, v: nat, buffer: seq<E>)
    requires 0 < k && |xs| == s.n >= 1 && (forall u :: 0 <= u < |xs| ==> |xs[u]| == w.count)
    requires IsCall(op, xs, w, k, s.strategy, p) && SessionPlan(s, p)
    requires (forall i :: root(i) < s.n) && RootsOf(w, k, p, root) && Associative(op) && Commutative(op)
    requires Run(p, tr, acts) && Finished(p, tr[|acts|]) && v < s.n
    requires MakesUp(w, k, tr[|acts|].ranks[v].outs, buffer)
    ensures buffer == Delivered(s, op, xs, w.count, root, v)
  {
    forall j: nat | j < k
      ensures OutputOf(w, k, j, tr[|acts|].ranks[v].outs[j], Delivered(s, op, xs, w.count, root, v))
    {
      ChunkDelivers(s, op, xs, w, k, root, p, tr, acts, v, j);
    }
    OneBuffer(w, k, tr[|acts|].ranks[v].outs, buffer, Delivered(s, op, xs, w.count, root, v));
  }
}
