/** An all-reduce that `split_work` cut into chunks, each over its own graph pair, means the
    same as the unsplit elementwise all-reduce. */
module ChunkedAllReduce {
  import opened Folds
  import opened Topology
  import opened AllReduce
  import opened AllReduceMeaning
  import opened AllReduceProgress
  import opened Chunking

  /** The same interval of every rank's buffer. */
  function Cut<E>(xs: seq<seq<E>>, a: nat, b: nat): (c: seq<seq<E>>)
    requires a <= b && forall v :: 0 <= v < |xs| ==> b <= |xs[v]|
    ensures |c| == |xs|
  {
    seq(|xs|, v requires 0 <= v < |xs| => xs[v][a..b])
  }

  lemma ZipCut<E>(op: (E, E) -> E, x: seq<E>, y: seq<E>, a: nat, b: nat)
    requires |x| == |y| && a <= b <= |x|
    ensures |Zip(op)(x, y)| == |x| && Zip(op)(x, y)[a..b] == Zip(op)(x[a..b], y[a..b])
  {
    forall i | 0 <= i < b - a ensures Zip(op)(x, y)[a..b][i] == Zip(op)(x[a..b], y[a..b])[i] {
      assert x[a..b][i] == x[a + i] && y[a..b][i] == y[a + i];
    }
  }

  /** Folding a slice of every buffer gives the slice of the fold. */
  lemma {:induction false} FoldOfCut<E>(op: (E, E) -> E, xs: seq<seq<E>>, count: nat, a: nat, b: nat)
    requires xs != [] && a <= b <= count && forall v :: 0 <= v < |xs| ==> |xs[v]| == count
    ensures |LeftFold(Zip(op), xs)| == count
    ensures LeftFold(Zip(op), Cut(xs, a, b)) == LeftFold(Zip(op), xs)[a..b]
    decreases |xs|
  {
    if |xs| > 1 {
      var rest, last := xs[..|xs| - 1], xs[|xs| - 1];
      FoldOfCut(op, rest, count, a, b);
      var c := Cut(xs, a, b);
      assert c[..|c| - 1] == Cut(rest, a, b) && c[|c| - 1] == last[a..b];
      ZipCut(op, LeftFold(Zip(op), rest), last, a, b);
    }
  }

  // ---------------------------------------------------------------- the pairs of a session

  /** The trees of the pairs that a session builds. */
  ghost function TreesOf(s: Strategy, n: nat): (ts: seq<Tree>)
    requires n > 0
    ensures |ts| == |PairsOf(s, n)| > 0
    ensures forall i :: 0 <= i < |ts| ==> ts[i].gp == PairsOf(s, n)[i] && ts[i].root < n
  {
    match s
    case Star => [StarTree(n, 0)]
    case Ring => seq(n, r requires 0 <= r < n => RingTree(n, r))
  }

  ghost predicate OnSession<T>(s: Strategy, p: Plan<T>) {
    p.n > 0 && p.trees == TreesOf(s, p.n) && p.Shape()
  }

  lemma SessionIsValid<T>(s: Strategy, p: Plan<T>)
    requires OnSession(s, p)
    ensures p.Valid() && if s.Star? then IsStar(p) else IsRing(p)
  {
    if s.Star? { StarIsValid(p); } else { RingIsValid(p); }
  }

  /** The rank that starts the chain of call `k`. */
  function Starter<T>(p: Plan<T>, k: nat): nat
    requires p.choice(k) < |p.trees| && p.Root(k) < p.n
  {
    Along(p.n, p.Root(k), 1)
  }

  lemma RingFirst<T>(p: Plan<T>, k: nat, u: nat)
    requires IsRing(p) && p.Valid() && u < p.n && u != p.Root(k)
    ensures p.RPrevs(k, u) == {} <==> u == Starter(p, k)
  {
    RingRow(p, k, u);
    PlaceBefore(p.n, p.Root(k), u);
  }

  lemma RingForwards<T>(p: Plan<T>, k: nat, u: nat)
    requires IsRing(p) && p.Valid() && u < p.n && u != p.Root(k)
    ensures p.n <= 2 ==> p.BNexts(k, u) == {}
    ensures p.n > 2 && u == Starter(p, k) ==> p.BNexts(k, u) != {}
  {
    if v :| v in p.BNexts(k, u) {
      assert p.IsPair(p.At(k)) && v < p.n;
      CallEnds(p, k, u, v);
      RingRow(p, k, v);
    }
    if p.n > 2 && u == Starter(p, k) {
      var v := Along(p.n, p.Root(k), 2);
      RingRow(p, k, v);
      CallEnds(p, k, u, v);
    }
  }

  /** Over the built pairs, no call has a rank that forwards without having received exactly
      on the star, with at most two ranks, or when the start of the chain works in place. */
  lemma BuiltPairsAreSafe<T>(s: Strategy, p: Plan<T>, k: nat)
    requires OnSession(s, p)
    ensures p.Valid()
    ensures ForwardersReceive(p, k) <==> s.Star? || p.n <= 2 || p.inPlace[Starter(p, k)]
  {
    SessionIsValid(s, p);
    if s.Star? {
      StarIsSafe(p, k);
    } else {
      forall u: nat | u < p.n && u != p.Root(k)
        ensures p.RPrevs(k, u) == {} <==> u == Starter(p, k)
        ensures p.n <= 2 ==> p.BNexts(k, u) == {}
      {
        RingFirst(p, k, u);
        RingForwards(p, k, u);
      }
      if p.n > 2 { RingForwards(p, k, Starter(p, k)); }
    }
  }

  // ---------------------------------------------------------------- all chunks of one call in one system

  ghost predicate InputOf<E>(xs: seq<seq<E>>, w: Workspace, k: nat, j: nat, round: seq<seq<E>>)
    requires 0 < k && forall v :: 0 <= v < |xs| ==> |xs[v]| == w.count
  {
    var a, b := Begin(w.count, k, j), Begin(w.count, k, j + 1);
    a <= b <= w.count && round == Cut(xs, a, b)
  }

  ghost predicate OutputOf<E>(w: Workspace, k: nat, j: nat, part: seq<E>, buffer: seq<E>)
    requires 0 < k
  {
    var a, b := Begin(w.count, k, j), Begin(w.count, k, j + 1);
    a <= b <= |buffer| && buffer[a..b] == part
  }

  /** `run_graph_pair_list_multi_thread`: every rank carries out its chunks one after the
      other, each under its own name and over the pair which that name selects, all over the
      same streams. */
  ghost predicate IsCall<E>(op: (E, E) -> E, xs: seq<seq<E>>, w: Workspace, k: nat, s: Strategy, p: Plan<seq<E>>)
    requires 0 < k && forall v :: 0 <= v < |xs| ==> |xs[v]| == w.count
  {
    && OnSession(s, p) && p.n == |xs| && p.op == Zip(op) && |p.xs| == k
    && forall j: nat :: j < k ==> p.choice(j) == Choice(Chunk(w, k, j).name, |p.trees|) && InputOf(xs, w, k, j, p.xs[j])
  }

  /** The buffer that what the chunks left at one rank makes up. */
  ghost predicate MakesUp<E>(w: Workspace, k: nat, outs: seq<seq<E>>, buffer: seq<E>)
    requires 0 < k
  {
    |outs| == k && |buffer| == w.count && forall j: nat :: j < k ==> OutputOf(w, k, j, outs[j], buffer)
  }

  /** No element is left to chance: the chunks determine the buffer. */
  lemma OneBuffer<E>(w: Workspace, k: nat, outs: seq<seq<E>>, a: seq<E>, b: seq<E>)
    requires 0 < k && MakesUp(w, k, outs, a) && MakesUp(w, k, outs, b)
    ensures a == b
  {
    forall x | 0 <= x < w.count ensures a[x] == b[x] {
      BeginLast(w.count, k);
      var j := PartOf(w.count, k, x, k);
      assert OutputOf(w, k, j, outs[j], a) && OutputOf(w, k, j, outs[j], b);
      var i := Begin(w.count, k, j);
      assert a[x] == a[i..Begin(w.count, k, j + 1)][x - i];
      assert b[x] == b[i..Begin(w.count, k, j + 1)][x - i];
    }
  }

  lemma CallNeverStuck<E>(op: (E, E) -> E, xs: seq<seq<E>>, w: Workspace, k: nat, s: Strategy,
                          p: Plan<seq<E>>, tr: seq<Sys<seq<E>>>, acts: seq<Action>)
    requires 0 < k && (forall v :: 0 <= v < |xs| ==> |xs[v]| == w.count) && IsCall(op, xs, w, k, s, p)
    requires Run(p, tr, acts)
    ensures Finished(p, tr[|acts|]) || exists a :: EnabledByName(p, tr[|acts|], a)
  {
    SessionIsValid(s, p);
    if !Finished(p, tr[|acts|]) {
      NeverStuck(p, tr, acts);
      var a :| Enabled(p, tr[|acts|], a);
      NamesDoNotMatter(p, tr, acts, |acts|, a);
    }
  }

  lemma ChunkResult<E(!new)>(op: (E, E) -> E, xs: seq<seq<E>>, w: Workspace, k: nat, s: Strategy,
                             p: Plan<seq<E>>, tr: seq<Sys<seq<E>>>, acts: seq<Action>, v: nat, j: nat)
    requires 0 < k && (forall v :: 0 <= v < |xs| ==> |xs[v]| == w.count) && IsCall(op, xs, w, k, s, p)
    requires Associative(op) && Commutative(op) && p.Valid() && j < k && ForwardersReceive(p, j)
    requires Run(p, tr, acts) && Finished(p, tr[|acts|]) && v < p.n
    ensures |LeftFold(Zip(op), xs)| == w.count && j < |tr[|acts|].ranks[v].outs|
    ensures OutputOf(w, k, j, tr[|acts|].ranks[v].outs[j], LeftFold(Zip(op), xs))
  {
    assert InputOf(xs, w, k, j, p.xs[j]);
    ZipLaws(op);
    AllReduceIsFold(p, tr, acts, |acts|, v, j);
    FoldOfCut(op, xs, w.count, Begin(w.count, k, j), Begin(w.count, k, j + 1));
  }

  /** A chunked call on the pairs a session builds. No run gets stuck, whatever pairs the
      chunks go over; and when no chunk has a rank that forwards without having received, a
      complete run leaves in every receive buffer what the unsplit call would. */
  lemma ChunkedIsUnsplit<E(!new)>(op: (E, E) -> E, xs: seq<seq<E>>, w: Workspace, limit: nat, k: nat, s: Strategy,
                                  p: Plan<seq<E>>, tr: seq<Sys<seq<E>>>, acts: seq<Action>, v: nat, buffer: seq<E>)
    requires w.count > 0 && w.esize > 0 && limit > 0 && k == Chunks(w.count, w.esize, limit)
    requires (forall v :: 0 <= v < |xs| ==> |xs[v]| == w.count) && IsCall(op, xs, w, k, s, p)
    requires Associative(op) && Commutative(op) && Run(p, tr, acts)
    ensures Finished(p, tr[|acts|]) || exists a :: EnabledByName(p, tr[|acts|], a)
    ensures Finished(p, tr[|acts|]) && v < p.n && MakesUp(w, k, tr[|acts|].ranks[v].outs, buffer)
            && (s.Star? || p.n <= 2 || forall j: nat :: j < k ==> p.inPlace[Starter(p, j)])
            ==> buffer == LeftFold(Zip(op), xs)
  {
    CallNeverStuck(op, xs, w, k, s, p, tr, acts);
    var outs := if v < p.n then tr[|acts|].ranks[v].outs else [];
    if Finished(p, tr[|acts|]) && v < p.n && MakesUp(w, k, outs, buffer)
       && (s.Star? || p.n <= 2 || forall j: nat :: j < k ==> p.inPlace[Starter(p, j)]) {
      FoldOfCut(op, xs, w.count, 0, 0);
      forall j: nat | j < k ensures OutputOf(w, k, j, outs[j], LeftFold(Zip(op), xs)) {
        BuiltPairsAreSafe(s, p, j);
        ChunkResult(op, xs, w, k, s, p, tr, acts, v, j);
      }
      OneBuffer(w, k, outs, buffer, LeftFold(Zip(op), xs));
    }
  }
}
