/** Termination of the asynchronous all-reduce, its deadlocks, and the exact number of workers
    it needs on the star and on the ring. */
module AsyncBounds {
  import opened Basics
  import opened Folds
  import opened Graphs
  import opened Topology
  import opened AsyncAllReduce
  import opened AsyncPools

  // ---------------------------------------------------------------- termination

  ghost predicate Mine(p: Plan, v: nat, it: Item)
    requires p.Valid() && v < p.n
  {
    (it.Chunk? && it.j < |p.gps|) || IsLeaf(p, v, it)
  }

  ghost function Mines(p: Plan, v: nat): (s: set<Item>)
    requires p.Valid() && v < p.n
    ensures forall it: Item :: it in s <==> Mine(p, v, it)
  {
    LeavesInRange(p, v);
    ChunkItems(|p.gps|) + Receives(p, v)
    + (set j: nat, u: nat | j < |p.gps| && u < p.n && IsLeaf(p, v, SendReduce(j, u)) :: SendReduce(j, u))
    + (set j: nat, u: nat | j < |p.gps| && u < p.n && IsLeaf(p, v, SendBcast(j, u)) :: SendBcast(j, u))
  }

  lemma LeavesInRange(p: Plan, v: nat)
    requires p.Valid() && v < p.n
    ensures forall it: Item :: IsLeaf(p, v, it) ==> !it.Chunk? && it.peer < p.n
  {
    forall it: Item | IsLeaf(p, v, it) ensures !it.Chunk? && it.peer < p.n {
      var j := it.j;
      assert TreePair(p.gps[j], p.n, p.roots[j], p.rdepth[j], p.bdepth[j]);
      if it.SendReduce? { assert v != p.roots[j] && ParentOk(p.n, v, p.gps[j].reduce.nexts, p.rdepth[j]); }
    }
  }

  ghost function ToCome(p: Plan, v: nat, r: Rank): set<Item>
    requires p.Valid() && v < p.n
  {
    set it | it in Mines(p, v) && !Has(r, it)
  }

  /** Actions still to come at one rank. */
  ghost function Work(p: Plan, v: nat, r: Rank): nat
    requires p.Valid() && v < p.n
  {
    3 * |ToCome(p, v, r)| + 2 * |r.queue| + |r.running|
  }

  lemma OneFewer(p: Plan, v: nat, r: Rank, r': Rank, it: Item)
    requires p.Valid() && v < p.n && Mine(p, v, it) && !Has(r, it)
    requires forall x: Item :: Has(r', x) <==> Has(r, x) || x == it
    ensures |ToCome(p, v, r')| == |ToCome(p, v, r)| - 1
  {
    assert ToCome(p, v, r') == ToCome(p, v, r) - {it} && it in ToCome(p, v, r);
  }

  lemma NoneFewer(p: Plan, v: nat, r: Rank, r': Rank)
    requires p.Valid() && v < p.n && forall x: Item :: Has(r', x) <==> Has(r, x)
    ensures ToCome(p, v, r') == ToCome(p, v, r)
  {
  }

  lemma RankWork(p: Plan, s: seq<Rank>, a: Action)
    requires p.Valid() && Inv(p, s) && Enabled(p, s, a)
    ensures Work(p, a.v, NextRank(s[a.v], a)) == Work(p, a.v, s[a.v]) - 1
  {
    var r, r' := s[a.v], NextRank(s[a.v], a);
    assert RankOk(p, a.v, r);
    match a {
      case Submit(v) => OneFewer(p, v, r, r', Chunk(r.submitted));
      case Take(v) =>
        assert r.queue == [r.queue[0]] + r.queue[1..];
        assert r.queue[0] in r.queue;
        NoneFewer(p, v, r, r');
      case Add(v, it) => OneFewer(p, v, r, r', it);
      case Finish(v, it) => NoneFewer(p, v, r, r');
    }
  }

  ghost function Works(p: Plan, s: seq<Rank>): seq<int>
    requires p.Valid() && |s| == p.n
  {
    seq(p.n, v requires 0 <= v < p.n => Work(p, v, s[v]))
  }

  ghost function TotalWork(p: Plan, s: seq<Rank>): int
    requires p.Valid() && |s| == p.n
  {
    Sum(Works(p, s))
  }

  lemma StepWork(p: Plan, s: seq<Rank>, s': seq<Rank>, a: Action)
    requires p.Valid() && Inv(p, s) && Stepped(p, s, s', a)
    ensures |s'| == p.n && TotalWork(p, s') == TotalWork(p, s) - 1
  {
    RankWork(p, s, a);
    OneLess(Works(p, s), Works(p, s'), a.v);
  }

  lemma {:induction false} RunsAreFinite(p: Plan, tr: seq<seq<Rank>>, acts: seq<Action>, k: nat)
    requires p.Valid() && Run(p, tr, acts) && k < |tr|
    ensures |tr[k]| == p.n && TotalWork(p, tr[k]) == TotalWork(p, Start(p)) - k
    ensures k <= TotalWork(p, Start(p))
  {
    if k > 0 {
      var i := k - 1;
      RunsAreFinite(p, tr, acts, i);
      RunInv(p, tr, acts, i);
      StepWork(p, tr[i], tr[i + 1], acts[i]);
    }
    SumNonNegative(Works(p, tr[k]));
  }

  // ---------------------------------------------------------------- receives before sends

  /** What a scheduler may do that puts every receive before every send. */
  predicate Early(a: Action) {
    a.Submit? || a.Take? || (a.Add? && a.it.Recv?)
  }

  ghost function Next(s: seq<Rank>, a: Action): seq<Rank>
    requires a.v < |s| && (a.Take? ==> s[a.v].queue != [])
  {
    s[a.v := NextRank(s[a.v], a)]
  }

  lemma OneMoreStep(p: Plan, tr: seq<seq<Rank>>, acts: seq<Action>, a: Action)
    requires p.Valid() && Run(p, tr, acts) && |tr[|acts|]| == p.n && Enabled(p, tr[|acts|], a)
    ensures Run(p, tr + [Next(tr[|acts|], a)], acts + [a])
  {
    var tr', acts' := tr + [Next(tr[|acts|], a)], acts + [a];
    forall k | 0 <= k < |acts'| ensures Stepped(p, tr'[k], tr'[k + 1], acts'[k]) {
      if k < |acts| { assert Stepped(p, tr[k], tr[k + 1], acts[k]); }
    }
  }

  ghost predicate AllEarly(acts: seq<Action>) {
    forall i :: 0 <= i < |acts| ==> Early(acts[i])
  }

  /** Continues a run for as long as something, or something early, can be done. */
  lemma {:induction false} ToTheEnd(p: Plan, tr: seq<seq<Rank>>, acts: seq<Action>, early: bool)
    returns (tr': seq<seq<Rank>>, acts': seq<Action>)
    requires p.Valid() && Run(p, tr, acts) && (early ==> AllEarly(acts))
    ensures Run(p, tr', acts') && acts <= acts' && tr <= tr' && |tr'[|acts'|]| == p.n
    ensures early ==> AllEarly(acts')
    ensures forall a :: Enabled(p, tr'[|acts'|], a) ==> early && !Early(a)
    decreases TotalWork(p, Start(p)) - |acts|
  {
    RunsAreFinite(p, tr, acts, |acts|);
    var s := tr[|acts|];
    if a :| Enabled(p, s, a) && (early ==> Early(a)) {
      OneMoreStep(p, tr, acts, a);
      RunsAreFinite(p, tr + [Next(s, a)], acts + [a], |acts| + 1);
      tr', acts' := ToTheEnd(p, tr + [Next(s, a)], acts + [a], early);
    } else {
      tr', acts' := tr, acts;
    }
  }

  ghost predicate OnlyReceives(r: Rank) {
    r.done == {} && forall it :: it in r.queue || it in r.running ==> it.Chunk? || it.Recv?
  }

  lemma {:induction false} EarlyRun(p: Plan, tr: seq<seq<Rank>>, acts: seq<Action>, k: nat, v: nat)
    requires p.Valid() && Run(p, tr, acts) && k < |tr| && v < p.n && AllEarly(acts)
    ensures |tr[k]| == p.n && OnlyReceives(tr[k][v])
  {
    if k > 0 {
      var i := k - 1;
      EarlyRun(p, tr, acts, i, v);
      assert Stepped(p, tr[i], tr[i + 1], acts[i]) && Early(acts[i]);
      if acts[i].Take? && acts[i].v == v {
        assert tr[i][v].queue[0] in tr[i][v].queue;
      }
    }
  }

  /** Every worker is held and nothing has been done. */
  ghost predicate Clogged(p: Plan, r: Rank) {
    r.done == {} && |r.running| >= p.m && forall it :: it in r.running ==> it.Chunk? || it.Recv?
  }

  /** With an empty queue everything early is running. */
  lemma EarlyItems(p: Plan, s: seq<Rank>, v: nat, it: Item)
    requires p.Valid() && Inv(p, s) && v < p.n && OnlyReceives(s[v]) && s[v].queue == []
    requires forall a :: Enabled(p, s, a) ==> !Early(a)
    requires it in ChunkItems(|p.gps|) || it in Receives(p, v)
    ensures it in s[v].running
  {
    assert RankOk(p, v, s[v]);
    assert !Enabled(p, s, Submit(v));
    assert Has(s[v], Chunk(it.j));
    if it.Recv? { assert !Enabled(p, s, Add(v, it)); }
  }

  lemma EarlyEnd(p: Plan, s: seq<Rank>, v: nat)
    requires p.Valid() && Inv(p, s) && v < p.n && OnlyReceives(s[v]) && !SpareAt(p, v)
    requires forall a :: Enabled(p, s, a) ==> !Early(a)
    ensures Clogged(p, s[v])
  {
    if s[v].queue == [] {
      var all := ChunkItems(|p.gps|) + Receives(p, v);
      forall it | it in all ensures it in s[v].running { EarlyItems(p, s, v, it); }
      HeldWorkers(p, v, s[v].running);
    } else {
      assert !Enabled(p, s, Take(v));
    }
  }

  lemma HeldWorkers(p: Plan, v: nat, running: set<Item>)
    requires p.Valid() && v < p.n && ChunkItems(|p.gps|) + Receives(p, v) <= running
    ensures |running| >= |p.gps| + |Receives(p, v)|
  {
    SubsetSize(ChunkItems(|p.gps|) + Receives(p, v), running);
    ChunkItemsSize(|p.gps|);
    assert ChunkItems(|p.gps|) !! Receives(p, v);
  }

  // ---------------------------------------------------------------- a clogged system stays clogged

  ghost predicate AllClogged(p: Plan, s: seq<Rank>) {
    |s| == p.n && forall v: nat :: v < p.n ==> Clogged(p, s[v])
  }

  lemma NothingFinishes(p: Plan, s: seq<Rank>, v: nat, it: Item)
    requires p.Valid() && p.n >= 2 && Inv(p, s) && AllClogged(p, s) && v < p.n && it in s[v].running
    ensures !CanFinish(p, s, v, it)
  {
    assert Clogged(p, s[v]) && RankOk(p, v, s[v]) && Has(s[v], it);
    if it.Recv? {
      if it.peer < p.n { assert Clogged(p, s[it.peer]); }
    } else {
      var j := it.j;
      var gp := p.gps[j];
      assert TreePair(gp, p.n, p.roots[j], p.rdepth[j], p.bdepth[j]);
      if v == p.roots[j] {
        var u := RootHasChild(p.n, v, gp.reduce.nexts, gp.reduce.prevs, p.rdepth[j]);
        assert IsLeaf(p, v, Recv(j, u));
      } else {
        assert ParentOk(p.n, v, gp.bcast.prevs, p.bdepth[j]);
        var u := gp.bcast.prevs[v][0];
        assert u in gp.bcast.prevs[v] && Clogged(p, s[u]);
      }
    }
  }

  lemma StaysClogged(p: Plan, s: seq<Rank>, s': seq<Rank>, a: Action)
    requires p.Valid() && p.n >= 2 && Inv(p, s) && AllClogged(p, s) && Stepped(p, s, s', a)
    ensures AllClogged(p, s')
  {
    assert Clogged(p, s[a.v]) && RankOk(p, a.v, s[a.v]);
    if a.Finish? { NothingFinishes(p, s, a.v, a.it); }
    forall v: nat | v < p.n ensures Clogged(p, s'[v]) {
      assert Clogged(p, s[v]);
    }
  }

  lemma {:induction false} ClogRun(p: Plan, tr: seq<seq<Rank>>, acts: seq<Action>, from: nat, k: nat)
    requires p.Valid() && p.n >= 2 && Run(p, tr, acts) && from <= k < |tr| && AllClogged(p, tr[from])
    ensures AllClogged(p, tr[k])
  {
    if k > from {
      var i := k - 1;
      ClogRun(p, tr, acts, from, i);
      RunInv(p, tr, acts, i);
      StaysClogged(p, tr[i], tr[i + 1], acts[i]);
    }
  }

  lemma EarlyState(p: Plan) returns (tr: seq<seq<Rank>>, acts: seq<Action>)
    requires p.Valid() && p.n >= 2 && !Spare(p)
    ensures Run(p, tr, acts) && AllClogged(p, tr[|acts|])
  {
    tr, acts := ToTheEnd(p, [Start(p)], [], true);
    RunInv(p, tr, acts, |acts|);
    forall v: nat | v < p.n ensures Clogged(p, tr[|acts|][v]) {
      EarlyRun(p, tr, acts, |acts|, v);
      EarlyEnd(p, tr[|acts|], v);
    }
  }

  /** Over any trees: where no rank has a worker to spare, the ranks can all fill their
      workers with chunk tasks and receives, and then wait for each other for good. */
  lemma Deadlock(p: Plan) returns (tr: seq<seq<Rank>>, acts: seq<Action>)
    requires p.Valid() && p.n >= 2 && !Spare(p)
    ensures Run(p, tr, acts) && |tr[|acts|]| == p.n && Stuck(p, tr[|acts|])
  {
    var tr0, acts0 := EarlyState(p);
    tr, acts := ToTheEnd(p, tr0, acts0, false);
    assert tr[|acts0|] == tr0[|acts0|];
    ClogRun(p, tr, acts, |acts0|, |acts|);
    assert Clogged(p, tr[|acts|][0]);
    assert !SpareAt(p, 0);
    if |p.gps| == 0 { NoChunksSpare(p); }
    assert Chunk(0) !in tr[|acts|][0].done;
  }

  lemma NoChunksSpare(p: Plan)
    requires p.Valid() && |p.gps| == 0
    ensures SpareAt(p, 0)
  {
    assert Receives(p, 0) == {};
  }

  // ---------------------------------------------------------------- exact bounds

  lemma NeverStuckEnough(p: Plan)
    requires p.Valid() && forall s :: Inv(p, s) ==> !Stuck(p, s)
    ensures AlwaysCompletes(p)
  {
    forall tr, acts | Run(p, tr, acts) ensures |tr[|acts|]| == p.n && !Stuck(p, tr[|acts|]) {
      RunInv(p, tr, acts, |acts|);
    }
  }

  /** A single rank has no leaves and always completes. */
  lemma SingleRank(p: Plan)
    requires p.Valid() && p.n == 1
    ensures AlwaysCompletes(p)
  {
    forall s | Inv(p, s) ensures !Stuck(p, s) {
      AloneMoves(p, s);
    }
    NeverStuckEnough(p);
  }

  lemma NoLeavesAlone(p: Plan, it: Item)
    requires p.Valid() && p.n == 1
    ensures !IsLeaf(p, 0, it)
  {
    LeavesInRange(p, 0);
    if it.j < |p.gps| {
      assert TreePair(p.gps[it.j], p.n, p.roots[it.j], p.rdepth[it.j], p.bdepth[it.j]);
    }
  }

  lemma AloneMoves(p: Plan, s: seq<Rank>)
    requires p.Valid() && p.n == 1 && Inv(p, s)
    ensures !Stuck(p, s)
  {
    if Stuck(p, s) {
      var v := SomeoneIsFull(p, s);
      assert !Enabled(p, s, Take(v));
      var it :| it in s[v].running;
      AloneRuns(p, s, it);
      assert Enabled(p, s, Finish(0, it));
    }
  }

  lemma AloneRuns(p: Plan, s: seq<Rank>, it: Item)
    requires p.Valid() && p.n == 1 && Inv(p, s) && it in s[0].running
    ensures CanFinish(p, s, 0, it)
  {
    assert RankOk(p, 0, s[0]) && Has(s[0], it);
    NoLeavesAlone(p, it);
    AloneFinishes(p, s, it);
  }

  lemma AloneFinishes(p: Plan, s: seq<Rank>, it: Item)
    requires p.Valid() && p.n == 1 && |s| == 1 && it.Chunk? && it.j < |p.gps|
    ensures CanFinish(p, s, 0, it)
  {
    forall x: Item ensures !IsLeaf(p, 0, x) { NoLeavesAlone(p, x); }
    assert TreePair(p.gps[it.j], p.n, p.roots[it.j], p.rdepth[it.j], p.bdepth[it.j]);
  }

  /** On the star, with two ranks or more: always complete exactly when there are fewer
      chunks than workers. */
  lemma StarIsExact(p: Plan)
    requires IsStar(p) && p.n >= 2
    ensures AlwaysCompletes(p) <==> |p.gps| < p.m
  {
    if |p.gps| < p.m {
      forall s | Inv(p, s) ensures !Stuck(p, s) { StarProgress(p, s); }
      NeverStuckEnough(p);
    } else {
      assert !Spare(p);
      var tr, acts := Deadlock(p);
    }
  }

  /** On the ring, for any roots: exactly when some rank has a worker more than its chunk
      tasks and its receives together can hold. */
  lemma RingIsExact(p: Plan)
    requires IsRing(p) && p.n >= 2
    ensures AlwaysCompletes(p) <==> Spare(p)
  {
    if Spare(p) {
      forall s | Inv(p, s) ensures !Stuck(p, s) { RingProgress(p, s); }
      NeverStuckEnough(p);
    } else {
      var tr, acts := Deadlock(p);
    }
  }

  // ---------------------------------------------------------------- rings of every size

  ghost predicate RootsOk(n: nat, roots: seq<nat>) {
    n >= 1 && forall j :: 0 <= j < |roots| ==> roots[j] < n
  }

  ghost function RingPlan(n: nat, m: nat, roots: seq<nat>): (p: Plan)
    requires RootsOk(n, roots) && m >= 1
    ensures IsRing(p) && p.n == n && p.m == m && p.roots == roots
  {
    var p := Plan(n, m, seq(|roots|, j requires 0 <= j < |roots| => RingPair(n, roots[j])), roots,
                  seq(|roots|, j requires 0 <= j < |roots| => RingReduceDepth(n, roots[j])),
                  seq(|roots|, j requires 0 <= j < |roots| => RingBcastDepth(n, roots[j])));
    assert p.Valid() by {
      forall j: nat | j < |p.gps| ensures TreePair(p.gps[j], n, roots[j], p.rdepth[j], p.bdepth[j]) {
        RingIsTreePair(n, roots[j]);
      }
    }
    p
  }

  /** Where chunk `j` starts its reduce chain, a rank has nothing to receive; everywhere else
      one message, from the rank before. */
  lemma RingReceives(p: Plan, v: nat, j: nat)
    requires IsRing(p) && p.n >= 2 && v < p.n && j < |p.gps|
    ensures IsLeaf(p, v, Recv(j, Before(p.n, v))) <==> Before(p.n, v) != p.roots[j]
  {
    RingNeighbours(p.n, p.roots[j], v);
  }

  ghost function Starts(p: Plan, v: nat): set<nat>
    requires v < p.n && |p.roots| == |p.gps|
  {
    set j | j in Ranks(|p.gps|) && p.roots[j] == Before(p.n, v)
  }

  lemma ReceivesCount(p: Plan, v: nat)
    requires IsRing(p) && p.n >= 2 && v < p.n
    ensures |Receives(p, v)| == |p.gps| - |Starts(p, v)|
  {
    var u := Before(p.n, v);
    var js := Ranks(|p.gps|) - Starts(p, v);
    forall it: Item ensures it in Receives(p, v) <==> it in Messages(js, u) {
      if it in Receives(p, v) {
        RingSender(p, v, it);
        RingReceives(p, v, it.j);
      }
      if it in Messages(js, u) { RingReceives(p, v, it.j); }
    }
    assert Receives(p, v) == Messages(js, u);
    MessagesSize(js, u);
    RanksSize(|p.gps|);
    assert Starts(p, v) <= Ranks(|p.gps|);
    assert Ranks(|p.gps|) == js + Starts(p, v);
  }

  ghost function Messages(js: set<nat>, u: nat): set<Item> {
    set j | j in js :: Recv(j, u)
  }

  lemma {:induction false} MessagesSize(js: set<nat>, u: nat)
    ensures |Messages(js, u)| == |js|
    decreases |js|
  {
    if js == {} {
      assert Messages(js, u) == {};
    } else {
      var j :| j in js;
      MessagesSize(js - {j}, u);
      assert Messages(js, u) == Messages(js - {j}, u) + {Recv(j, u)};
    }
  }

  ghost predicate RingAlwaysCompletes(m: nat, c: nat)
    requires m >= 1
  {
    forall n: nat, roots: seq<nat> :: RootsOk(n, roots) && |roots| == c ==> AlwaysCompletes(RingPlan(n, m, roots))
  }

  lemma HalfIsEnough(m: nat, n: nat, roots: seq<nat>)
    requires RootsOk(n, roots) && n >= 2 && m >= 1 && 2 * |roots| <= m
    ensures Spare(RingPlan(n, m, roots))
  {
    var p := RingPlan(n, m, roots);
    if roots == [] {
      NoChunksSpare(p);
    } else {
      var v := if roots[0] == n - 1 then 0 else roots[0] + 1;
      assert 0 in Starts(p, v);
      ReceivesCount(p, v);
      assert SpareAt(p, v);
    }
  }

  /** Chunks with distinct roots on a ring of one rank more. */
  lemma DistinctRoots(m: nat, c: nat)
    requires m >= 1 && 2 * c > m
    ensures exists n: nat, roots: seq<nat> ::
              RootsOk(n, roots) && n >= 2 && |roots| == c && !Spare(RingPlan(n, m, roots))
  {
    var roots := seq(c, j requires 0 <= j < c => j);
    var p := RingPlan(c + 1, m, roots);
    forall v: nat | v < c + 1 ensures !SpareAt(p, v) {
      ReceivesCount(p, v);
      SubsetSize(Starts(p, v), {Before(c + 1, v)});
    }
    assert !Spare(p);
  }

  /** A pool of `m` workers carries `c` chunks over rings of every size and every choice of
      roots if and only if it has two workers for every chunk. */
  lemma RingPoolIsExact(m: nat, c: nat)
    requires m >= 1
    ensures RingAlwaysCompletes(m, c) <==> 2 * c <= m
  {
    if 2 * c <= m {
      forall n: nat, roots: seq<nat> | RootsOk(n, roots) && |roots| == c
        ensures AlwaysCompletes(RingPlan(n, m, roots))
      {
        if n == 1 {
          SingleRank(RingPlan(n, m, roots));
        } else {
          HalfIsEnough(m, n, roots);
          RingIsExact(RingPlan(n, m, roots));
        }
      }
    } else {
      DistinctRoots(m, c);
      var n: nat, roots: seq<nat> :| RootsOk(n, roots) && n >= 2 && |roots| == c && !Spare(RingPlan(n, m, roots));
      RingIsExact(RingPlan(n, m, roots));
    }
  }

  /** The pool of the asynchronous runtime. */
  const ASYNC_WORKERS: nat := 8

  /** Its eight workers carry up to seven chunks on the star, and on the ring, in general, no
      more than four. */
  lemma EightWorkers(p: Plan)
    requires IsStar(p) && p.n >= 2 && p.m == ASYNC_WORKERS
    ensures AlwaysCompletes(p) <==> |p.gps| <= 7
    ensures forall c: nat :: RingAlwaysCompletes(ASYNC_WORKERS, c) <==> c <= 4
  {
    StarIsExact(p);
    forall c: nat ensures RingAlwaysCompletes(ASYNC_WORKERS, c) <==> c <= 4 {
      RingPoolIsExact(ASYNC_WORKERS, c);
    }
  }
}
