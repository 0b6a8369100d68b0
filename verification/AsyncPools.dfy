/** How many workers the asynchronous all-reduce needs at each rank. */
module AsyncPools {
  import opened Basics
  import opened Folds
  import opened Graphs
  import opened Topology
  import opened AsyncAllReduce

  ghost predicate Still(p: Plan, s: seq<Rank>)
    requires p.Valid() && |s| == p.n
  {
    forall a :: !Enabled(p, s, a)
  }

  // ---------------------------------------------------------------- without queues everything flows

  ghost predicate QueuesEmpty(s: seq<Rank>) {
    forall v :: 0 <= v < |s| ==> s[v].queue == []
  }

  /** Where nothing can move, every chunk task has been submitted, and with an empty queue it
      is running or done, with every leaf that is ready. */
  lemma StillRank(p: Plan, s: seq<Rank>, v: nat, j: nat)
    requires p.Valid() && Inv(p, s) && Still(p, s) && v < p.n && j < |p.gps| && s[v].queue == []
    ensures Chunk(j) in s[v].running || Chunk(j) in s[v].done
    ensures forall it: Item :: it.j == j && IsLeaf(p, v, it) && Ready(p, s, v, it) ==>
            it in s[v].running || it in s[v].done
    ensures forall it: Item :: it in s[v].running ==> !CanFinish(p, s, v, it)
  {
    assert RankOk(p, v, s[v]);
    assert !Enabled(p, s, Submit(v));
    assert Has(s[v], Chunk(j));
    forall it: Item | it.j == j && IsLeaf(p, v, it) && Ready(p, s, v, it)
      ensures it in s[v].running || it in s[v].done
    {
      assert !Enabled(p, s, Add(v, it));
    }
    forall it: Item | it in s[v].running ensures !CanFinish(p, s, v, it) {
      assert !Enabled(p, s, Finish(v, it));
    }
  }

  /** The two ends of a reduce receive. */
  lemma RecvEnds(p: Plan, v: nat, it: Item)
    requires p.Valid() && v < p.n && it.Recv? && IsLeaf(p, v, it)
    ensures it.peer < p.n && IsLeaf(p, it.peer, SendReduce(it.j, v))
    ensures v < |p.rdepth[it.j]| && it.peer < |p.rdepth[it.j]| && p.rdepth[it.j][v] < p.rdepth[it.j][it.peer]
  {
    var j, u := it.j, it.peer;
    assert TreePair(p.gps[j], p.n, p.roots[j], p.rdepth[j], p.bdepth[j]);
    assert u < p.n && v in p.gps[j].reduce.nexts[u];
    assert u != p.roots[j] && ParentOk(p.n, u, p.gps[j].reduce.nexts, p.rdepth[j]);
  }

  lemma {:induction false} ReduceFlows(p: Plan, s: seq<Rank>, v: nat, j: nat)
    requires p.Valid() && Inv(p, s) && Still(p, s) && QueuesEmpty(s) && v < p.n && j < |p.gps|
    ensures ReduceDone(p, s, v, j)
    decreases MaxOf(p.rdepth[j]) - DepthAt(p, v, j)
  {
    StillRank(p, s, v, j);
    forall it: Item | it.Recv? && it.j == j && IsLeaf(p, v, it) ensures it in s[v].done {
      RecvEnds(p, v, it);
      ReduceFlows(p, s, it.peer, j);
      assert CanFinish(p, s, v, it);
    }
    forall it: Item | it.SendReduce? && it.j == j && IsLeaf(p, v, it) ensures it in s[v].done {
      assert Ready(p, s, v, it) && CanFinish(p, s, v, it);
    }
  }

  ghost function DepthAt(p: Plan, v: nat, j: nat): nat
    requires p.Valid() && v < p.n && j < |p.gps|
  {
    assert TreePair(p.gps[j], p.n, p.roots[j], p.rdepth[j], p.bdepth[j]);
    p.rdepth[j][v]
  }

  lemma {:induction false} BroadcastFlows(p: Plan, s: seq<Rank>, v: nat, j: nat)
    requires p.Valid() && Inv(p, s) && Still(p, s) && QueuesEmpty(s) && v < p.n && j < |p.gps|
    ensures Arrived(p, s, v, j) && Chunk(j) in s[v].done
    ensures forall it: Item :: it.SendBcast? && it.j == j && IsLeaf(p, v, it) ==> it in s[v].done
    decreases p.bdepth[j][v]
  {
    var gp := p.gps[j];
    assert TreePair(gp, p.n, p.roots[j], p.rdepth[j], p.bdepth[j]);
    ReduceFlows(p, s, v, j);
    StillRank(p, s, v, j);
    forall u: nat | u < p.n && u in gp.bcast.prevs[v] ensures SendBcast(j, v) in s[u].done {
      assert v != p.roots[j] && ParentOk(p.n, v, gp.bcast.prevs, p.bdepth[j]);
      assert v in gp.bcast.nexts[u];
      BroadcastFlows(p, s, u, j);
      assert IsLeaf(p, u, SendBcast(j, v));
    }
    forall it: Item | it.SendBcast? && it.j == j && IsLeaf(p, v, it) ensures it in s[v].done {
      assert Ready(p, s, v, it) && CanFinish(p, s, v, it);
    }
    assert CanFinish(p, s, v, Chunk(j));
  }

  // ---------------------------------------------------------------- counting workers

  ghost function ChunkItems(c: nat): set<Item> {
    set j | j in Ranks(c) :: Chunk(j)
  }

  lemma {:induction false} ChunkItemsSize(c: nat)
    ensures |ChunkItems(c)| == c
  {
    if c > 0 {
      ChunkItemsSize(c - 1);
      assert ChunkItems(c) == ChunkItems(c - 1) + {Chunk(c - 1)};
    }
  }

  /** The receives a rank's workers are held by. */
  ghost function Receiving(r: Rank): set<Item> {
    set it | it in r.running && it.Recv?
  }

  /** All the receives of a rank, over all the chunks. */
  ghost function Receives(p: Plan, v: nat): (s: set<Item>)
    requires p.Valid() && v < p.n
    ensures forall it: Item :: it in s <==> it.Recv? && IsLeaf(p, v, it)
  {
    assert forall j: nat :: j < |p.gps| ==> TreePair(p.gps[j], p.n, p.roots[j], p.rdepth[j], p.bdepth[j]);
    assert forall j: nat, u :: j < |p.gps| && u in p.gps[j].reduce.prevs[v] ==> u < p.n;
    set j: nat, u: nat | j < |p.gps| && u < p.n && IsLeaf(p, v, Recv(j, u)) :: Recv(j, u)
  }

  /** A rank with something queued has all the workers its chunk tasks leave over held by
      receives. */
  lemma QueuedIsFull(p: Plan, s: seq<Rank>, v: nat)
    requires p.Valid() && Inv(p, s) && Still(p, s) && v < p.n && s[v].queue != []
    ensures |Receiving(s[v])| + |p.gps| >= p.m
  {
    var r := s[v];
    assert RankOk(p, v, r);
    assert !Enabled(p, s, Take(v));
    forall it: Item | it in r.running ensures it in ChunkItems(|p.gps|) || it in Receiving(r) {
      assert !Enabled(p, s, Finish(v, it));
      assert Has(r, it);
    }
    var chunks := r.running - Receiving(r);
    SubsetSize(chunks, ChunkItems(|p.gps|));
    ChunkItemsSize(|p.gps|);
    assert r.running == chunks + Receiving(r);
  }

  /** Where nothing can move and not all is done, some rank is full. */
  lemma SomeoneIsFull(p: Plan, s: seq<Rank>) returns (v: nat)
    requires p.Valid() && Inv(p, s) && Still(p, s) && !AllDone(p, s)
    ensures v < p.n && s[v].queue != [] && |Receiving(s[v])| + |p.gps| >= p.m
  {
    if QueuesEmpty(s) {
      forall v, j | 0 <= v < |s| && 0 <= j < |p.gps| ensures Chunk(j) in s[v].done {
        BroadcastFlows(p, s, v, j);
      }
      assert false;
    }
    v :| 0 <= v < |s| && s[v].queue != [];
    QueuedIsFull(p, s, v);
  }

  /** What a held receive waits for, at the sending rank. */
  lemma AwaitedSend(p: Plan, s: seq<Rank>, v: nat, it: Item)
    requires p.Valid() && Inv(p, s) && Still(p, s) && v < p.n && it in Receiving(s[v])
    ensures IsLeaf(p, v, it) && it.peer < p.n && IsLeaf(p, it.peer, SendReduce(it.j, v))
    ensures s[it.peer].queue == [] ==> exists x: Item :: x.j == it.j && x in Receiving(s[it.peer])
  {
    var u := it.peer;
    assert RankOk(p, v, s[v]) && Has(s[v], it);
    assert TreePair(p.gps[it.j], p.n, p.roots[it.j], p.rdepth[it.j], p.bdepth[it.j]);
    assert !Enabled(p, s, Finish(v, it));
    var send := SendReduce(it.j, v);
    assert IsLeaf(p, u, send) && send !in s[u].done;
    if s[u].queue == [] {
      assert RankOk(p, u, s[u]);
      StillRank(p, s, u, it.j);
      assert CanFinish(p, s, u, send) && !Ready(p, s, u, send);
      var x: Item :| x.Recv? && x.j == it.j && IsLeaf(p, u, x) && x !in s[u].done;
      assert Ready(p, s, u, x);
      assert x in Receiving(s[u]);
    }
  }

  // ---------------------------------------------------------------- plans

  ghost predicate AlwaysCompletes(p: Plan)
    requires p.Valid()
  {
    forall tr, acts :: Run(p, tr, acts) ==> |tr[|acts|]| == p.n && !Stuck(p, tr[|acts|])
  }

  ghost predicate IsStar(p: Plan) {
    p.Valid() && forall j: nat :: j < |p.gps| ==> p.gps[j] == StarPair(p.n, 0) && p.roots[j] == 0
  }

  ghost predicate IsRing(p: Plan) {
    p.Valid() && forall j: nat :: j < |p.gps| ==> p.roots[j] < p.n && p.gps[j] == RingPair(p.n, p.roots[j])
  }

  /** Some rank has a worker more than its chunk tasks and all its receives can hold. */
  ghost predicate Spare(p: Plan)
    requires p.Valid()
  {
    exists v: nat :: v < p.n && SpareAt(p, v)
  }

  ghost predicate SpareAt(p: Plan, v: nat)
    requires p.Valid() && v < p.n
  {
    |p.gps| + |Receives(p, v)| < p.m
  }

  lemma ReceivingBound(p: Plan, v: nat, r: Rank)
    requires p.Valid() && v < p.n && RankOk(p, v, r)
    ensures |Receiving(r)| <= |Receives(p, v)|
  {
    forall it: Item | it in Receiving(r) ensures it in Receives(p, v) { assert Has(r, it); }
    SubsetSize(Receiving(r), Receives(p, v));
  }

  // ---------------------------------------------------------------- star

  lemma StarProgress(p: Plan, s: seq<Rank>)
    requires IsStar(p) && Inv(p, s) && |p.gps| < p.m
    ensures !Stuck(p, s)
  {
    if Stuck(p, s) {
      var v := SomeoneIsFull(p, s);
      var it :| it in Receiving(s[v]);
      AwaitedSend(p, s, v, it);
      StarSenders(p, v, it);
      SenderIsFull(p, s, it.peer, it.j);
    }
  }

  lemma SenderIsFull(p: Plan, s: seq<Rank>, u: nat, j: nat)
    requires p.Valid() && Inv(p, s) && Still(p, s) && |p.gps| < p.m && u < p.n
    requires s[u].queue == [] ==> exists x: Item :: x.j == j && x in Receiving(s[u])
    ensures Receives(p, u) != {}
  {
    if s[u].queue != [] { QueuedIsFull(p, s, u); }
    assert RankOk(p, u, s[u]);
    ReceivingBound(p, u, s[u]);
  }

  /** Only the root of a star receives, and only from ranks that do not. */
  lemma StarSenders(p: Plan, v: nat, it: Item)
    requires IsStar(p) && v < p.n && it.Recv? && IsLeaf(p, v, it)
    ensures it.peer < p.n && Receives(p, it.peer) == {}
  {
    var gp := StarPair(p.n, 0);
    assert TreePair(p.gps[it.j], p.n, 0, p.rdepth[it.j], p.bdepth[it.j]);
    StarIsTreePair(p.n, 0);
    var u := it.peer;
    assert v in gp.reduce.nexts[u] && u != 0;
    forall x: Item | x.Recv? && x.j < |p.gps| ensures !IsLeaf(p, u, x) {
      assert TreePair(p.gps[x.j], p.n, 0, p.rdepth[x.j], p.bdepth[x.j]);
    }
  }

  // ---------------------------------------------------------------- ring

  function Before(n: nat, v: nat): nat
    requires v < n
  {
    if v == 0 then n - 1 else v - 1
  }

  /** On a ring every receive is from the rank before. */
  lemma RingSender(p: Plan, v: nat, it: Item)
    requires IsRing(p) && v < p.n && it.Recv? && IsLeaf(p, v, it)
    ensures it.peer == Before(p.n, v)
  {
    RingNeighbours(p.n, p.roots[it.j], v);
  }

  ghost function Renamed(items: set<Item>, peer: nat): set<Item> {
    set it | it in items :: Recv(it.j, peer)
  }

  lemma {:induction false} RenamedSize(items: set<Item>, peer: nat)
    ensures |Renamed(items, peer)| <= |items|
    decreases |items|
  {
    if items != {} {
      var it :| it in items;
      RenamedSize(items - {it}, peer);
      assert Renamed(items, peer) == Renamed(items - {it}, peer) + {Recv(it.j, peer)};
    } else {
      assert Renamed(items, peer) == {};
    }
  }

  /** Behind a full rank stands a full rank. */
  lemma RingBack(p: Plan, s: seq<Rank>, v: nat)
    requires IsRing(p) && Inv(p, s) && Still(p, s) && v < p.n && |Receiving(s[v])| + |p.gps| >= p.m
    ensures |Receiving(s[Before(p.n, v)])| + |p.gps| >= p.m
  {
    var u := Before(p.n, v);
    if s[u].queue != [] {
      QueuedIsFull(p, s, u);
    } else {
      forall it: Item | it in Receiving(s[v]) ensures it in Renamed(Receiving(s[u]), u) {
        AwaitedSend(p, s, v, it);
        RingSender(p, v, it);
        var x: Item :| x.j == it.j && x in Receiving(s[u]);
        assert it == Recv(x.j, u);
      }
      SubsetSize(Receiving(s[v]), Renamed(Receiving(s[u]), u));
      RenamedSize(Receiving(s[u]), u);
    }
  }

  function Back(n: nat, v: nat, k: nat): (u: nat)
    requires v < n
    ensures u < n
  {
    if k == 0 then v else Before(n, Back(n, v, k - 1))
  }

  lemma {:induction false} BackAt(n: nat, v: nat, k: nat)
    requires v < n && k < n
    ensures Back(n, v, k) == if k <= v then v - k else v + n - k
  {
    if k > 0 { BackAt(n, v, k - 1); }
  }

  lemma {:induction false} AroundTheRing(n: nat, full: set<nat>, v: nat, k: nat)
    requires v < n && v in full && forall u: nat :: u < n && u in full ==> Before(n, u) in full
    ensures Back(n, v, k) in full
  {
    if k > 0 { AroundTheRing(n, full, v, k - 1); }
  }

  ghost function FullRanks(p: Plan, s: seq<Rank>): set<nat>
    requires |s| == p.n
  {
    set v: nat | v < p.n && |Receiving(s[v])| + |p.gps| >= p.m
  }

  lemma FullRanksClosed(p: Plan, s: seq<Rank>)
    requires IsRing(p) && Inv(p, s) && Still(p, s)
    ensures forall x: nat :: x < p.n && x in FullRanks(p, s) ==> Before(p.n, x) in FullRanks(p, s)
  {
    forall x: nat | x < p.n && x in FullRanks(p, s) ensures Before(p.n, x) in FullRanks(p, s) {
      RingBack(p, s, x);
    }
  }

  lemma Everywhere(n: nat, full: set<nat>, v: nat, u: nat)
    requires v < n && u < n && v in full && forall x: nat :: x < n && x in full ==> Before(n, x) in full
    ensures u in full
  {
    var k := if u <= v then v - u else v + n - u;
    BackAt(n, v, k);
    AroundTheRing(n, full, v, k);
  }

  lemma AllFull(p: Plan, s: seq<Rank>, u: nat)
    requires IsRing(p) && Inv(p, s) && Still(p, s) && !AllDone(p, s) && u < p.n
    ensures u in FullRanks(p, s)
  {
    var v := SomeoneIsFull(p, s);
    FullRanksClosed(p, s);
    Everywhere(p.n, FullRanks(p, s), v, u);
  }

  lemma RingProgress(p: Plan, s: seq<Rank>)
    requires IsRing(p) && Inv(p, s) && Spare(p)
    ensures !Stuck(p, s)
  {
    if Stuck(p, s) {
      var u: nat :| u < p.n && SpareAt(p, u);
      AllFull(p, s, u);
      NotFull(p, s, u);
    }
  }

  lemma NotFull(p: Plan, s: seq<Rank>, u: nat)
    requires p.Valid() && Inv(p, s) && u < p.n && SpareAt(p, u)
    ensures u !in FullRanks(p, s)
  {
    assert RankOk(p, u, s[u]);
    ReceivingBound(p, u, s[u]);
  }
}
