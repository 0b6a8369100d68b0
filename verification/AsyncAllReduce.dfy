/** The asynchronous all-reduce: n ranks, each with its own pool of m workers, and c chunks
    over any reduce and broadcast trees.

    At every rank the caller submits one task per chunk. A chunk task holds its worker from
    start to end: it adds its reduce receives to the same pool and waits for them, then its
    reduce sends, then polls for the broadcast itself, then adds its broadcast sends. A
    receive leaf holds a worker too, polling until the child's send has been carried out by
    the child's own pool. Sends are buffered.

    Every task is one item, first added to the pool's FIFO queue, then running, then done.
    The order in which one step adds its leaves is left open. */
module AsyncAllReduce {
  import opened Basics
  import opened Graphs
  import opened Topology

  datatype Item = Chunk(j: nat) | Recv(j: nat, peer: nat) | SendReduce(j: nat, peer: nat) | SendBcast(j: nat, peer: nat)

  /** One graph pair for every chunk. */
  datatype Plan = Plan(n: nat, m: nat, gps: seq<GraphPair>, roots: seq<nat>, rdepth: seq<seq<nat>>,
                       bdepth: seq<seq<nat>>)
  {
    ghost predicate Valid() {
      && n >= 1 && m >= 1 && |gps| == |roots| == |rdepth| == |bdepth|
      && forall j: nat :: j < |gps| ==> TreePair(gps[j], n, roots[j], rdepth[j], bdepth[j])
    }
  }

  datatype Rank = Rank(submitted: nat, queue: seq<Item>, running: set<Item>, done: set<Item>)

  datatype Action = Submit(v: nat) | Take(v: nat) | Add(v: nat, it: Item) | Finish(v: nat, it: Item)

  predicate Has(r: Rank, it: Item) { it in r.queue || it in r.running || it in r.done }

  /** The leaf tasks of a rank. */
  ghost predicate IsLeaf(p: Plan, v: nat, it: Item)
    requires p.Valid() && v < p.n
  {
    it.j < |p.gps| &&
    assert TreePair(p.gps[it.j], p.n, p.roots[it.j], p.rdepth[it.j], p.bdepth[it.j]);
    match it
    case Chunk(_) => false
    case Recv(j, u) => u in p.gps[j].reduce.prevs[v]
    case SendReduce(j, u) => u in p.gps[j].reduce.nexts[v]
    case SendBcast(j, u) => u in p.gps[j].bcast.nexts[v]
  }

  ghost predicate RecvsDone(p: Plan, s: seq<Rank>, v: nat, j: nat)
    requires p.Valid() && |s| == p.n && v < p.n
  {
    forall it: Item :: it.Recv? && it.j == j && IsLeaf(p, v, it) ==> it in s[v].done
  }

  ghost predicate ReduceDone(p: Plan, s: seq<Rank>, v: nat, j: nat)
    requires p.Valid() && |s| == p.n && v < p.n
  {
    RecvsDone(p, s, v, j) && forall it: Item :: it.SendReduce? && it.j == j && IsLeaf(p, v, it) ==> it in s[v].done
  }

  /** The broadcast has reached the rank. */
  ghost predicate Arrived(p: Plan, s: seq<Rank>, v: nat, j: nat)
    requires p.Valid() && |s| == p.n && v < p.n && j < |p.gps|
  {
    assert TreePair(p.gps[j], p.n, p.roots[j], p.rdepth[j], p.bdepth[j]);
    forall u: nat :: u < p.n && u in p.gps[j].bcast.prevs[v] ==> SendBcast(j, v) in s[u].done
  }

  /** Its step of the chunk task has been reached. */
  ghost predicate Ready(p: Plan, s: seq<Rank>, v: nat, it: Item)
    requires p.Valid() && |s| == p.n && v < p.n && IsLeaf(p, v, it)
  {
    match it
    case Recv(_, _) => true
    case SendReduce(j, _) => RecvsDone(p, s, v, j)
    case SendBcast(j, _) => ReduceDone(p, s, v, j) && Arrived(p, s, v, j)
  }

  ghost predicate CanFinish(p: Plan, s: seq<Rank>, v: nat, it: Item)
    requires p.Valid() && |s| == p.n && v < p.n
  {
    match it
    case Chunk(j) =>
      j < |p.gps| && ReduceDone(p, s, v, j) && Arrived(p, s, v, j)
      && forall x: Item :: x.SendBcast? && x.j == j && IsLeaf(p, v, x) ==> x in s[v].done
    case Recv(j, u) => u < p.n && SendReduce(j, v) in s[u].done
    case _ => true
  }

  ghost predicate Enabled(p: Plan, s: seq<Rank>, a: Action)
    requires p.Valid() && |s| == p.n
  {
    a.v < p.n &&
    var r := s[a.v];
    match a
    case Submit(v) => r.submitted < |p.gps|
    case Take(v) => r.queue != [] && |r.running| < p.m
    case Add(v, it) => IsLeaf(p, v, it) && Chunk(it.j) in r.running && !Has(r, it) && Ready(p, s, v, it)
    case Finish(v, it) => it in r.running && CanFinish(p, s, v, it)
  }

  ghost function NextRank(r: Rank, a: Action): Rank
    requires a.Take? ==> r.queue != []
  {
    match a
    case Submit(_) => r.(submitted := r.submitted + 1, queue := r.queue + [Chunk(r.submitted)])
    case Take(_) => r.(queue := r.queue[1..], running := r.running + {r.queue[0]})
    case Add(_, it) => r.(queue := r.queue + [it])
    case Finish(_, it) => r.(running := r.running - {it}, done := r.done + {it})
  }

  ghost predicate Stepped(p: Plan, s: seq<Rank>, s': seq<Rank>, a: Action)
    requires p.Valid()
  {
    |s| == p.n && Enabled(p, s, a) && s' == s[a.v := NextRank(s[a.v], a)]
  }

  ghost function Start(p: Plan): (s: seq<Rank>)
    ensures |s| == p.n
  {
    seq(p.n, v => Rank(0, [], {}, {}))
  }

  ghost predicate Run(p: Plan, tr: seq<seq<Rank>>, acts: seq<Action>)
    requires p.Valid()
  {
    && |tr| == |acts| + 1 && tr[0] == Start(p)
    && forall k :: 0 <= k < |acts| ==> Stepped(p, tr[k], tr[k + 1], acts[k])
  }

  ghost predicate AllDone(p: Plan, s: seq<Rank>) {
    forall v, j :: 0 <= v < |s| && 0 <= j < |p.gps| ==> Chunk(j) in s[v].done
  }

  ghost predicate Stuck(p: Plan, s: seq<Rank>)
    requires p.Valid() && |s| == p.n
  {
    !AllDone(p, s) && forall a :: !Enabled(p, s, a)
  }

  // ---------------------------------------------------------------- invariant

  /** Every task is in one place, and only what was submitted or belongs to a chunk that was
      started. A chunk task ends after all its leaves. */
  ghost predicate RankOk(p: Plan, v: nat, r: Rank)
    requires p.Valid() && v < p.n
  {
    && Distinct(r.queue) && (forall it :: it in r.queue ==> it !in r.running && it !in r.done) && r.running !! r.done
    && |r.running| <= p.m && r.submitted <= |p.gps|
    && (forall j: nat :: Has(r, Chunk(j)) <==> j < r.submitted)
    && (forall it: Item :: Has(r, it) && !it.Chunk? ==>
        IsLeaf(p, v, it) && (Chunk(it.j) in r.running || Chunk(it.j) in r.done))
    && (forall it: Item :: Chunk(it.j) in r.done && IsLeaf(p, v, it) ==> it in r.done)
  }

  ghost predicate Inv(p: Plan, s: seq<Rank>)
    requires p.Valid()
  {
    |s| == p.n && forall v: nat :: v < p.n ==> RankOk(p, v, s[v])
  }

  lemma TakeRank(p: Plan, v: nat, r: Rank)
    requires p.Valid() && v < p.n && RankOk(p, v, r) && r.queue != [] && |r.running| < p.m
    ensures RankOk(p, v, NextRank(r, Take(v)))
  {
    var r' := NextRank(r, Take(v));
    assert r.queue == [r.queue[0]] + r.queue[1..];
    forall it: Item ensures Has(r', it) <==> Has(r, it) {
      if it in r.queue { assert it == r.queue[0] || it in r.queue[1..]; }
    }
  }

  lemma StepInv(p: Plan, s: seq<Rank>, s': seq<Rank>, a: Action)
    requires p.Valid() && Inv(p, s) && Stepped(p, s, s', a)
    ensures Inv(p, s')
  {
    var r, r' := s[a.v], NextRank(s[a.v], a);
    assert RankOk(p, a.v, r);
    match a {
      case Submit(v) =>
        forall it: Item ensures Has(r', it) <==> Has(r, it) || it == Chunk(r.submitted) {}
      case Take(v) => TakeRank(p, v, r);
      case Add(v, it0) =>
        forall it: Item ensures Has(r', it) <==> Has(r, it) || it == it0 {}
      case Finish(v, it0) =>
        forall it: Item ensures Has(r', it) <==> Has(r, it) {}
        FinishRank(p, s, v, it0);
    }
  }

  lemma FinishRank(p: Plan, s: seq<Rank>, v: nat, it0: Item)
    requires p.Valid() && |s| == p.n && v < p.n && RankOk(p, v, s[v])
    requires it0 in s[v].running && CanFinish(p, s, v, it0)
    ensures RankOk(p, v, NextRank(s[v], Finish(v, it0)))
  {
    var r, r' := s[v], NextRank(s[v], Finish(v, it0));
    forall it: Item ensures Has(r', it) <==> Has(r, it) {}
    forall it: Item | Chunk(it.j) in r'.done && IsLeaf(p, v, it) ensures it in r'.done {
      if it0 == Chunk(it.j) {
        assert it.Recv? || it.SendReduce? || it.SendBcast?;
        assert RecvsDone(p, s, v, it.j) && ReduceDone(p, s, v, it.j);
      }
    }
  }

  lemma {:induction false} RunInv(p: Plan, tr: seq<seq<Rank>>, acts: seq<Action>, k: nat)
    requires p.Valid() && Run(p, tr, acts) && k < |tr|
    ensures Inv(p, tr[k])
  {
    if k > 0 {
      var i := k - 1;
      RunInv(p, tr, acts, i);
      StepInv(p, tr[i], tr[i + 1], acts[i]);
    }
  }
}
