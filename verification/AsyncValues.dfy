/** What flows through the asynchronous all-reduce: the receive buffer of every rank for every
    chunk, as `recv_onto`, `send_task`, `recv_into` and the last step of a chunk change it when
    they finish. A plan of `AllReduce` is read with its call `j` as chunk `j`.

    A plain message waits at the receiver until its receive takes it. A broadcast message is
    written straight into the receive buffer, whose slot was registered with the task tree. */
module AsyncValues {
  import opened Folds
  import opened Graphs
  import opened Topology
  import opened AsyncAllReduce
  import AR = AllReduce
  import ARP = AllReduceProgress
  import ARR = AllReduceResults
  import ARM = AllReduceMeaning

  /** The same chunks over the same trees, on pools of `m` workers. */
  ghost function Pooled<T>(q: AR.Plan<T>, m: nat): (p: Plan)
    requires q.Valid() && m >= 1
    ensures p.Valid() && p.n == q.n && p.m == m && |p.gps| == |q.xs|
    ensures forall j: nat :: j < |q.xs| ==> p.gps[j] == q.At(j).gp && p.roots[j] == q.Root(j)
  {
    assert q.IsPair(q.At(0));
    assert forall j: nat :: j < |q.xs| ==> q.IsPair(q.At(j));
    Plan(q.n, m, seq(|q.xs|, j requires 0 <= j < |q.xs| => q.At(j).gp),
         seq(|q.xs|, j requires 0 <= j < |q.xs| => q.Root(j)),
         seq(|q.xs|, j requires 0 <= j < |q.xs| => q.At(j).rdepth),
         seq(|q.xs|, j requires 0 <= j < |q.xs| => q.At(j).bdepth))
  }

  lemma LeafEdges<T>(q: AR.Plan<T>, m: nat, v: nat, it: Item)
    requires q.Valid() && m >= 1 && v < q.n
    ensures IsLeaf(Pooled(q, m), v, it) <==>
            it.j < |q.xs| && match it
                             case Chunk(_) => false
                             case Recv(j, u) => u in q.RPrevs(j, v)
                             case SendReduce(j, u) => u in q.RNexts(j, v)
                             case SendBcast(j, u) => u in q.BNexts(j, v)
  {
    assert q.Rows(q.At(it.j));
  }

  // ---------------------------------------------------------------- values

  datatype Buf<T> = Buf(count: nat, recv: T)

  datatype Vals<!T> = Vals(buf: (nat, nat) -> Buf<T>, box: (nat, nat, nat) -> T)

  ghost function SendBuf<T>(q: AR.Plan<T>, v: nat, j: nat, b: Buf<T>): T
    requires q.Shape() && v < q.n && j < |q.xs|
  {
    if q.inPlace[v] then b.recv else q.xs[j][v]
  }

  ghost function Effective<T>(q: AR.Plan<T>, v: nat, j: nat, b: Buf<T>): T
    requires q.Shape() && v < q.n && j < |q.xs|
  {
    if b.count > 0 then b.recv else SendBuf(q, v, j, b)
  }

  function SetBuf<T>(x: Vals<T>, v: nat, j: nat, b: Buf<T>): Vals<T> {
    x.(buf := (v': nat, j': nat) => if v' == v && j' == j then b else x.buf(v', j'))
  }

  function SetBox<T>(x: Vals<T>, j: nat, u: nat, v: nat, data: T): Vals<T> {
    x.(box := (j': nat, u': nat, v': nat) => if j' == j && u' == u && v' == v then data else x.box(j', u', v'))
  }

  /** What a task of rank `v` does to the buffers when it finishes. */
  ghost function Finished<T>(q: AR.Plan<T>, x: Vals<T>, v: nat, it: Item): Vals<T>
    requires q.Shape() && v < q.n && it.j < |q.xs|
  {
    var b := x.buf(v, it.j);
    match it
    case Recv(j, u) => SetBuf(x, v, j, Buf(b.count + 1, q.op(x.box(j, u, v), Effective(q, v, j, b))))
    case SendReduce(j, d) => SetBox(x, j, v, d, Effective(q, v, j, b))
    case SendBcast(j, d) => SetBuf(x, d, j, x.buf(d, j).(recv := Effective(q, v, j, b)))
    case Chunk(j) =>
      if q.BPrevs(j, v) == [] && b.count == 0 then SetBuf(x, v, j, b.(recv := SendBuf(q, v, j, b))) else x
  }

  ghost function NextVals<T>(q: AR.Plan<T>, x: Vals<T>, a: Action): Vals<T>
    requires q.Shape()
  {
    if a.Finish? && a.v < q.n && a.it.j < |q.xs| then Finished(q, x, a.v, a.it) else x
  }

  /** Nothing has been received; an in-place caller has its input in the receive buffer. */
  ghost predicate StartVals<T>(q: AR.Plan<T>, x: Vals<T>)
    requires q.Shape()
  {
    forall v: nat, j: nat :: v < q.n && j < |q.xs| ==>
      x.buf(v, j).count == 0 && (q.inPlace[v] ==> x.buf(v, j).recv == q.xs[j][v])
  }

  /** The buffers after the first `i` actions of a run. */
  ghost function ValsAt<T>(q: AR.Plan<T>, x0: Vals<T>, acts: seq<Action>, i: nat): Vals<T>
    requires q.Shape() && i <= |acts|
  {
    if i == 0 then x0 else NextVals(q, ValsAt(q, x0, acts, i - 1), acts[i - 1])
  }

  // ---------------------------------------------------------------- what has finished before what

  /** A task is there only after the steps before its own. */
  ghost predicate Ordered(p: Plan, s: seq<Rank>, v: nat)
    requires p.Valid() && |s| == p.n && v < p.n
  {
    && (forall it: Item :: Has(s[v], it) && IsLeaf(p, v, it) ==> Ready(p, s, v, it))
    && (forall it: Item :: it.Recv? && it in s[v].done && IsLeaf(p, v, it) ==> CanFinish(p, s, v, it))
    && (forall it: Item :: it.Chunk? && it in s[v].done ==> CanFinish(p, s, v, it))
  }

  ghost predicate DoneGrows(s: seq<Rank>, s': seq<Rank>) {
    |s| == |s'| && forall v :: 0 <= v < |s| ==> s[v].done <= s'[v].done
  }

  lemma ReadyStays(p: Plan, s: seq<Rank>, s': seq<Rank>, v: nat, it: Item)
    requires p.Valid() && |s| == p.n && v < p.n && DoneGrows(s, s')
    ensures IsLeaf(p, v, it) && Ready(p, s, v, it) ==> Ready(p, s', v, it)
    ensures CanFinish(p, s, v, it) ==> CanFinish(p, s', v, it)
  {
  }

  lemma StepReady(p: Plan, s: seq<Rank>, s': seq<Rank>, a: Action, v: nat, it: Item)
    requires p.Valid() && Inv(p, s) && Stepped(p, s, s', a) && DoneGrows(s, s') && v < p.n && Ordered(p, s, v)
    requires Has(s'[v], it) && IsLeaf(p, v, it)
    ensures Ready(p, s', v, it)
  {
    assert Has(s[v], it) || a == Add(v, it);
    ReadyStays(p, s, s', v, it);
  }

  lemma StepFinished(p: Plan, s: seq<Rank>, s': seq<Rank>, a: Action, v: nat, it: Item)
    requires p.Valid() && Inv(p, s) && Stepped(p, s, s', a) && DoneGrows(s, s') && v < p.n && Ordered(p, s, v)
    requires it in s'[v].done && (it.Chunk? || (it.Recv? && IsLeaf(p, v, it)))
    ensures CanFinish(p, s', v, it)
  {
    assert it in s[v].done || a == Finish(v, it);
    ReadyStays(p, s, s', v, it);
  }

  lemma StepDone(p: Plan, s: seq<Rank>, s': seq<Rank>, a: Action)
    requires p.Valid() && Stepped(p, s, s', a)
    ensures DoneGrows(s, s')
  {
  }

  lemma StepOrdered(p: Plan, s: seq<Rank>, s': seq<Rank>, a: Action, v: nat)
    requires p.Valid() && Inv(p, s) && Stepped(p, s, s', a) && v < p.n && Ordered(p, s, v)
    ensures Ordered(p, s', v)
  {
    StepDone(p, s, s', a);
    forall it: Item | Has(s'[v], it) && IsLeaf(p, v, it) ensures Ready(p, s', v, it) {
      StepReady(p, s, s', a, v, it);
    }
    forall it: Item | it in s'[v].done && (it.Chunk? || (it.Recv? && IsLeaf(p, v, it)))
      ensures CanFinish(p, s', v, it)
    {
      StepFinished(p, s, s', a, v, it);
    }
  }

  /** All the facts about where tasks are. */
  ghost predicate Placed(p: Plan, s: seq<Rank>)
    requires p.Valid()
  {
    Inv(p, s) && forall v: nat :: v < p.n ==> Ordered(p, s, v)
  }

  lemma {:induction false} RunPlaced(p: Plan, tr: seq<seq<Rank>>, acts: seq<Action>, k: nat)
    requires p.Valid() && Run(p, tr, acts) && k < |tr|
    ensures Placed(p, tr[k])
    decreases k
  {
    RunInv(p, tr, acts, k);
    if k > 0 {
      var i := k - 1;
      RunPlaced(p, tr, acts, i);
      forall v: nat | v < p.n ensures Ordered(p, tr[k], v) { StepOrdered(p, tr[i], tr[k], acts[i], v); }
    }
  }

  // ---------------------------------------------------------------- the stages of one chunk

  /** The plan, its pools and a state of them. */
  ghost predicate Setting<T>(q: AR.Plan<T>, m: nat, s: seq<Rank>) {
    q.Valid() && m >= 1 && Placed(Pooled(q, m), s)
  }

  ghost predicate Reduced<T>(q: AR.Plan<T>, m: nat, s: seq<Rank>, v: nat, j: nat)
    requires Setting(q, m, s) && v < q.n
  {
    ReduceDone(Pooled(q, m), s, v, j)
  }

  /** The broadcast has reached rank `v` below the root. */
  ghost predicate Reached<T>(q: AR.Plan<T>, s: seq<Rank>, v: nat, j: nat)
    requires q.Valid() && |s| == q.n && v < q.n
  {
    v != q.Root(j) && SendBcast(j, v) in s[q.BParent(j, v)].done
  }

  /** When the parent has left the reduce stage, so has the child. */
  lemma ReducedChild<T>(q: AR.Plan<T>, m: nat, s: seq<Rank>, v: nat, j: nat)
    requires Setting(q, m, s) && v < q.n && j < |q.xs| && v != q.Root(j)
    requires Reduced(q, m, s, q.RParent(j, v), j)
    ensures Reduced(q, m, s, v, j)
  {
    var p, u := Pooled(q, m), q.RParent(j, v);
    LeafEdges(q, m, u, Recv(j, v));
    assert Ordered(p, s, u) && Recv(j, v) in s[u].done;
    assert CanFinish(p, s, u, Recv(j, v));
    assert Ordered(p, s, v) && Has(s[v], SendReduce(j, u));
    forall it: Item | it.SendReduce? && it.j == j && IsLeaf(p, v, it) ensures it in s[v].done {
      LeafEdges(q, m, v, it);
      assert it == SendReduce(j, u);
    }
    LeafEdges(q, m, v, SendReduce(j, u));
    assert Ready(p, s, v, SendReduce(j, u));
  }

  lemma {:induction false} AllReduced<T>(q: AR.Plan<T>, m: nat, s: seq<Rank>, v: nat, j: nat)
    requires Setting(q, m, s) && v < q.n && j < |q.xs| && q.Root(j) < q.n && Reduced(q, m, s, q.Root(j), j)
    ensures Reduced(q, m, s, v, j)
    decreases q.RDepth(j, v)
  {
    if v != q.Root(j) {
      AllReduced(q, m, s, q.RParent(j, v), j);
      ReducedChild(q, m, s, v, j);
    }
  }

  /** A broadcast send is there only after the root, and so every rank, left the reduce stage. */
  lemma {:induction false} BcastAfterReduce<T>(q: AR.Plan<T>, m: nat, s: seq<Rank>, u: nat, d: nat, j: nat)
    requires Setting(q, m, s) && u < q.n && j < |q.xs| && d in q.BNexts(j, u) && Has(s[u], SendBcast(j, d))
    ensures q.Root(j) < q.n && Reduced(q, m, s, q.Root(j), j)
    decreases q.BDepth(j, u)
  {
    var p := Pooled(q, m);
    AR.RootInRange(q, j);
    LeafEdges(q, m, u, SendBcast(j, d));
    assert Ordered(p, s, u) && Ready(p, s, u, SendBcast(j, d));
    if u != q.Root(j) {
      ArrivedIsReached(q, m, s, u, j);
      BcastAfterReduce(q, m, s, q.BParent(j, u), u, j);
    }
  }

  lemma ArrivedIsReached<T>(q: AR.Plan<T>, m: nat, s: seq<Rank>, v: nat, j: nat)
    requires Setting(q, m, s) && v < q.n && j < |q.xs|
    ensures Arrived(Pooled(q, m), s, v, j) <==> v == q.Root(j) || Reached(q, s, v, j)
  {
    assert q.IsPair(q.At(j)) && q.Rows(q.At(j));
    if v != q.Root(j) { assert q.BPrevs(j, v) == [q.BParent(j, v)]; }
  }

  /** Once the broadcast has reached a rank, that rank's reduce stage is over. */
  lemma ReachedIsReduced<T>(q: AR.Plan<T>, m: nat, s: seq<Rank>, v: nat, j: nat)
    requires Setting(q, m, s) && v < q.n && j < |q.xs| && Reached(q, s, v, j)
    ensures Reduced(q, m, s, v, j)
  {
    BcastAfterReduce(q, m, s, q.BParent(j, v), v, j);
    AllReduced(q, m, s, v, j);
  }

  // ---------------------------------------------------------------- what the buffers hold

  /** The children a rank has heard from. */
  ghost function Heard<T>(q: AR.Plan<T>, s: seq<Rank>, v: nat, j: nat): set<nat>
    requires q.Shape() && |s| == q.n && v < q.n
  {
    set u | u in q.RPrevs(j, v) && Recv(j, u) in s[v].done
  }

  ghost predicate BufOk<T>(q: AR.Plan<T>, acc: ARR.Account<T>, s: seq<Rank>, x: Vals<T>, v: nat, j: nat)
    requires q.Valid() && |s| == q.n && v < q.n && j < |q.xs|
  {
    var b := x.buf(v, j);
    && (b.count > 0 <==> Heard(q, s, v, j) != {})
    && (if Reached(q, s, v, j) || Chunk(j) in s[v].done
        then b.recv == ARR.Outcome(q, acc, j, v)
        else Effective(q, v, j, b) == acc(j, v, Heard(q, s, v, j)))
  }

  ghost predicate BoxOk<T>(q: AR.Plan<T>, acc: ARR.Account<T>, s: seq<Rank>, x: Vals<T>, v: nat, j: nat)
    requires q.Valid() && |s| == q.n && v < q.n && j < |q.xs|
  {
    forall d: nat :: d in q.RNexts(j, v) && SendReduce(j, d) in s[v].done ==>
      x.box(j, v, d) == ARR.Contribution(q, acc, j, v)
  }

  ghost predicate ValsOk<T>(q: AR.Plan<T>, acc: ARR.Account<T>, s: seq<Rank>, x: Vals<T>)
    requires q.Valid() && |s| == q.n
  {
    forall v: nat, j: nat :: v < q.n && j < |q.xs| ==> BufOk(q, acc, s, x, v, j) && BoxOk(q, acc, s, x, v, j)
  }

  // ---------------------------------------------------------------- every step keeps this

  /** A state, its buffers, and a task that can finish. */
  ghost predicate Finishing<T>(q: AR.Plan<T>, m: nat, acc: ARR.Account<T>, s: seq<Rank>, x: Vals<T>, v: nat, it: Item) {
    && Setting(q, m, s) && ARR.Explains(q, acc) && ValsOk(q, acc, s, x)
    && v < q.n && it in s[v].running && CanFinish(Pooled(q, m), s, v, it)
  }

  ghost function DoneBy(s: seq<Rank>, v: nat, it: Item): seq<Rank>
    requires v < |s|
  {
    s[v := NextRank(s[v], Finish(v, it))]
  }

  lemma RunningTask<T>(q: AR.Plan<T>, m: nat, s: seq<Rank>, v: nat, it: Item)
    requires Setting(q, m, s) && v < q.n && it in s[v].running
    ensures it.j < |q.xs| && it !in s[v].done
    ensures !it.Chunk? ==> IsLeaf(Pooled(q, m), v, it) && Chunk(it.j) !in s[v].done
    ensures !it.Chunk? ==> Ready(Pooled(q, m), s, v, it)
  {
    var p := Pooled(q, m);
    assert RankOk(p, v, s[v]) && Ordered(p, s, v);
    assert Has(s[v], it);
    if it.Chunk? { assert it == Chunk(it.j); }
  }

  /** While a receive or reduce send is running, the broadcast has not come back. */
  lemma NotYetReached<T>(q: AR.Plan<T>, m: nat, s: seq<Rank>, v: nat, it: Item)
    requires Setting(q, m, s) && v < q.n && it in s[v].running && (it.Recv? || it.SendReduce?)
    ensures it.j < |q.xs| && !Reached(q, s, v, it.j)
  {
    RunningTask(q, m, s, v, it);
    if Reached(q, s, v, it.j) { ReachedIsReduced(q, m, s, v, it.j); }
  }

  /** With its receives done, a rank has heard from all its children. */
  lemma HeardAll<T>(q: AR.Plan<T>, m: nat, s: seq<Rank>, v: nat, j: nat)
    requires Setting(q, m, s) && v < q.n && j < |q.xs| && RecvsDone(Pooled(q, m), s, v, j)
    ensures Heard(q, s, v, j) == q.RPrevs(j, v)
  {
    forall u | u in q.RPrevs(j, v) ensures Recv(j, u) in s[v].done { LeafEdges(q, m, v, Recv(j, u)); }
  }

  lemma FinishRecv<T>(q: AR.Plan<T>, m: nat, acc: ARR.Account<T>, s: seq<Rank>, x: Vals<T>, v: nat, j: nat, u: nat)
    requires Finishing(q, m, acc, s, x, v, Recv(j, u)) && j < |q.xs|
    ensures BufOk(q, acc, DoneBy(s, v, Recv(j, u)), Finished(q, x, v, Recv(j, u)), v, j)
  {
    var it := Recv(j, u);
    RunningTask(q, m, s, v, it);
    NotYetReached(q, m, s, v, it);
    LeafEdges(q, m, v, it);
    ChildSent(q, m, acc, s, x, v, j, u);
    assert BufOk(q, acc, s, x, v, j);
    AddedBuf(q, acc, s, x, v, j, u);
  }

  lemma AddedBuf<T>(q: AR.Plan<T>, acc: ARR.Account<T>, s: seq<Rank>, x: Vals<T>, v: nat, j: nat, u: nat)
    requires q.Valid() && ARR.Explains(q, acc) && |s| == q.n && v < q.n && j < |q.xs| && BufOk(q, acc, s, x, v, j)
    requires u in q.RPrevs(j, v) && u < q.n && Recv(j, u) !in s[v].done
    requires x.box(j, u, v) == ARR.Contribution(q, acc, j, u)
    requires !Reached(q, s, v, j) && Chunk(j) !in s[v].done
    ensures BufOk(q, acc, DoneBy(s, v, Recv(j, u)), Finished(q, x, v, Recv(j, u)), v, j)
  {
    var s', got := DoneBy(s, v, Recv(j, u)), Heard(q, s, v, j);
    assert ARR.AddsOne(q, acc, j, v, u, got);
    assert Heard(q, s', v, j) == got + {u};
    assert Reached(q, s', v, j) == Reached(q, s, v, j);
  }

  lemma ChildSent<T>(q: AR.Plan<T>, m: nat, acc: ARR.Account<T>, s: seq<Rank>, x: Vals<T>, v: nat, j: nat, u: nat)
    requires Finishing(q, m, acc, s, x, v, Recv(j, u)) && j < |q.xs| && u in q.RPrevs(j, v)
    ensures u < q.n && x.box(j, u, v) == ARR.Contribution(q, acc, j, u)
  {
    ARP.PeerInRange(q, j, v, u);
    AR.CallEnds(q, j, u, v);
    assert BoxOk(q, acc, s, x, u, j);
  }

  lemma FinishReduce<T>(q: AR.Plan<T>, m: nat, acc: ARR.Account<T>, s: seq<Rank>, x: Vals<T>, v: nat, j: nat, d: nat)
    requires Finishing(q, m, acc, s, x, v, SendReduce(j, d)) && j < |q.xs|
    ensures Effective(q, v, j, x.buf(v, j)) == ARR.Contribution(q, acc, j, v)
  {
    RunningTask(q, m, s, v, SendReduce(j, d));
    NotYetReached(q, m, s, v, SendReduce(j, d));
    HeardAll(q, m, s, v, j);
    assert BufOk(q, acc, s, x, v, j);
  }

  lemma FinishBcast<T>(q: AR.Plan<T>, m: nat, acc: ARR.Account<T>, s: seq<Rank>, x: Vals<T>, v: nat, j: nat, d: nat)
    requires Finishing(q, m, acc, s, x, v, SendBcast(j, d)) && j < |q.xs|
    ensures d < q.n && d != q.Root(j) && q.BParent(j, d) == v
    ensures Effective(q, v, j, x.buf(v, j)) == ARR.Outcome(q, acc, j, d)
  {
    RunningTask(q, m, s, v, SendBcast(j, d));
    LeafEdges(q, m, v, SendBcast(j, d));
    BcastEnds(q, j, v, d);
    HeardAll(q, m, s, v, j);
    ArrivedIsReached(q, m, s, v, j);
    assert BufOk(q, acc, s, x, v, j);
    Forwards(q, acc, s, x, v, j);
  }

  lemma BcastEnds<T>(q: AR.Plan<T>, j: nat, v: nat, d: nat)
    requires q.Valid() && v < q.n && d in q.BNexts(j, v)
    ensures d < q.n && d != q.Root(j) && q.BParent(j, d) == v
  {
    assert q.IsPair(q.At(j)) && q.Rows(q.At(j));
    assert d in q.At(j).gp.bcast.nexts[v];
    AR.CallEnds(q, j, v, d);
  }

  /** After its reduce stage, the root, and a rank the broadcast has reached, send on what
      `Forwarded` says. */
  lemma Forwards<T>(q: AR.Plan<T>, acc: ARR.Account<T>, s: seq<Rank>, x: Vals<T>, v: nat, j: nat)
    requires q.Valid() && ARR.Explains(q, acc) && |s| == q.n && v < q.n && j < |q.xs| && BufOk(q, acc, s, x, v, j)
    requires Heard(q, s, v, j) == q.RPrevs(j, v) && (v == q.Root(j) || Reached(q, s, v, j)) && Chunk(j) !in s[v].done
    ensures Effective(q, v, j, x.buf(v, j)) == ARR.Forwarded(q, acc, j, v)
  {
    assert acc(j, v, {}) == q.xs[j][v];
  }

  lemma FinishChunk<T>(q: AR.Plan<T>, m: nat, acc: ARR.Account<T>, s: seq<Rank>, x: Vals<T>, v: nat, j: nat)
    requires Finishing(q, m, acc, s, x, v, Chunk(j)) && j < |q.xs|
    ensures BufOk(q, acc, DoneBy(s, v, Chunk(j)), Finished(q, x, v, Chunk(j)), v, j)
  {
    var s' := DoneBy(s, v, Chunk(j));
    RunningTask(q, m, s, v, Chunk(j));
    HeardAll(q, m, s, v, j);
    ArrivedIsReached(q, m, s, v, j);
    assert q.IsPair(q.At(j)) && q.Rows(q.At(j));
    if v != q.Root(j) { assert q.BPrevs(j, v) == [q.BParent(j, v)]; }
    assert BufOk(q, acc, s, x, v, j);
    assert Heard(q, s', v, j) == Heard(q, s, v, j) && Reached(q, s', v, j) == Reached(q, s, v, j);
  }

  // ---------------------------------------------------------------- the other buffers

  /** A task that finishes changes at most one buffer and what is said of it. */
  ghost predicate Concerns(it: Item, v: nat, w: nat, i: nat) {
    it.j == i && match it
                 case Recv(_, _) => w == v
                 case SendReduce(_, _) => false
                 case SendBcast(_, d) => w == d
                 case Chunk(_) => w == v
  }

  lemma OtherBuf<T>(q: AR.Plan<T>, acc: ARR.Account<T>, s: seq<Rank>, x: Vals<T>, v: nat, it: Item, w: nat, i: nat)
    requires q.Valid() && |s| == q.n && v < q.n && w < q.n && i < |q.xs| && it.j < |q.xs| && !Concerns(it, v, w, i)
    requires BufOk(q, acc, s, x, w, i)
    ensures BufOk(q, acc, DoneBy(s, v, it), Finished(q, x, v, it), w, i)
  {
    var s' := DoneBy(s, v, it);
    assert Heard(q, s', w, i) == Heard(q, s, w, i);
    assert Reached(q, s', w, i) == Reached(q, s, w, i);
    assert Finished(q, x, v, it).buf(w, i) == x.buf(w, i);
  }

  lemma ReachedBuf<T>(q: AR.Plan<T>, m: nat, acc: ARR.Account<T>, s: seq<Rank>, x: Vals<T>, v: nat, j: nat, d: nat)
    requires Finishing(q, m, acc, s, x, v, SendBcast(j, d)) && j < |q.xs|
    ensures d < q.n && BufOk(q, acc, DoneBy(s, v, SendBcast(j, d)), Finished(q, x, v, SendBcast(j, d)), d, j)
  {
    var s' := DoneBy(s, v, SendBcast(j, d));
    FinishBcast(q, m, acc, s, x, v, j, d);
    assert BufOk(q, acc, s, x, d, j);
    assert Heard(q, s', d, j) == Heard(q, s, d, j) && Reached(q, s', d, j);
  }

  lemma FinishBuf<T>(q: AR.Plan<T>, m: nat, acc: ARR.Account<T>, s: seq<Rank>, x: Vals<T>, v: nat, it: Item,
                     w: nat, i: nat)
    requires Finishing(q, m, acc, s, x, v, it) && it.j < |q.xs| && w < q.n && i < |q.xs|
    ensures BufOk(q, acc, DoneBy(s, v, it), Finished(q, x, v, it), w, i)
  {
    if Concerns(it, v, w, i) {
      match it {
        case Recv(j, u) => FinishRecv(q, m, acc, s, x, v, j, u);
        case SendBcast(j, d) => ReachedBuf(q, m, acc, s, x, v, j, d);
        case Chunk(j) => FinishChunk(q, m, acc, s, x, v, j);
        case _ =>
      }
    } else {
      assert BufOk(q, acc, s, x, w, i);
      OtherBuf(q, acc, s, x, v, it, w, i);
    }
  }

  lemma FinishBox<T>(q: AR.Plan<T>, m: nat, acc: ARR.Account<T>, s: seq<Rank>, x: Vals<T>, v: nat, it: Item,
                     w: nat, i: nat)
    requires Finishing(q, m, acc, s, x, v, it) && it.j < |q.xs| && w < q.n && i < |q.xs|
    ensures BoxOk(q, acc, DoneBy(s, v, it), Finished(q, x, v, it), w, i)
  {
    assert BoxOk(q, acc, s, x, w, i);
    if it.SendReduce? && w == v && it.j == i {
      FinishReduce(q, m, acc, s, x, v, i, it.peer);
      SentBox(q, acc, s, x, v, i, it.peer);
    } else {
      OtherBox(q, acc, s, x, v, it, w, i);
    }
  }

  lemma SentBox<T>(q: AR.Plan<T>, acc: ARR.Account<T>, s: seq<Rank>, x: Vals<T>, v: nat, j: nat, d: nat)
    requires q.Valid() && |s| == q.n && v < q.n && j < |q.xs| && BoxOk(q, acc, s, x, v, j)
    requires Effective(q, v, j, x.buf(v, j)) == ARR.Contribution(q, acc, j, v)
    ensures BoxOk(q, acc, DoneBy(s, v, SendReduce(j, d)), Finished(q, x, v, SendReduce(j, d)), v, j)
  {
  }

  lemma OtherBox<T>(q: AR.Plan<T>, acc: ARR.Account<T>, s: seq<Rank>, x: Vals<T>, v: nat, it: Item, w: nat, i: nat)
    requires q.Valid() && |s| == q.n && v < q.n && w < q.n && i < |q.xs| && it.j < |q.xs| && BoxOk(q, acc, s, x, w, i)
    requires !(it.SendReduce? && w == v && it.j == i)
    ensures BoxOk(q, acc, DoneBy(s, v, it), Finished(q, x, v, it), w, i)
  {
  }

  lemma SameVals<T>(q: AR.Plan<T>, acc: ARR.Account<T>, s: seq<Rank>, s': seq<Rank>, x: Vals<T>)
    requires q.Valid() && |s| == |s'| == q.n && ValsOk(q, acc, s, x)
    requires forall v: nat :: v < q.n ==> s'[v].done == s[v].done
    ensures ValsOk(q, acc, s', x)
  {
    forall v: nat, j: nat | v < q.n && j < |q.xs|
      ensures BufOk(q, acc, s', x, v, j) && BoxOk(q, acc, s', x, v, j)
    {
      assert BufOk(q, acc, s, x, v, j) && BoxOk(q, acc, s, x, v, j);
      assert Heard(q, s', v, j) == Heard(q, s, v, j);
    }
  }

  lemma FinishVals<T>(q: AR.Plan<T>, m: nat, acc: ARR.Account<T>, s: seq<Rank>, x: Vals<T>, v: nat, it: Item)
    requires Finishing(q, m, acc, s, x, v, it) && it.j < |q.xs|
    ensures ValsOk(q, acc, DoneBy(s, v, it), Finished(q, x, v, it))
  {
    forall w: nat, i: nat | w < q.n && i < |q.xs|
      ensures BufOk(q, acc, DoneBy(s, v, it), Finished(q, x, v, it), w, i)
      ensures BoxOk(q, acc, DoneBy(s, v, it), Finished(q, x, v, it), w, i)
    {
      FinishBuf(q, m, acc, s, x, v, it, w, i);
      FinishBox(q, m, acc, s, x, v, it, w, i);
    }
  }

  lemma StepVals<T>(q: AR.Plan<T>, m: nat, acc: ARR.Account<T>, s: seq<Rank>, s': seq<Rank>, a: Action, x: Vals<T>)
    requires Setting(q, m, s) && ARR.Explains(q, acc) && ValsOk(q, acc, s, x) && Stepped(Pooled(q, m), s, s', a)
    ensures |s'| == q.n && ValsOk(q, acc, s', NextVals(q, x, a))
  {
    if a.Finish? {
      RunningTask(q, m, s, a.v, a.it);
      FinishVals(q, m, acc, s, x, a.v, a.it);
    } else {
      SameVals(q, acc, s, s', x);
    }
  }

  lemma StartOk<T>(q: AR.Plan<T>, acc: ARR.Account<T>, s: seq<Rank>, x: Vals<T>)
    requires q.Valid() && ARR.Explains(q, acc) && StartVals(q, x) && |s| == q.n
    requires forall v: nat :: v < q.n ==> s[v].done == {}
    ensures ValsOk(q, acc, s, x)
  {
    forall v: nat, j: nat | v < q.n && j < |q.xs| ensures BufOk(q, acc, s, x, v, j) && BoxOk(q, acc, s, x, v, j) {
      assert Heard(q, s, v, j) == {};
      assert acc(j, v, {}) == q.xs[j][v];
    }
  }

  lemma {:induction false} RunVals<T>(q: AR.Plan<T>, m: nat, acc: ARR.Account<T>, tr: seq<seq<Rank>>,
                                      acts: seq<Action>, x0: Vals<T>, k: nat)
    requires q.Valid() && m >= 1 && ARR.Explains(q, acc) && StartVals(q, x0) && k < |tr|
    requires Run(Pooled(q, m), tr, acts)
    ensures |tr[k]| == q.n && ValsOk(q, acc, tr[k], ValsAt(q, x0, acts, k))
    decreases k
  {
    if k == 0 {
      FirstVals(q, m, acc, tr, acts, x0);
    } else {
      RunVals(q, m, acc, tr, acts, x0, k - 1);
      OneVals(q, m, acc, tr, acts, ValsAt(q, x0, acts, k - 1), k - 1);
    }
  }

  lemma FirstVals<T>(q: AR.Plan<T>, m: nat, acc: ARR.Account<T>, tr: seq<seq<Rank>>, acts: seq<Action>, x0: Vals<T>)
    requires q.Valid() && m >= 1 && ARR.Explains(q, acc) && StartVals(q, x0) && Run(Pooled(q, m), tr, acts)
    ensures |tr[0]| == q.n && ValsOk(q, acc, tr[0], x0)
  {
    StartOk(q, acc, tr[0], x0);
  }

  lemma OneVals<T>(q: AR.Plan<T>, m: nat, acc: ARR.Account<T>, tr: seq<seq<Rank>>, acts: seq<Action>, x: Vals<T>,
                   i: nat)
    requires q.Valid() && m >= 1 && ARR.Explains(q, acc) && i < |acts|
    requires Run(Pooled(q, m), tr, acts)
    requires |tr[i]| == q.n && ValsOk(q, acc, tr[i], x)
    ensures |tr[i + 1]| == q.n && ValsOk(q, acc, tr[i + 1], NextVals(q, x, acts[i]))
  {
    RunPlaced(Pooled(q, m), tr, acts, i);
    assert Stepped(Pooled(q, m), tr[i], tr[i + 1], acts[i]);
    StepVals(q, m, acc, tr[i], tr[i + 1], acts[i], x);
  }

  // ---------------------------------------------------------------- results

  /** In every reachable state, a chunk that is done at a rank left exactly the outcome that
      the same call over the same trees leaves in the protocol without a pool. */
  lemma AsyncResults<T>(q: AR.Plan<T>, m: nat, acc: ARR.Account<T>, tr: seq<seq<Rank>>, acts: seq<Action>,
                        x0: Vals<T>, k: nat, v: nat, j: nat)
    requires q.Valid() && m >= 1 && ARR.Explains(q, acc) && StartVals(q, x0) && k < |tr| && v < q.n && j < |q.xs|
    requires Run(Pooled(q, m), tr, acts)
    ensures v < |tr[k]| &&
            (Chunk(j) in tr[k][v].done ==> ValsAt(q, x0, acts, k).buf(v, j).recv == ARR.Outcome(q, acc, j, v))
  {
    RunVals(q, m, acc, tr, acts, x0, k);
    assert BufOk(q, acc, tr[k], ValsAt(q, x0, acts, k), v, j);
  }

  /** The fold, where no rank forwards a chunk without having received. */
  lemma AsyncIsFold<T(!new)>(q: AR.Plan<T>, m: nat, tr: seq<seq<Rank>>, acts: seq<Action>, x0: Vals<T>,
                             k: nat, v: nat, j: nat)
    requires q.Valid() && m >= 1 && StartVals(q, x0) && k < |tr| && v < q.n && j < |q.xs|
    requires Run(Pooled(q, m), tr, acts)
    requires Associative(q.op) && Commutative(q.op) && ARM.ForwardersReceive(q, j)
    ensures v < |tr[k]| &&
            (Chunk(j) in tr[k][v].done ==> ValsAt(q, x0, acts, k).buf(v, j).recv == LeftFold(q.op, q.xs[j]))
  {
    var other := q.xs[j][v];
    ARM.FoldExplains(q, other);
    AsyncResults(q, m, ARM.FoldAccount(q, other), tr, acts, x0, k, v, j);
    ARM.RootTotal(q, other, j);
    ARM.EveryoneGetsTheTotal(q, ARM.FoldAccount(q, other), j, v);
  }

  /** And on rings exactly what the ring leaves in the protocol without a pool. */
  lemma AsyncRing<T>(q: AR.Plan<T>, m: nat, tr: seq<seq<Rank>>, acts: seq<Action>, x0: Vals<T>, k: nat, v: nat, j: nat)
    requires ARM.IsRing(q) && q.Valid() && m >= 1 && StartVals(q, x0) && k < |tr| && v < q.n && j < |q.xs|
    requires Run(Pooled(q, m), tr, acts)
    ensures v < |tr[k]| && (Chunk(j) in tr[k][v].done ==>
              var r, first := q.Root(j), Along(q.n, q.Root(j), 1);
              ValsAt(q, x0, acts, k).buf(v, j).recv ==
              if v == r || v == first || q.inPlace[first]
              then LeftFold(q.op, ARM.RingOrder(q.xs[j], r))
              else q.xs[j][first])
  {
    var other := q.xs[j][v];
    ARM.RingExplains(q, other);
    AsyncResults(q, m, ARM.RingAccount(q, other), tr, acts, x0, k, v, j);
    ARM.RingOutcome(q, other, j, v);
  }

  /** Both runtimes leave the same in whatever interleavings: the chunk that one has done, and the
      call that the other has returned from. */
  lemma BothRuntimesAgree<T>(q: AR.Plan<T>, m: nat, acc: ARR.Account<T>, tr: seq<seq<Rank>>, acts: seq<Action>,
                             x0: Vals<T>, k: nat, tr2: seq<AR.Sys<T>>, acts2: seq<AR.Action>, i: nat, v: nat, j: nat)
    requires q.Valid() && m >= 1 && ARR.Explains(q, acc) && StartVals(q, x0) && v < q.n && j < |q.xs|
    requires Run(Pooled(q, m), tr, acts) && k < |tr| && |tr[k]| == q.n
    requires AR.Run(q, tr2, acts2) && i < |tr2|
    requires Chunk(j) in tr[k][v].done && j < tr2[i].ranks[v].round
    ensures j < |tr2[i].ranks[v].outs|
    ensures ValsAt(q, x0, acts, k).buf(v, j).recv == tr2[i].ranks[v].outs[j]
  {
    AsyncResults(q, m, acc, tr, acts, x0, k, v, j);
    ARR.ResultsAreDetermined(q, acc, tr2, acts2, i, v, j);
  }
}
