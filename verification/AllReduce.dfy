/** All ranks of one session running `run_graphs_multi_thread` back to back, one call after
    the other, as one transition system. Every call goes over a graph pair of its own, as
    the chunks of one large all-reduce do.

    A rank works through, for each call: one mailbox receive per reduce-graph
    predecessor (any order), one send per reduce-graph successor, the `forward`
    decision, one slot receive per broadcast-graph predecessor (in order), one send
    per broadcast-graph successor (any order). A `to...` field holds what is left of
    that stage; a stage starts when everything before it is empty.

    Each ordered pair of ranks has one FIFO byte stream (`wire`), drained by one
    handler at the receiving side. The handler puts a plain message into the mailbox
    channel of capacity one (`box`), and writes a `wait_recv_buf` message straight
    into the receive buffer once that buffer has been registered.

    `stamp` is the index of the call that sent the message. No step reads it: it is
    there so that "no call consumes a message of another call" can be stated. */
module AllReduce {
  import opened Graphs

  /** A graph pair with its root, and depths that show that it is a pair of trees. */
  datatype Tree = Tree(gp: GraphPair, root: nat, rdepth: seq<nat>, bdepth: seq<nat>)

  datatype Plan<!T> = Plan(
    n: nat,
    trees: seq<Tree>,
    choice: nat -> nat,     // the pair that each call goes over
    op: (T, T) -> T,
    inPlace: seq<bool>,     // send and recv are the same buffer at this rank
    xs: seq<seq<T>>)        // the input of each rank in each call
  {
    /** Every table has one row per rank. */
    ghost predicate Shape() {
      && |inPlace| == n
      && (forall k: nat :: k < |xs| ==> |xs[k]| == n)
      && (forall k: nat :: choice(k) < |trees|)
      && forall i: nat :: i < |trees| ==> Rows(trees[i])
    }
    ghost predicate Rows(t: Tree) {
      |t.gp.reduce.nexts| == |t.gp.reduce.prevs| == |t.gp.bcast.nexts| == |t.gp.bcast.prevs| == n
    }
    ghost predicate Valid() {
      Shape() && trees != [] && forall i: nat :: i < |trees| ==> IsPair(trees[i])
    }
    ghost predicate IsPair(t: Tree) {
      TreePair(t.gp, n, t.root, t.rdepth, t.bdepth)
    }
    function At(k: nat): Tree
      requires choice(k) < |trees|
    {
      trees[choice(k)]
    }
    function Root(k: nat): nat requires choice(k) < |trees| { At(k).root }
    ghost function RPrevs(k: nat, v: nat): set<nat> requires Shape() && v < n
    {
      assert Rows(At(k));
      Elems(At(k).gp.reduce.prevs[v])
    }
    ghost function RNexts(k: nat, v: nat): set<nat> requires Shape() && v < n
    {
      assert Rows(At(k));
      Elems(At(k).gp.reduce.nexts[v])
    }
    ghost function BPrevs(k: nat, v: nat): seq<nat> requires Shape() && v < n
    {
      assert Rows(At(k));
      At(k).gp.bcast.prevs[v]
    }
    ghost function BNexts(k: nat, v: nat): set<nat> requires Shape() && v < n
    {
      assert Rows(At(k));
      Elems(At(k).gp.bcast.nexts[v])
    }
    /** Depth of a rank below the root of a call's reduce tree, and of its broadcast tree. */
    ghost function RDepth(k: nat, v: nat): nat
      requires Valid() && v < n
    {
      assert IsPair(At(k));
      At(k).rdepth[v]
    }
    ghost function BDepth(k: nat, v: nat): nat
      requires Valid() && v < n
    {
      assert IsPair(At(k));
      At(k).bdepth[v]
    }
    /** The parents of a rank that is not the root. */
    ghost function RParent(k: nat, v: nat): (q: nat)
      requires Valid() && v < n && v != Root(k)
      ensures q < n && RNexts(k, v) == {q} && v in RPrevs(k, q) && RDepth(k, q) < RDepth(k, v)
    {
      assert IsPair(At(k)) && Rows(At(k));
      var t := At(k);
      assert ParentOk(n, v, t.gp.reduce.nexts, t.rdepth);
      assert t.gp.reduce.nexts[v][0] in t.gp.reduce.nexts[v];
      t.gp.reduce.nexts[v][0]
    }
    ghost function BParent(k: nat, v: nat): (q: nat)
      requires Valid() && v < n && v != Root(k)
      ensures q < n && BPrevs(k, v) == [q] && v in BNexts(k, q) && BDepth(k, q) < BDepth(k, v)
    {
      assert IsPair(At(k)) && Rows(At(k));
      var t := At(k);
      assert ParentOk(n, v, t.gp.bcast.prevs, t.bdepth);
      assert t.gp.bcast.prevs[v][0] in t.gp.bcast.prevs[v];
      t.gp.bcast.prevs[v][0]
    }
  }

  datatype Slot = Idle | Registered | Delivered

  datatype Rank<T> = Rank(
    round: nat,
    toRecvR: set<nat>, toSendR: set<nat>,
    entered: bool,
    toRecvB: seq<nat>, slot: Slot, toSendB: set<nat>,
    recvCount: nat, recv: T,
    outs: seq<T>)           // the receive buffer as each finished call left it

  datatype Msg<T> = Msg(waitRecvBuf: bool, data: T, stamp: nat)

  datatype Sys<T> = Sys(
    ranks: seq<Rank<T>>,
    wire: map<(nat, nat), seq<Msg<T>>>,
    box: map<(nat, nat), seq<Msg<T>>>)
  {
    function Wire(u: nat, v: nat): seq<Msg<T>> { if (u, v) in wire then wire[(u, v)] else [] }
    function Box(u: nat, v: nat): seq<Msg<T>> { if (u, v) in box then box[(u, v)] else [] }
  }

  datatype Action =
    | RecvReduce(v: nat, peer: nat)
    | SendReduce(v: nat, peer: nat)
    | Enter(v: nat)
    | Register(v: nat)
    | FinishRecv(v: nat)
    | SendBcast(v: nat, peer: nat)
    | Return(v: nat)
    | Handle(peer: nat, v: nat)

  /** The buffer `send` points to. */
  function SendBuf<T>(p: Plan<T>, v: nat, r: Rank<T>): T
    requires v < |p.inPlace| && r.round < |p.xs| && v < |p.xs[r.round]|
  {
    if p.inPlace[v] then r.recv else p.xs[r.round][v]
  }

  /** `workspace_state::effective_data`: the receive buffer once something was added to it. */
  function Effective<T>(p: Plan<T>, v: nat, r: Rank<T>): T
    requires v < |p.inPlace| && r.round < |p.xs| && v < |p.xs[r.round]|
  {
    if r.recvCount > 0 then r.recv else SendBuf(p, v, r)
  }

  /** A rank about to make call `round`; an in-place caller has loaded its input into `recv`. */
  ghost function StartRank<T>(p: Plan<T>, v: nat, round: nat, recv: T, outs: seq<T>): Rank<T>
    requires p.Shape() && v < p.n
  {
    Rank(round, p.RPrevs(round, v), p.RNexts(round, v), false, p.BPrevs(round, v), Idle, p.BNexts(round, v), 0,
         if round < |p.xs| && p.inPlace[v] then p.xs[round][v] else recv, outs)
  }

  ghost predicate Init<T>(p: Plan<T>, s: Sys<T>)
    requires p.Shape()
  {
    && |s.ranks| == p.n && s.wire == map[] && s.box == map[]
    && forall v: nat :: v < p.n ==> s.ranks[v] == StartRank(p, v, 0, s.ranks[v].recv, [])
  }

  ghost predicate Enabled<T>(p: Plan<T>, s: Sys<T>, a: Action)
    requires p.Shape() && |s.ranks| == p.n
  {
    a.v < p.n && (a.Handle? || s.ranks[a.v].round < |p.xs|) &&
    var r := s.ranks[a.v];
    match a
    case RecvReduce(v, c) => c in r.toRecvR && s.Box(c, v) != []
    case SendReduce(v, d) => r.toRecvR == {} && d in r.toSendR
    case Enter(v) => r.toRecvR == {} && r.toSendR == {} && !r.entered
    case Register(v) => r.entered && r.toRecvB != [] && r.slot == Idle
    case FinishRecv(v) => r.entered && r.toRecvB != [] && r.slot == Delivered
    case SendBcast(v, d) => r.entered && r.toRecvB == [] && d in r.toSendB
    case Return(v) => r.entered && r.toRecvB == [] && r.toSendB == {}
    case Handle(u, v) =>
      && u < p.n && s.Wire(u, v) != []
      && if s.Wire(u, v)[0].waitRecvBuf
         then r.slot == Registered && r.toRecvB != [] && r.toRecvB[0] == u
         else s.Box(u, v) == []
  }

  /** The acting rank after the action; no action changes another rank. */
  ghost function NextRank<T>(p: Plan<T>, s: Sys<T>, a: Action): Rank<T>
    requires p.Shape() && |s.ranks| == p.n && Enabled(p, s, a)
  {
    var r := s.ranks[a.v];
    match a
    case RecvReduce(v, c) =>
      r.(toRecvR := r.toRecvR - {c}, recvCount := r.recvCount + 1,
         recv := p.op(s.Box(c, v)[0].data, Effective(p, v, r)))
    case SendReduce(v, d) => r.(toSendR := r.toSendR - {d})
    case Enter(v) =>
      r.(entered := true, recv := if |p.BPrevs(r.round, v)| == 0 && r.recvCount == 0 then SendBuf(p, v, r) else r.recv)
    case Register(v) => r.(slot := Registered)
    case FinishRecv(v) => r.(slot := Idle, toRecvB := r.toRecvB[1..])
    case SendBcast(v, d) => r.(toSendB := r.toSendB - {d})
    case Return(v) => StartRank(p, v, r.round + 1, r.recv, r.outs + [r.recv])
    case Handle(u, v) =>
      var m := s.Wire(u, v)[0];
      if m.waitRecvBuf then r.(slot := Delivered, recv := m.data) else r
  }

  ghost function Apply<T>(p: Plan<T>, s: Sys<T>, a: Action): Sys<T>
    requires p.Shape() && |s.ranks| == p.n && Enabled(p, s, a)
  {
    var r := s.ranks[a.v];
    Sys(s.ranks[a.v := NextRank(p, s, a)],
        match a
        case SendReduce(v, d) => s.wire[(v, d) := s.Wire(v, d) + [Msg(false, Effective(p, v, r), r.round)]]
        case SendBcast(v, d) => s.wire[(v, d) := s.Wire(v, d) + [Msg(true, Effective(p, v, r), r.round)]]
        case Handle(u, v) => s.wire[(u, v) := s.Wire(u, v)[1..]]
        case _ => s.wire,
        match a
        case RecvReduce(v, c) => s.box[(c, v) := s.Box(c, v)[1..]]
        case Handle(u, v) =>
          if s.Wire(u, v)[0].waitRecvBuf then s.box else s.box[(u, v) := s.Box(u, v) + [s.Wire(u, v)[0]]]
        case _ => s.box)
  }

  /** A run: any interleaving of enabled actions. */
  ghost predicate Run<T>(p: Plan<T>, tr: seq<Sys<T>>, acts: seq<Action>)
    requires p.Shape()
  {
    && |tr| == |acts| + 1
    && Init(p, tr[0])
    && (forall i :: 0 <= i < |tr| ==> |tr[i].ranks| == p.n)
    && forall i :: 0 <= i < |acts| ==> Enabled(p, tr[i], acts[i]) && tr[i + 1] == Apply(p, tr[i], acts[i])
  }

  predicate Finished<T>(p: Plan<T>, s: Sys<T>) {
    forall v :: 0 <= v < |s.ranks| ==> s.ranks[v].round == |p.xs|
  }

  // ---------------------------------------------------------------- control invariant

  ghost predicate RankOk<T>(p: Plan<T>, v: nat, r: Rank<T>)
    requires p.Shape() && v < p.n
  {
    var k := r.round;
    && k <= |p.xs|
    && r.toRecvR <= p.RPrevs(k, v) && r.toSendR <= p.RNexts(k, v) && r.toSendB <= p.BNexts(k, v)
    && (r.toRecvB == p.BPrevs(k, v) || r.toRecvB == [])
    && (r.toRecvR != {} ==> r.toSendR == p.RNexts(k, v) && !r.entered)
    && (r.toSendR != {} ==> !r.entered)
    && (!r.entered ==> r.toRecvB == p.BPrevs(k, v) && r.slot == Idle && r.toSendB == p.BNexts(k, v))
    && (r.toRecvB != [] ==> r.toSendB == p.BNexts(k, v))
    && (r.toRecvB == [] ==> r.slot == Idle)
    && (r.recvCount > 0 <==> r.toRecvR != p.RPrevs(k, v))
    && |r.outs| == k
    && (k == |p.xs| ==> !r.entered && r.toRecvR == p.RPrevs(k, v) && r.toSendR == p.RNexts(k, v))
  }

  /** For a call below this number: if it has a reduce edge from `u` to `v`, then `u` has
      sent its message, or `v` has consumed it. */
  function SentR<T>(r: Rank<T>, v: nat): nat { r.round + if v !in r.toSendR then 1 else 0 }
  function TakenR<T>(r: Rank<T>, u: nat): nat { r.round + if u !in r.toRecvR then 1 else 0 }
  /** Likewise for the broadcast message: sent by `u`, or arrived at a rank. */
  function SentB<T>(r: Rank<T>, v: nat): nat { r.round + if v !in r.toSendB then 1 else 0 }
  function TakenB<T>(r: Rank<T>): nat { r.round + if r.toRecvB == [] || r.slot == Delivered then 1 else 0 }

  /** The edges of call `k`. */
  ghost predicate REdge<T>(p: Plan<T>, k: nat, u: nat, v: nat)
    requires p.Shape() && u < p.n
  {
    v in p.RNexts(k, u)
  }
  ghost predicate BEdge<T>(p: Plan<T>, k: nat, u: nat, v: nat)
    requires p.Shape() && u < p.n
  {
    v in p.BNexts(k, u)
  }

  /** Nothing was consumed that was not sent. */
  ghost predicate Past<T>(p: Plan<T>, u: nat, v: nat, sentR: nat, takenR: nat, sentB: nat, takenB: nat)
    requires p.Shape() && u < p.n
  {
    && (forall k: nat :: k < takenR && REdge(p, k, u, v) ==> k < sentR)
    && (forall k: nat :: k < takenB && BEdge(p, k, u, v) ==> k < sentB)
  }

  /** What is under way on one ordered pair, where `re` and `be` say whether the next call to
      consume from has such an edge: at most one broadcast message followed by at most one
      reduce message (on the wire or already in the mailbox), each of exactly the call the
      counters say. */
  ghost predicate Link<T>(re: bool, be: bool, sentR: nat, takenR: nat, sentB: nat, takenB: nat,
                          wire: seq<Msg<T>>, box: seq<Msg<T>>)
  {
    var nb := if be && sentB > takenB then 1 else 0;
    var rFlight := re && sentR > takenR;
    var nr := if rFlight && box == [] then 1 else 0;
    && |wire| == nb + nr
    && (nb == 1 ==> wire[0].waitRecvBuf && wire[0].stamp == takenB)
    && (nr == 1 ==> !wire[nb].waitRecvBuf && wire[nb].stamp == takenR)
    && |box| <= 1
    && (box != [] ==> rFlight && !box[0].waitRecvBuf && box[0].stamp == takenR)
  }

  ghost predicate LinkOk<T>(p: Plan<T>, u: nat, v: nat, q: Rank<T>, r: Rank<T>, wire: seq<Msg<T>>, box: seq<Msg<T>>)
    requires p.Shape() && u < p.n
  {
    && Past(p, u, v, SentR(q, v), TakenR(r, u), SentB(q, v), TakenB(r))
    && Link(REdge(p, TakenR(r, u), u, v), BEdge(p, TakenB(r), u, v),
            SentR(q, v), TakenR(r, u), SentB(q, v), TakenB(r), wire, box)
  }

  ghost predicate EdgeOk<T>(p: Plan<T>, s: Sys<T>, u: nat, v: nat)
    requires p.Shape() && |s.ranks| == p.n && u < p.n && v < p.n
  {
    LinkOk(p, u, v, s.ranks[u], s.ranks[v], s.Wire(u, v), s.Box(u, v))
  }

  ghost predicate Control<T>(p: Plan<T>, s: Sys<T>)
    requires p.Shape()
  {
    && |s.ranks| == p.n
    && (forall v: nat :: v < p.n ==> RankOk(p, v, s.ranks[v]))
    && forall u: nat, v: nat :: u < p.n && v < p.n ==> EdgeOk(p, s, u, v)
  }

  // ---------------------------------------------------------------- no rank runs ahead

  /** Calls whose reduce stage this rank has left, and calls whose result it holds. */
  function Reduced<T>(r: Rank<T>): nat { r.round + if r.toRecvR == {} && r.toSendR == {} then 1 else 0 }
  function Got<T>(r: Rank<T>): nat { r.round + if r.entered && r.toRecvB == [] then 1 else 0 }

  lemma PastOf<T>(p: Plan<T>, s: Sys<T>, k: nat, u: nat, v: nat)
    requires p.Shape() && Control(p, s) && u < p.n && v < p.n
    ensures REdge(p, k, u, v) && k < TakenR(s.ranks[v], u) ==> k < SentR(s.ranks[u], v)
    ensures BEdge(p, k, u, v) && k < TakenB(s.ranks[v]) ==> k < SentB(s.ranks[u], v)
    ensures RankOk(p, u, s.ranks[u]) && RankOk(p, v, s.ranks[v])
  {
    assert EdgeOk(p, s, u, v) && RankOk(p, u, s.ranks[u]) && RankOk(p, v, s.ranks[v]);
  }

  /** In each call: a parent leaves the reduce stage only after its children. */
  lemma ReducedFromChild<T>(p: Plan<T>, s: Sys<T>, k: nat, c: nat)
    requires p.Valid() && Control(p, s) && c < p.n && c != p.Root(k)
    ensures k < Reduced(s.ranks[p.RParent(k, c)]) ==> k < Reduced(s.ranks[c])
  {
    PastOf(p, s, k, c, p.RParent(k, c));
  }

  lemma GotFromParent<T>(p: Plan<T>, s: Sys<T>, k: nat, v: nat)
    requires p.Valid() && Control(p, s) && v < p.n && v != p.Root(k)
    ensures k < Got(s.ranks[v]) ==> k < Got(s.ranks[p.BParent(k, v)])
  {
    PastOf(p, s, k, p.BParent(k, v), v);
  }

  lemma {:induction false} RootReducedLast<T>(p: Plan<T>, s: Sys<T>, k: nat, v: nat)
    requires p.Valid() && Control(p, s) && v < p.n && p.Root(k) < p.n
    ensures k < Reduced(s.ranks[p.Root(k)]) ==> k < Reduced(s.ranks[v])
    decreases p.RDepth(k, v)
  {
    if v != p.Root(k) {
      ReducedFromChild(p, s, k, v);
      RootReducedLast(p, s, k, p.RParent(k, v));
    }
  }

  lemma {:induction false} RootGotFirst<T>(p: Plan<T>, s: Sys<T>, k: nat, v: nat)
    requires p.Valid() && Control(p, s) && v < p.n && p.Root(k) < p.n
    ensures k < Got(s.ranks[v]) ==> k < Got(s.ranks[p.Root(k)])
    decreases p.BDepth(k, v)
  {
    if v != p.Root(k) {
      GotFromParent(p, s, k, v);
      RootGotFirst(p, s, k, p.BParent(k, v));
    }
  }

  lemma RootInRange<T>(p: Plan<T>, k: nat)
    requires p.Valid()
    ensures p.Root(k) < p.n
  {
    assert p.IsPair(p.At(k));
  }

  /** A rank holds the result of a call only when every rank has left its reduce stage. */
  lemma GotAfterReduced<T>(p: Plan<T>, s: Sys<T>, u: nat, v: nat)
    requires p.Valid() && Control(p, s) && u < p.n && v < p.n
    ensures Got(s.ranks[v]) <= Reduced(s.ranks[u])
  {
    if Got(s.ranks[v]) > 0 {
      var k := Got(s.ranks[v]) - 1;
      RootInRange(p, k);
      RootGotFirst(p, s, k, v);
      RootReducedLast(p, s, k, u);
      assert RankOk(p, p.Root(k), s.ranks[p.Root(k)]);
    }
  }

  // ---------------------------------------------------------------- every action keeps the control invariant

  /** What a tree pair says about one ordered pair of ranks. */
  ghost predicate Ends<T>(p: Plan<T>, k: nat, u: nat, v: nat)
    requires p.Shape() && u < p.n && v < p.n
  {
    && (REdge(p, k, u, v) <==> u in p.RPrevs(k, v))
    && (BEdge(p, k, u, v) <==> u in p.BPrevs(k, v))
    && (BEdge(p, k, u, v) ==> p.BPrevs(k, v) == [u] && u != v)
    && (REdge(p, k, u, v) ==> p.RNexts(k, u) == {v} && u != v)
    && |p.BPrevs(k, v)| <= 1
  }

  lemma CallEnds<T>(p: Plan<T>, k: nat, u: nat, v: nat)
    requires p.Valid() && u < p.n && v < p.n
    ensures Ends(p, k, u, v)
  {
    assert p.IsPair(p.At(k)) && p.Rows(p.At(k));
    if BEdge(p, k, u, v) {
      assert u in p.BPrevs(k, v);
      assert p.BParent(k, v) == u;
    } else if v != p.Root(k) {
      assert |p.BPrevs(k, v)| == |[p.BParent(k, v)]|;
    }
    if REdge(p, k, u, v) {
      assert p.RParent(k, u) == v;
    }
  }

  lemma InitControl<T>(p: Plan<T>, s: Sys<T>)
    requires p.Valid() && Init(p, s)
    ensures Control(p, s)
  {
    forall u: nat, v: nat | u < p.n && v < p.n ensures EdgeOk(p, s, u, v) {
      assert s.ranks[u] == StartRank(p, u, 0, s.ranks[u].recv, []);
      assert s.ranks[v] == StartRank(p, v, 0, s.ranks[v].recv, []);
      CallEnds(p, 0, u, v);
    }
  }

  /** The part of the invariant one pair of ranks `u`, `v` needs, whose states are `q`, `r`. */
  ghost predicate Around<T>(p: Plan<T>, u: nat, v: nat, q: Rank<T>, r: Rank<T>)
    requires p.Shape() && u < p.n && v < p.n
  {
    && Ends(p, q.round, u, v) && Ends(p, r.round, u, v) && Ends(p, q.round + 1, u, v) && Ends(p, r.round + 1, u, v)
    && RankOk(p, u, q) && RankOk(p, v, r)
    && Got(q) <= Reduced(r) && Got(r) <= Reduced(q)
  }

  lemma StepRank<T>(p: Plan<T>, s: Sys<T>, a: Action)
    requires p.Shape() && |s.ranks| == p.n && Enabled(p, s, a) && RankOk(p, a.v, s.ranks[a.v])
    requires Ends(p, s.ranks[a.v].round, a.v, a.v)
    ensures RankOk(p, a.v, Apply(p, s, a).ranks[a.v])
  {
    if a.RecvReduce? {
      assert a.peer !in Apply(p, s, a).ranks[a.v].toRecvR;
    }
  }

  // How the link from `u` to `v` changes with each step of its ends.

  lemma AfterSendReduce<T>(p: Plan<T>, u: nat, v: nat, q: Rank<T>, r: Rank<T>,
                           wire: seq<Msg<T>>, box: seq<Msg<T>>, m: Msg<T>)
    requires p.Shape() && u < p.n && v < p.n && Around(p, u, v, q, r) && LinkOk(p, u, v, q, r, wire, box)
    requires q.toRecvR == {} && v in q.toSendR && !m.waitRecvBuf && m.stamp == q.round
    ensures LinkOk(p, u, v, q.(toSendR := q.toSendR - {v}), r, wire + [m], box)
  {
    assert REdge(p, q.round, u, v);
    assert TakenR(r, u) == q.round;
  }

  lemma AfterSendBcast<T>(p: Plan<T>, u: nat, v: nat, q: Rank<T>, r: Rank<T>,
                          wire: seq<Msg<T>>, box: seq<Msg<T>>, m: Msg<T>)
    requires p.Shape() && u < p.n && v < p.n && Around(p, u, v, q, r) && LinkOk(p, u, v, q, r, wire, box)
    requires q.entered && q.toRecvB == [] && v in q.toSendB && m.waitRecvBuf && m.stamp == q.round
    ensures LinkOk(p, u, v, q.(toSendB := q.toSendB - {v}), r, wire + [m], box)
  {
    assert BEdge(p, q.round, u, v);
    assert TakenB(r) == q.round && TakenR(r, u) == q.round + 1;
  }

  lemma AfterSenderReturn<T>(p: Plan<T>, u: nat, v: nat, q: Rank<T>, q': Rank<T>, r: Rank<T>,
                             wire: seq<Msg<T>>, box: seq<Msg<T>>)
    requires p.Shape() && u < p.n && v < p.n && LinkOk(p, u, v, q, r, wire, box) && RankOk(p, u, q)
    requires q.entered && q.toRecvB == [] && q.toSendB == {} && q'.round == q.round + 1
    requires q'.toSendR == p.RNexts(q'.round, u) && q'.toSendB == p.BNexts(q'.round, u)
    ensures LinkOk(p, u, v, q', r, wire, box)
  {
    var k := q.round + 1;
    assert SentR(q, v) == k && SentB(q, v) == k;
    assert SentR(q', v) == k + (if REdge(p, k, u, v) then 0 else 1);
    assert SentB(q', v) == k + (if BEdge(p, k, u, v) then 0 else 1);
  }

  lemma AfterReceiverReturn<T>(p: Plan<T>, u: nat, v: nat, q: Rank<T>, r: Rank<T>, r': Rank<T>,
                               wire: seq<Msg<T>>, box: seq<Msg<T>>)
    requires p.Shape() && u < p.n && v < p.n && LinkOk(p, u, v, q, r, wire, box) && RankOk(p, v, r) && RankOk(p, u, q)
    requires Ends(p, r.round + 1, u, v) && q.round <= r.round + 1
    requires r.entered && r.toRecvB == [] && r'.round == r.round + 1 && r'.slot == Idle
    requires r'.toRecvR == p.RPrevs(r'.round, v) && r'.toRecvB == p.BPrevs(r'.round, v)
    ensures LinkOk(p, u, v, q, r', wire, box)
  {
    var k := r.round + 1;
    assert TakenR(r, u) == k && TakenB(r) == k;
    assert TakenR(r', u) == k + (if REdge(p, k, u, v) then 0 else 1);
  }

  lemma AfterTakeReduce<T>(p: Plan<T>, u: nat, v: nat, q: Rank<T>, r: Rank<T>, r': Rank<T>,
                           wire: seq<Msg<T>>, box: seq<Msg<T>>)
    requires p.Shape() && u < p.n && v < p.n && Around(p, u, v, q, r) && LinkOk(p, u, v, q, r, wire, box)
    requires u in r.toRecvR && box != [] && r'.round == r.round && r'.toRecvR == r.toRecvR - {u}
    requires r'.toRecvB == r.toRecvB && r'.slot == r.slot
    ensures LinkOk(p, u, v, q, r', wire, box[1..])
  {
    assert TakenR(r, u) == r.round && TakenR(r', u) == r.round + 1 && q.round <= r.round;
  }

  /** No broadcast of the receiver's next call can have been sent. */
  lemma NotAhead<T>(p: Plan<T>, u: nat, v: nat, q: Rank<T>, r: Rank<T>)
    requires p.Shape() && u < p.n && v < p.n && RankOk(p, u, q) && Got(q) <= Reduced(r)
    ensures BEdge(p, r.round + 1, u, v) ==> SentB(q, v) <= r.round + 1
  {
  }

  /** The broadcast of the receiver's call arrives, from `u` or from elsewhere. */
  lemma AfterArrival<T>(p: Plan<T>, u: nat, v: nat, q: Rank<T>, r: Rank<T>, r': Rank<T>,
                        wire: seq<Msg<T>>, wire': seq<Msg<T>>, box: seq<Msg<T>>)
    requires p.Shape() && u < p.n && v < p.n && LinkOk(p, u, v, q, r, wire, box)
    requires BEdge(p, r.round + 1, u, v) ==> SentB(q, v) <= r.round + 1
    requires r.toRecvB != [] && r.slot == Registered && r'.slot == Delivered
    requires r'.round == r.round && r'.toRecvR == r.toRecvR && r'.toRecvB == r.toRecvB
    requires if BEdge(p, r.round, u, v) then wire != [] && wire[0].waitRecvBuf && wire' == wire[1..] else wire' == wire
    ensures LinkOk(p, u, v, q, r', wire', box)
  {
  }

  lemma AfterHandle<T>(p: Plan<T>, u: nat, v: nat, q: Rank<T>, r: Rank<T>, wire: seq<Msg<T>>, box: seq<Msg<T>>)
    requires p.Shape() && u < p.n && v < p.n && LinkOk(p, u, v, q, r, wire, box)
    requires wire != [] && !wire[0].waitRecvBuf && box == []
    ensures LinkOk(p, u, v, q, r, wire[1..], [wire[0]])
  {
  }

  /** Two states of one rank that look alike from every connection. */
  ghost predicate SameSides<T>(r: Rank<T>, r': Rank<T>) {
    && r'.round == r.round && r'.toSendR == r.toSendR && r'.toSendB == r.toSendB && r'.toRecvR == r.toRecvR
    && TakenB(r') == TakenB(r)
  }

  lemma LocalSides<T>(p: Plan<T>, s: Sys<T>, a: Action)
    requires p.Shape() && |s.ranks| == p.n && Enabled(p, s, a) && RankOk(p, a.v, s.ranks[a.v])
    requires Ends(p, s.ranks[a.v].round, a.v, a.v)
    requires a.Enter? || a.Register? || a.FinishRecv?
    ensures SameSides(s.ranks[a.v], NextRank(p, s, a))
  {
  }

  lemma IsAround<T>(p: Plan<T>, s: Sys<T>, u: nat, v: nat)
    requires p.Valid() && Control(p, s) && u < p.n && v < p.n
    ensures Around(p, u, v, s.ranks[u], s.ranks[v])
  {
    CallEnds(p, s.ranks[u].round, u, v);
    CallEnds(p, s.ranks[v].round, u, v);
    CallEnds(p, s.ranks[u].round + 1, u, v);
    CallEnds(p, s.ranks[v].round + 1, u, v);
    GotAfterReduced(p, s, u, v);
    GotAfterReduced(p, s, v, u);
    assert RankOk(p, u, s.ranks[u]) && RankOk(p, v, s.ranks[v]);
  }

  lemma SameLink<T>(p: Plan<T>, u: nat, v: nat, q: Rank<T>, q': Rank<T>, r: Rank<T>, r': Rank<T>,
                    wire: seq<Msg<T>>, box: seq<Msg<T>>)
    requires p.Shape() && u < p.n && LinkOk(p, u, v, q, r, wire, box)
    requires SentR(q', v) == SentR(q, v) && SentB(q', v) == SentB(q, v)
    requires TakenR(r', u) == TakenR(r, u) && TakenB(r') == TakenB(r)
    ensures LinkOk(p, u, v, q', r', wire, box)
  {
  }

  /** One pair of ranks with what is under way from the first to the second. */
  datatype View<T> = View(q: Rank<T>, r: Rank<T>, wire: seq<Msg<T>>, box: seq<Msg<T>>)

  function ViewOf<T>(s: Sys<T>, u: nat, v: nat): View<T>
    requires u < |s.ranks| && v < |s.ranks|
  {
    View(s.ranks[u], s.ranks[v], s.Wire(u, v), s.Box(u, v))
  }

  ghost predicate ViewOk<T>(p: Plan<T>, u: nat, v: nat, x: View<T>)
    requires p.Shape() && u < p.n
  {
    LinkOk(p, u, v, x.q, x.r, x.wire, x.box)
  }

  lemma SendReduceView<T>(p: Plan<T>, s: Sys<T>, w: nat, d: nat, u: nat, v: nat)
    requires p.Shape() && |s.ranks| == p.n && u < p.n && v < p.n && Enabled(p, s, SendReduce(w, d))
    ensures var x, x' := ViewOf(s, u, v), ViewOf(Apply(p, s, SendReduce(w, d)), u, v);
            && x'.q == (if u == w then x.q.(toSendR := x.q.toSendR - {d}) else x.q)
            && x'.r == (if v == w then x.r.(toSendR := x.r.toSendR - {d}) else x.r)
            && x'.box == x.box
            && x'.wire == (if (u, v) == (w, d) then x.wire + [Msg(false, Effective(p, u, x.q), x.q.round)] else x.wire)
            && (u == w ==> x.q.toRecvR == {} && d in x.q.toSendR)
  {
  }

  lemma SendBcastView<T>(p: Plan<T>, s: Sys<T>, w: nat, d: nat, u: nat, v: nat)
    requires p.Shape() && |s.ranks| == p.n && u < p.n && v < p.n && Enabled(p, s, SendBcast(w, d))
    ensures var x, x' := ViewOf(s, u, v), ViewOf(Apply(p, s, SendBcast(w, d)), u, v);
            && x'.q == (if u == w then x.q.(toSendB := x.q.toSendB - {d}) else x.q)
            && x'.r == (if v == w then x.r.(toSendB := x.r.toSendB - {d}) else x.r)
            && x'.box == x.box
            && x'.wire == (if (u, v) == (w, d) then x.wire + [Msg(true, Effective(p, u, x.q), x.q.round)] else x.wire)
            && (u == w ==> x.q.entered && x.q.toRecvB == [] && d in x.q.toSendB)
  {
  }

  lemma ReturnView<T>(p: Plan<T>, s: Sys<T>, w: nat, u: nat, v: nat)
    requires p.Shape() && |s.ranks| == p.n && u < p.n && v < p.n && Enabled(p, s, Return(w))
    ensures var x, x' := ViewOf(s, u, v), ViewOf(Apply(p, s, Return(w)), u, v);
            && x'.q == (if u == w then Restarted(p, u, x.q) else x.q)
            && x'.r == (if v == w then Restarted(p, v, x.r) else x.r)
            && x'.box == x.box && x'.wire == x.wire
            && (u == w ==> x.q.entered && x.q.toRecvB == [] && x.q.toSendB == {})
            && (v == w ==> x.r.entered && x.r.toRecvB == [] && x.r.toSendB == {})
  {
  }

  ghost function Restarted<T>(p: Plan<T>, v: nat, r: Rank<T>): Rank<T>
    requires p.Shape() && v < p.n
  {
    StartRank(p, v, r.round + 1, r.recv, r.outs + [r.recv])
  }

  lemma RecvReduceView<T>(p: Plan<T>, s: Sys<T>, w: nat, c: nat, u: nat, v: nat)
    requires p.Shape() && |s.ranks| == p.n && u < p.n && v < p.n && Enabled(p, s, RecvReduce(w, c))
    ensures var x, x' := ViewOf(s, u, v), ViewOf(Apply(p, s, RecvReduce(w, c)), u, v);
            && (u != w ==> x'.q == x.q) && (v != w ==> x'.r == x.r)
            && (u == w ==> TookReduce(x.q, x'.q, c)) && (v == w ==> TookReduce(x.r, x'.r, c))
            && x'.wire == x.wire
            && (if (u, v) == (c, w) then x.box != [] && x'.box == x.box[1..] else x'.box == x.box)
  {
  }

  ghost predicate TookReduce<T>(r: Rank<T>, r': Rank<T>, c: nat) {
    && c in r.toRecvR && r'.toRecvR == r.toRecvR - {c} && r'.round == r.round
    && r'.toSendR == r.toSendR && r'.toSendB == r.toSendB && r'.toRecvB == r.toRecvB && r'.slot == r.slot
  }

  lemma HandleView<T>(p: Plan<T>, s: Sys<T>, y: nat, w: nat, u: nat, v: nat)
    requires p.Shape() && |s.ranks| == p.n && u < p.n && v < p.n && Enabled(p, s, Handle(y, w))
    ensures var x, x' := ViewOf(s, u, v), ViewOf(Apply(p, s, Handle(y, w)), u, v);
            var m := s.Wire(y, w)[0];
            && (u != w || !m.waitRecvBuf ==> x'.q == x.q) && (v != w || !m.waitRecvBuf ==> x'.r == x.r)
            && (u == w && m.waitRecvBuf ==> x'.q == x.q.(slot := Delivered, recv := m.data))
            && (v == w && m.waitRecvBuf ==> x'.r == x.r.(slot := Delivered, recv := m.data))
            && (v == w && m.waitRecvBuf ==> x.r.slot == Registered && x.r.toRecvB != [] && x.r.toRecvB[0] == y)
            && (if (u, v) == (y, w) then x.wire != [] && x.wire[0] == m && x'.wire == x.wire[1..]
                else x'.wire == x.wire)
            && (if (u, v) == (y, w) && !m.waitRecvBuf then x.box == [] && x'.box == [m] else x'.box == x.box)
  {
  }

  lemma LocalView<T>(p: Plan<T>, s: Sys<T>, a: Action, u: nat, v: nat)
    requires p.Shape() && |s.ranks| == p.n && u < p.n && v < p.n && Enabled(p, s, a)
    requires a.Enter? || a.Register? || a.FinishRecv?
    requires SameSides(s.ranks[a.v], NextRank(p, s, a))
    ensures var x, x' := ViewOf(s, u, v), ViewOf(Apply(p, s, a), u, v);
            SameSides(x.q, x'.q) && SameSides(x.r, x'.r) && x'.box == x.box && x'.wire == x.wire
  {
  }

  lemma SendReduceLink<T>(p: Plan<T>, u: nat, v: nat, x: View<T>, x': View<T>, w: nat, d: nat, m: Msg<T>)
    requires p.Shape() && u < p.n && v < p.n && Around(p, u, v, x.q, x.r) && ViewOk(p, u, v, x)
    requires x'.q == if u == w then x.q.(toSendR := x.q.toSendR - {d}) else x.q
    requires x'.r == if v == w then x.r.(toSendR := x.r.toSendR - {d}) else x.r
    requires x'.box == x.box && x'.wire == if (u, v) == (w, d) then x.wire + [m] else x.wire
    requires u == w ==> x.q.toRecvR == {} && d in x.q.toSendR && !m.waitRecvBuf && m.stamp == x.q.round
    ensures ViewOk(p, u, v, x')
  {
    if (u, v) == (w, d) {
      AfterSendReduce(p, u, v, x.q, x.r, x.wire, x.box, m);
      SameLink(p, u, v, x'.q, x'.q, x.r, x'.r, x'.wire, x'.box);
    } else {
      SameLink(p, u, v, x.q, x'.q, x.r, x'.r, x.wire, x.box);
    }
  }

  lemma SendBcastLink<T>(p: Plan<T>, u: nat, v: nat, x: View<T>, x': View<T>, w: nat, d: nat, m: Msg<T>)
    requires p.Shape() && u < p.n && v < p.n && Around(p, u, v, x.q, x.r) && ViewOk(p, u, v, x)
    requires x'.q == if u == w then x.q.(toSendB := x.q.toSendB - {d}) else x.q
    requires x'.r == if v == w then x.r.(toSendB := x.r.toSendB - {d}) else x.r
    requires x'.box == x.box && x'.wire == if (u, v) == (w, d) then x.wire + [m] else x.wire
    requires u == w ==> x.q.entered && x.q.toRecvB == [] && d in x.q.toSendB && m.waitRecvBuf && m.stamp == x.q.round
    ensures ViewOk(p, u, v, x')
  {
    if (u, v) == (w, d) {
      AfterSendBcast(p, u, v, x.q, x.r, x.wire, x.box, m);
      SameLink(p, u, v, x'.q, x'.q, x.r, x'.r, x'.wire, x'.box);
    } else {
      SameLink(p, u, v, x.q, x'.q, x.r, x'.r, x.wire, x.box);
    }
  }

  lemma ReturnLink<T>(p: Plan<T>, u: nat, v: nat, x: View<T>, x': View<T>, w: nat)
    requires p.Shape() && u < p.n && v < p.n && Around(p, u, v, x.q, x.r) && ViewOk(p, u, v, x)
    requires x'.q == if u == w then Restarted(p, u, x.q) else x.q
    requires x'.r == if v == w then Restarted(p, v, x.r) else x.r
    requires x'.wire == x.wire && x'.box == x.box
    requires u == w ==> x.q.entered && x.q.toRecvB == [] && x.q.toSendB == {}
    requires v == w ==> x.r.entered && x.r.toRecvB == [] && x.r.toSendB == {}
    requires (u == w ==> RankOk(p, u, x'.q)) && (u == v ==> x.q == x.r)
    ensures ViewOk(p, u, v, x')
  {
    if u == w { AfterSenderReturn(p, u, v, x.q, x'.q, x.r, x.wire, x.box); }
    if v == w { AfterReceiverReturn(p, u, v, x'.q, x.r, x'.r, x.wire, x.box); }
  }

  lemma RecvReduceLink<T>(p: Plan<T>, u: nat, v: nat, x: View<T>, x': View<T>, w: nat, c: nat)
    requires p.Shape() && u < p.n && v < p.n && Around(p, u, v, x.q, x.r) && ViewOk(p, u, v, x)
    requires (u != w ==> x'.q == x.q) && (v != w ==> x'.r == x.r)
    requires (u == w ==> TookReduce(x.q, x'.q, c)) && (v == w ==> TookReduce(x.r, x'.r, c))
    requires x'.wire == x.wire && if (u, v) == (c, w) then x.box != [] && x'.box == x.box[1..] else x'.box == x.box
    ensures ViewOk(p, u, v, x')
  {
    if (u, v) == (c, w) {
      AfterTakeReduce(p, u, v, x.q, x.r, x'.r, x.wire, x.box);
      SameLink(p, u, v, x.q, x'.q, x'.r, x'.r, x'.wire, x'.box);
    } else {
      if v == w { TookOther(x.r, x'.r, c, u); }
      SameLink(p, u, v, x.q, x'.q, x.r, x'.r, x.wire, x.box);
    }
  }

  lemma TookOther<T>(r: Rank<T>, r': Rank<T>, c: nat, u: nat)
    requires TookReduce(r, r', c) && u != c
    ensures TakenR(r', u) == TakenR(r, u) && TakenB(r') == TakenB(r)
  {
  }

  lemma ArrivalLink<T>(p: Plan<T>, u: nat, v: nat, x: View<T>, x': View<T>, y: nat, m: Msg<T>)
    requires p.Shape() && u < p.n && v < p.n && Around(p, u, v, x.q, x.r) && ViewOk(p, u, v, x)
    requires x.r.slot == Registered && x.r.toRecvB != [] && x.r.toRecvB[0] == y && m.waitRecvBuf
    requires x'.r == x.r.(slot := Delivered, recv := m.data)
    requires x'.q == if u == v then x.q.(slot := Delivered, recv := m.data) else x.q
    requires x'.box == x.box
    requires if u == y then x.wire != [] && x.wire[0] == m && x'.wire == x.wire[1..] else x'.wire == x.wire
    ensures ViewOk(p, u, v, x')
  {
    assert p.BPrevs(x.r.round, v) == [y];
    NotAhead(p, u, v, x.q, x.r);
    AfterArrival(p, u, v, x.q, x.r, x'.r, x.wire, x'.wire, x.box);
    SameLink(p, u, v, x.q, x'.q, x'.r, x'.r, x'.wire, x'.box);
  }

  ghost predicate Pairwise<T>(p: Plan<T>, s: Sys<T>, u: nat, v: nat)
    requires p.Shape()
  {
    && |s.ranks| == p.n && u < p.n && v < p.n
    && Around(p, u, v, s.ranks[u], s.ranks[v]) && ViewOk(p, u, v, ViewOf(s, u, v))
  }

  lemma StepSendReduce<T>(p: Plan<T>, s: Sys<T>, w: nat, d: nat, u: nat, v: nat)
    requires p.Shape() && Pairwise(p, s, u, v) && Enabled(p, s, SendReduce(w, d))
    ensures ViewOk(p, u, v, ViewOf(Apply(p, s, SendReduce(w, d)), u, v))
  {
    var m := Msg(false, Effective(p, w, s.ranks[w]), s.ranks[w].round);
    SendReduceView(p, s, w, d, u, v);
    SendReduceLink(p, u, v, ViewOf(s, u, v), ViewOf(Apply(p, s, SendReduce(w, d)), u, v), w, d, m);
  }

  lemma StepSendBcast<T>(p: Plan<T>, s: Sys<T>, w: nat, d: nat, u: nat, v: nat)
    requires p.Shape() && Pairwise(p, s, u, v) && Enabled(p, s, SendBcast(w, d))
    ensures ViewOk(p, u, v, ViewOf(Apply(p, s, SendBcast(w, d)), u, v))
  {
    var m := Msg(true, Effective(p, w, s.ranks[w]), s.ranks[w].round);
    SendBcastView(p, s, w, d, u, v);
    SendBcastLink(p, u, v, ViewOf(s, u, v), ViewOf(Apply(p, s, SendBcast(w, d)), u, v), w, d, m);
  }

  lemma StepReturn<T>(p: Plan<T>, s: Sys<T>, w: nat, u: nat, v: nat)
    requires p.Shape() && Pairwise(p, s, u, v) && Enabled(p, s, Return(w))
    requires RankOk(p, w, Apply(p, s, Return(w)).ranks[w])
    ensures ViewOk(p, u, v, ViewOf(Apply(p, s, Return(w)), u, v))
  {
    ReturnView(p, s, w, u, v);
    ReturnLink(p, u, v, ViewOf(s, u, v), ViewOf(Apply(p, s, Return(w)), u, v), w);
  }

  lemma StepRecvReduce<T>(p: Plan<T>, s: Sys<T>, w: nat, c: nat, u: nat, v: nat)
    requires p.Shape() && Pairwise(p, s, u, v) && Enabled(p, s, RecvReduce(w, c))
    ensures ViewOk(p, u, v, ViewOf(Apply(p, s, RecvReduce(w, c)), u, v))
  {
    RecvReduceView(p, s, w, c, u, v);
    RecvReduceLink(p, u, v, ViewOf(s, u, v), ViewOf(Apply(p, s, RecvReduce(w, c)), u, v), w, c);
  }

  lemma StepHandle<T>(p: Plan<T>, s: Sys<T>, y: nat, w: nat, u: nat, v: nat)
    requires p.Shape() && Pairwise(p, s, u, v) && Enabled(p, s, Handle(y, w))
    ensures ViewOk(p, u, v, ViewOf(Apply(p, s, Handle(y, w)), u, v))
  {
    var x, x' := ViewOf(s, u, v), ViewOf(Apply(p, s, Handle(y, w)), u, v);
    HandleView(p, s, y, w, u, v);
    var m := s.Wire(y, w)[0];
    if v == w && m.waitRecvBuf {
      ArrivalLink(p, u, v, x, x', y, m);
    } else {
      if (u, v) == (y, w) { AfterHandle(p, u, v, x.q, x.r, x.wire, x.box); }
      SameLink(p, u, v, x.q, x'.q, x.r, x'.r, x'.wire, x'.box);
    }
  }

  lemma StepLocal<T>(p: Plan<T>, s: Sys<T>, a: Action, u: nat, v: nat)
    requires p.Shape() && Pairwise(p, s, u, v) && Enabled(p, s, a)
    requires (a.Enter? || a.Register? || a.FinishRecv?) && SameSides(s.ranks[a.v], NextRank(p, s, a))
    ensures ViewOk(p, u, v, ViewOf(Apply(p, s, a), u, v))
  {
    var x, x' := ViewOf(s, u, v), ViewOf(Apply(p, s, a), u, v);
    LocalView(p, s, a, u, v);
    SameLink(p, u, v, x.q, x'.q, x.r, x'.r, x.wire, x.box);
  }

  lemma StepEdge<T>(p: Plan<T>, s: Sys<T>, a: Action, u: nat, v: nat)
    requires p.Valid() && Control(p, s) && Enabled(p, s, a) && Pairwise(p, s, u, v)
    requires RankOk(p, a.v, Apply(p, s, a).ranks[a.v])
    requires a.Enter? || a.Register? || a.FinishRecv? ==> SameSides(s.ranks[a.v], NextRank(p, s, a))
    ensures ViewOk(p, u, v, ViewOf(Apply(p, s, a), u, v))
  {
    match a {
      case RecvReduce(w, c) => StepRecvReduce(p, s, w, c, u, v);
      case SendReduce(w, d) => StepSendReduce(p, s, w, d, u, v);
      case SendBcast(w, d) => StepSendBcast(p, s, w, d, u, v);
      case Return(w) => StepReturn(p, s, w, u, v);
      case Handle(y, w) => StepHandle(p, s, y, w, u, v);
      case _ => StepLocal(p, s, a, u, v);
    }
  }

  lemma StepEdges<T>(p: Plan<T>, s: Sys<T>, a: Action, u: nat, v: nat)
    requires p.Valid() && Control(p, s) && Enabled(p, s, a) && u < p.n && v < p.n
    requires RankOk(p, a.v, Apply(p, s, a).ranks[a.v])
    requires a.Enter? || a.Register? || a.FinishRecv? ==> SameSides(s.ranks[a.v], NextRank(p, s, a))
    ensures EdgeOk(p, Apply(p, s, a), u, v)
  {
    IsAround(p, s, u, v);
    assert EdgeOk(p, s, u, v);
    StepEdge(p, s, a, u, v);
  }

  lemma StepControl<T>(p: Plan<T>, s: Sys<T>, a: Action)
    requires p.Valid() && Control(p, s) && Enabled(p, s, a)
    ensures Control(p, Apply(p, s, a))
  {
    CallEnds(p, s.ranks[a.v].round, a.v, a.v);
    assert RankOk(p, a.v, s.ranks[a.v]);
    StepRank(p, s, a);
    if a.Enter? || a.Register? || a.FinishRecv? { LocalSides(p, s, a); }
    forall u: nat, v: nat | u < p.n && v < p.n ensures EdgeOk(p, Apply(p, s, a), u, v) {
      StepEdges(p, s, a, u, v);
    }
    forall v: nat | v < p.n ensures RankOk(p, v, Apply(p, s, a).ranks[v]) {
      assert RankOk(p, v, s.ranks[v]);
    }
  }
}
