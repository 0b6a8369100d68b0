/** `session::broadcast`: the ranks run the broadcast graph of the session's first pair alone, any
    number of calls one after the other. It is the protocol of `AllReduce` with empty reduce
    graphs: no rank waits for the others before it sends, so a parent may be calls ahead of its
    children and a stream may hold the messages of many calls. */
module Broadcasts {
  import opened Basics
  import opened Graphs
  import opened Topology
  import opened AllReduce
  import opened AllReduceProgress
  import opened AllReduceMeaning
  import opened ChunkedAllReduce

  ghost predicate BcastTree(gp: GraphPair, n: nat, root: nat, depth: seq<nat>) {
    && (forall v: nat :: v < n ==> v < |gp.reduce.nexts| && v < |gp.reduce.prevs|
                                   && gp.reduce.nexts[v] == [] == gp.reduce.prevs[v])
    && IsTree(n, root, gp.bcast.prevs, gp.bcast.nexts, depth)
  }

  /** All calls go over the broadcast graph of one pair. */
  ghost predicate IsBroadcast<T>(p: Plan<T>) {
    && p.Shape() && |p.trees| == 1
    && BcastTree(p.trees[0].gp, p.n, p.trees[0].root, p.trees[0].bdepth)
  }

  function Root<T>(p: Plan<T>): nat
    requires |p.trees| == 1
  {
    p.trees[0].root
  }

  ghost function Parent<T>(p: Plan<T>, v: nat): (u: nat)
    requires IsBroadcast(p) && v < p.n && v != Root(p)
    ensures u < p.n && p.BPrevs(0, v) == [u] && v in p.BNexts(0, u)
    ensures Depth(p, u) < Depth(p, v)
  {
    var t := p.trees[0];
    assert ParentOk(p.n, v, t.gp.bcast.prevs, t.bdepth) && p.At(0) == t && p.Rows(t);
    assert t.gp.bcast.prevs[v][0] in t.gp.bcast.prevs[v];
    t.gp.bcast.prevs[v][0]
  }

  ghost function Depth<T>(p: Plan<T>, v: nat): nat
    requires IsBroadcast(p) && v < p.n
  {
    p.trees[0].bdepth[v]
  }

  /** Every call has the edges of that graph. */
  lemma CallEdges<T>(p: Plan<T>, k: nat, v: nat)
    requires IsBroadcast(p) && v < p.n
    ensures p.RPrevs(k, v) == {} == p.RNexts(k, v)
    ensures p.BPrevs(k, v) == p.BPrevs(0, v) && p.BNexts(k, v) == p.BNexts(0, v)
    ensures p.BPrevs(k, v) == if v == Root(p) then [] else [Parent(p, v)]
    ensures forall d :: d in p.BNexts(k, v) ==> d < p.n && d != Root(p) && Parent(p, d) == v
  {
    var t := p.trees[0];
    assert p.At(k) == t == p.At(0) && p.Rows(t);
    forall d | d in p.BNexts(k, v) ensures d < p.n && d != Root(p) && Parent(p, d) == v {
      assert d in t.gp.bcast.nexts[v] && v in t.gp.bcast.prevs[d];
    }
  }

  // ---------------------------------------------------------------- what each call leaves

  /** The receive buffer of rank `v` at the end of call `k`. */
  ghost function Outcome<T>(p: Plan<T>, k: nat, v: nat): T
    requires IsBroadcast(p) && v < p.n && k < |p.xs|
    decreases Depth(p, v), 0
  {
    if v == Root(p) then p.xs[k][v] else Passed(p, k, Parent(p, v))
  }

  /** What rank `u` sends: nothing was ever added, so `effective_data` is its `send` buffer. */
  ghost function Passed<T>(p: Plan<T>, k: nat, u: nat): T
    requires IsBroadcast(p) && u < p.n && k < |p.xs|
    decreases Depth(p, u), 1
  {
    if p.inPlace[u] then Outcome(p, k, u) else p.xs[k][u]
  }

  // ---------------------------------------------------------------- invariant

  ghost predicate RankData<T>(p: Plan<T>, v: nat, r: Rank<T>)
    requires IsBroadcast(p) && v < p.n && r.round <= |p.xs|
  {
    && |r.outs| == r.round && r.recvCount == 0
    && (forall j: nat :: j < r.round ==> r.outs[j] == Outcome(p, j, v))
    && (r.round < |p.xs| ==>
          && (r.slot == Delivered || (r.entered && r.toRecvB == []) ==> r.recv == Outcome(p, r.round, v))
          && (v == Root(p) && p.inPlace[v] ==> r.recv == p.xs[r.round][v]))
  }

  ghost predicate RankInv<T>(p: Plan<T>, v: nat, r: Rank<T>)
    requires IsBroadcast(p) && v < p.n
  {
    RankOk(p, v, r) && RankData(p, v, r)
  }

  /** The stream from a parent holds the messages of the calls between the two ranks. */
  ghost predicate LinkInv<T>(p: Plan<T>, u: nat, v: nat, q: Rank<T>, r: Rank<T>, wire: seq<Msg<T>>, box: seq<Msg<T>>)
    requires IsBroadcast(p) && u < p.n && v < p.n
  {
    && box == []
    && (v !in p.BNexts(0, u) ==> wire == [])
    && (v in p.BNexts(0, u) ==>
          && TakenB(r) + |wire| == SentB(q, v) <= |p.xs|
          && forall i: nat :: i < |wire| ==> MsgOk(p, u, TakenB(r) + i, wire[i]))
  }

  ghost predicate MsgOk<T>(p: Plan<T>, u: nat, k: nat, m: Msg<T>)
    requires IsBroadcast(p) && u < p.n
  {
    k < |p.xs| && m == Msg(true, Passed(p, k, u), k)
  }

  ghost predicate Inv<T>(p: Plan<T>, s: Sys<T>)
    requires IsBroadcast(p)
  {
    && |s.ranks| == p.n
    && (forall v: nat :: v < p.n ==> RankInv(p, v, s.ranks[v]))
    && forall u: nat, v: nat :: u < p.n && v < p.n ==>
         LinkInv(p, u, v, s.ranks[u], s.ranks[v], s.Wire(u, v), s.Box(u, v))
  }

  lemma StartInv<T>(p: Plan<T>, v: nat, round: nat, recv: T, outs: seq<T>)
    requires IsBroadcast(p) && v < p.n && round <= |p.xs| && |outs| == round
    requires forall j: nat :: j < round ==> outs[j] == Outcome(p, j, v)
    ensures RankInv(p, v, StartRank(p, v, round, recv, outs))
  {
    CallEdges(p, round, v);
  }

  lemma InitInv<T>(p: Plan<T>, s: Sys<T>)
    requires IsBroadcast(p) && Init(p, s)
    ensures Inv(p, s)
  {
    forall v: nat | v < p.n
      ensures RankInv(p, v, s.ranks[v]) && s.ranks[v] == StartRank(p, v, 0, s.ranks[v].recv, [])
    {
      assert s.ranks[v] == StartRank(p, v, 0, s.ranks[v].recv, []);
      StartInv(p, v, 0, s.ranks[v].recv, []);
    }
    forall u: nat, v: nat | u < p.n && v < p.n
      ensures LinkInv(p, u, v, s.ranks[u], s.ranks[v], s.Wire(u, v), s.Box(u, v))
    {
      CallEdges(p, 0, u);
      CallEdges(p, 0, v);
    }
  }

  lemma OwnEnds<T>(p: Plan<T>, k: nat, v: nat)
    requires IsBroadcast(p) && v < p.n
    ensures Ends(p, k, v, v)
  {
    CallEdges(p, k, v);
    if v != Root(p) { assert Parent(p, v) != v; }
  }

  /** A message arrives at the rank that has registered for it. */
  lemma ArrivalOk<T>(p: Plan<T>, s: Sys<T>, u: nat, v: nat)
    requires IsBroadcast(p) && Inv(p, s) && Enabled(p, s, Handle(u, v))
    ensures s.Wire(u, v)[0].waitRecvBuf && v in p.BNexts(0, u) && v != Root(p) && u == Parent(p, v)
    ensures MsgOk(p, u, s.ranks[v].round, s.Wire(u, v)[0])
  {
    var r := s.ranks[v];
    assert LinkInv(p, u, v, s.ranks[u], r, s.Wire(u, v), s.Box(u, v)) && RankInv(p, v, r);
    CallEdges(p, 0, u);
    assert MsgOk(p, u, TakenB(r), s.Wire(u, v)[0]);
  }

  lemma StepRankData<T>(p: Plan<T>, s: Sys<T>, a: Action)
    requires IsBroadcast(p) && Inv(p, s) && Enabled(p, s, a) && !a.Return?
    requires RankOk(p, a.v, NextRank(p, s, a))
    ensures RankData(p, a.v, NextRank(p, s, a))
  {
    var r := s.ranks[a.v];
    assert RankInv(p, a.v, r);
    CallEdges(p, r.round, a.v);
    if a.Handle? { ArrivalOk(p, s, a.peer, a.v); }
  }

  lemma StepRankInv<T>(p: Plan<T>, s: Sys<T>, a: Action)
    requires IsBroadcast(p) && Inv(p, s) && Enabled(p, s, a)
    ensures RankInv(p, a.v, NextRank(p, s, a))
  {
    var r := s.ranks[a.v];
    assert RankInv(p, a.v, r);
    if a.Return? {
      CallEdges(p, r.round, a.v);
      StartInv(p, a.v, r.round + 1, r.recv, r.outs + [r.recv]);
    } else {
      OwnEnds(p, r.round, a.v);
      StepRank(p, s, a);
      StepRankData(p, s, a);
    }
  }

  // How the link from `u` to `v` changes.

  lemma PushLink<T>(p: Plan<T>, u: nat, v: nat, q: Rank<T>, q': Rank<T>, r: Rank<T>, wire: seq<Msg<T>>, m: Msg<T>)
    requires IsBroadcast(p) && u < p.n && v < p.n && v in p.BNexts(0, u) && LinkInv(p, u, v, q, r, wire, [])
    requires SentB(q', v) == SentB(q, v) + 1 && MsgOk(p, u, SentB(q, v), m)
    ensures LinkInv(p, u, v, q', r, wire + [m], [])
  {
  }

  lemma PopLink<T>(p: Plan<T>, u: nat, v: nat, q: Rank<T>, r: Rank<T>, r': Rank<T>, wire: seq<Msg<T>>)
    requires IsBroadcast(p) && u < p.n && v < p.n && v in p.BNexts(0, u) && LinkInv(p, u, v, q, r, wire, [])
    requires TakenB(r') == TakenB(r) + 1 && wire != []
    ensures LinkInv(p, u, v, q, r', wire[1..], [])
  {
    forall i: nat | i < |wire[1..]| ensures MsgOk(p, u, TakenB(r') + i, wire[1..][i]) {
      assert MsgOk(p, u, TakenB(r) + (i + 1), wire[i + 1]);
    }
  }

  lemma ParentIsAnother<T>(p: Plan<T>, u: nat, v: nat)
    requires IsBroadcast(p) && u < p.n && v in p.BNexts(0, u)
    ensures u != v && v < p.n && v != Root(p) && Parent(p, v) == u
  {
    CallEdges(p, 0, u);
    assert Depth(p, u) < Depth(p, v);
  }

  lemma SendCounts<T>(p: Plan<T>, u: nat, v: nat, q: Rank<T>)
    requires IsBroadcast(p) && u < p.n && RankInv(p, u, q) && q.round < |p.xs|
    requires q.entered && q.toRecvB == [] && v in q.toSendB
    ensures v in p.BNexts(0, u) && SentB(q, v) == q.round
    ensures MsgOk(p, u, q.round, Msg(true, Effective(p, u, q), q.round))
  {
    CallEdges(p, q.round, u);
  }

  lemma SendLink<T>(p: Plan<T>, s: Sys<T>, u: nat, v: nat)
    requires IsBroadcast(p) && Inv(p, s) && Enabled(p, s, SendBcast(u, v)) && v < p.n
    ensures var s' := Apply(p, s, SendBcast(u, v));
            LinkInv(p, u, v, s'.ranks[u], s'.ranks[v], s'.Wire(u, v), s'.Box(u, v))
  {
    var q := s.ranks[u];
    assert RankInv(p, u, q) && LinkInv(p, u, v, q, s.ranks[v], s.Wire(u, v), s.Box(u, v));
    SendCounts(p, u, v, q);
    ParentIsAnother(p, u, v);
    SendBcastView(p, s, u, v, u, v);
    PushLink(p, u, v, q, q.(toSendB := q.toSendB - {v}), s.ranks[v], s.Wire(u, v),
             Msg(true, Effective(p, u, q), q.round));
  }

  lemma HandleLink<T>(p: Plan<T>, s: Sys<T>, u: nat, v: nat)
    requires IsBroadcast(p) && Inv(p, s) && Enabled(p, s, Handle(u, v))
    ensures var s' := Apply(p, s, Handle(u, v));
            LinkInv(p, u, v, s'.ranks[u], s'.ranks[v], s'.Wire(u, v), s'.Box(u, v))
  {
    ArrivalOk(p, s, u, v);
    var r, m := s.ranks[v], s.Wire(u, v)[0];
    assert LinkInv(p, u, v, s.ranks[u], r, s.Wire(u, v), s.Box(u, v)) && RankInv(p, v, r);
    ParentIsAnother(p, u, v);
    HandleView(p, s, u, v, u, v);
    PopLink(p, u, v, s.ranks[u], r, r.(slot := Delivered, recv := m.data), s.Wire(u, v));
  }

  /** Two states of a rank that its links do not tell apart. */
  ghost predicate SameCounts<T>(p: Plan<T>, v: nat, r: Rank<T>, r': Rank<T>)
    requires IsBroadcast(p) && v < p.n
  {
    && (v != Root(p) ==> TakenB(r') == TakenB(r))
    && forall d :: d in p.BNexts(0, v) ==> SentB(r', d) == SentB(r, d)
  }

  lemma LocalCounts<T>(p: Plan<T>, s: Sys<T>, a: Action)
    requires IsBroadcast(p) && Inv(p, s) && Enabled(p, s, a) && !a.SendBcast? && !a.Handle?
    ensures SameCounts(p, a.v, s.ranks[a.v], NextRank(p, s, a))
  {
    var r := s.ranks[a.v];
    assert RankInv(p, a.v, r);
    CallEdges(p, r.round, a.v);
    CallEdges(p, r.round + 1, a.v);
  }

  lemma OtherLink<T>(p: Plan<T>, u: nat, v: nat, q: Rank<T>, q': Rank<T>, r: Rank<T>, r': Rank<T>,
                     wire: seq<Msg<T>>, box: seq<Msg<T>>)
    requires IsBroadcast(p) && u < p.n && v < p.n && LinkInv(p, u, v, q, r, wire, box)
    requires v in p.BNexts(0, u) ==> SentB(q', v) == SentB(q, v) && TakenB(r') == TakenB(r)
    ensures LinkInv(p, u, v, q', r', wire, box)
  {
  }

  /** An action that neither sends nor takes a message of this link. */
  ghost predicate Elsewhere<T>(p: Plan<T>, s: Sys<T>, a: Action, u: nat, v: nat)
    requires p.Shape() && |s.ranks| == p.n && Enabled(p, s, a)
  {
    a != SendBcast(u, v) && a != Handle(u, v)
  }

  lemma SendElsewhere<T>(p: Plan<T>, s: Sys<T>, w: nat, d: nat, u: nat, v: nat)
    requires IsBroadcast(p) && |s.ranks| == p.n && Enabled(p, s, SendBcast(w, d)) && (w, d) != (u, v)
    requires u < p.n && v < p.n
    ensures var s' := Apply(p, s, SendBcast(w, d));
            SentB(s'.ranks[u], v) == SentB(s.ranks[u], v) && TakenB(s'.ranks[v]) == TakenB(s.ranks[v])
  {
    SendBcastView(p, s, w, d, u, v);
  }

  lemma HandleElsewhere<T>(p: Plan<T>, s: Sys<T>, y: nat, w: nat, u: nat, v: nat)
    requires IsBroadcast(p) && Inv(p, s) && Enabled(p, s, Handle(y, w)) && (y, w) != (u, v)
    requires u < p.n && v in p.BNexts(0, u) && v < p.n
    ensures var s' := Apply(p, s, Handle(y, w));
            SentB(s'.ranks[u], v) == SentB(s.ranks[u], v) && TakenB(s'.ranks[v]) == TakenB(s.ranks[v])
  {
    ArrivalOk(p, s, y, w);
    ParentIsAnother(p, u, v);
    HandleView(p, s, y, w, u, v);
  }

  lemma ElsewhereCounts<T>(p: Plan<T>, s: Sys<T>, a: Action, u: nat, v: nat)
    requires IsBroadcast(p) && Inv(p, s) && Enabled(p, s, a) && Elsewhere(p, s, a, u, v)
    requires u < p.n && v < p.n && v in p.BNexts(0, u)
    ensures var s' := Apply(p, s, a);
            SentB(s'.ranks[u], v) == SentB(s.ranks[u], v) && TakenB(s'.ranks[v]) == TakenB(s.ranks[v])
  {
    match a {
      case Handle(y, w) => HandleElsewhere(p, s, y, w, u, v);
      case SendBcast(w, d) => SendElsewhere(p, s, w, d, u, v);
      case _ => LocalElsewhere(p, s, a, u, v);
    }
  }

  lemma LocalElsewhere<T>(p: Plan<T>, s: Sys<T>, a: Action, u: nat, v: nat)
    requires IsBroadcast(p) && Inv(p, s) && Enabled(p, s, a) && !a.SendBcast? && !a.Handle?
    requires u < p.n && v < p.n && v in p.BNexts(0, u)
    ensures var s' := Apply(p, s, a);
            SentB(s'.ranks[u], v) == SentB(s.ranks[u], v) && TakenB(s'.ranks[v]) == TakenB(s.ranks[v])
  {
    ParentIsAnother(p, u, v);
    LocalCounts(p, s, a);
  }

  lemma NoReduceStage<T>(p: Plan<T>, s: Sys<T>, a: Action)
    requires IsBroadcast(p) && Inv(p, s) && Enabled(p, s, a)
    ensures !a.RecvReduce? && !a.SendReduce?
  {
    assert RankInv(p, a.v, s.ranks[a.v]);
    CallEdges(p, s.ranks[a.v].round, a.v);
  }

  lemma ElsewhereLink<T>(p: Plan<T>, s: Sys<T>, a: Action, u: nat, v: nat)
    requires IsBroadcast(p) && Inv(p, s) && Enabled(p, s, a) && Elsewhere(p, s, a, u, v) && u < p.n && v < p.n
    ensures Apply(p, s, a).Wire(u, v) == s.Wire(u, v) && Apply(p, s, a).Box(u, v) == s.Box(u, v)
  {
    NoReduceStage(p, s, a);
    if a.Handle? { ArrivalOk(p, s, a.peer, a.v); }
    OtherWires(p, s, a, u, v);
  }

  lemma OtherWires<T>(p: Plan<T>, s: Sys<T>, a: Action, u: nat, v: nat)
    requires p.Shape() && |s.ranks| == p.n && Enabled(p, s, a) && Elsewhere(p, s, a, u, v)
    requires !a.RecvReduce? && !a.SendReduce? && (a.Handle? ==> s.Wire(a.peer, a.v)[0].waitRecvBuf)
    ensures Apply(p, s, a).Wire(u, v) == s.Wire(u, v) && Apply(p, s, a).Box(u, v) == s.Box(u, v)
  {
  }

  lemma StepLinkInv<T>(p: Plan<T>, s: Sys<T>, a: Action, u: nat, v: nat)
    requires IsBroadcast(p) && Inv(p, s) && Enabled(p, s, a) && u < p.n && v < p.n
    ensures var s' := Apply(p, s, a);
            LinkInv(p, u, v, s'.ranks[u], s'.ranks[v], s'.Wire(u, v), s'.Box(u, v))
  {
    var s' := Apply(p, s, a);
    if a == SendBcast(u, v) {
      SendLink(p, s, u, v);
    } else if a == Handle(u, v) {
      HandleLink(p, s, u, v);
    } else {
      assert LinkInv(p, u, v, s.ranks[u], s.ranks[v], s.Wire(u, v), s.Box(u, v));
      ElsewhereLink(p, s, a, u, v);
      if v in p.BNexts(0, u) { ElsewhereCounts(p, s, a, u, v); }
      OtherLink(p, u, v, s.ranks[u], s'.ranks[u], s.ranks[v], s'.ranks[v], s.Wire(u, v), s.Box(u, v));
    }
  }

  lemma StepInv<T>(p: Plan<T>, s: Sys<T>, a: Action)
    requires IsBroadcast(p) && Inv(p, s) && Enabled(p, s, a)
    ensures Inv(p, Apply(p, s, a))
  {
    var s' := Apply(p, s, a);
    StepRankInv(p, s, a);
    forall v: nat | v < p.n ensures RankInv(p, v, s'.ranks[v]) { assert RankInv(p, v, s.ranks[v]); }
    forall u: nat, v: nat | u < p.n && v < p.n
      ensures LinkInv(p, u, v, s'.ranks[u], s'.ranks[v], s'.Wire(u, v), s'.Box(u, v))
    {
      StepLinkInv(p, s, a, u, v);
    }
  }

  lemma {:induction false} RunInv<T>(p: Plan<T>, tr: seq<Sys<T>>, acts: seq<Action>, i: nat)
    requires IsBroadcast(p) && Run(p, tr, acts) && i < |tr|
    ensures Inv(p, tr[i])
    decreases i
  {
    if i == 0 {
      InitInv(p, tr[0]);
    } else {
      var j := i - 1;
      RunInv(p, tr, acts, j);
      StepInv(p, tr[j], acts[j]);
    }
  }

  // ---------------------------------------------------------------- results

  /** In every reachable state, each call that has returned at a rank left its outcome there,
      whatever the interleaving. */
  lemma ResultsAreDetermined<T>(p: Plan<T>, tr: seq<Sys<T>>, acts: seq<Action>, i: nat, v: nat, k: nat)
    requires IsBroadcast(p) && Run(p, tr, acts) && i < |tr| && v < p.n && k < tr[i].ranks[v].round
    ensures k < |p.xs| && k < |tr[i].ranks[v].outs| && tr[i].ranks[v].outs[k] == Outcome(p, k, v)
  {
    RunInv(p, tr, acts, i);
    assert RankInv(p, v, tr[i].ranks[v]);
  }

  /** Every rank below the root that sends on works in place. */
  ghost predicate ForwardersInPlace<T>(p: Plan<T>)
    requires IsBroadcast(p)
  {
    forall u: nat :: u < p.n && u != Root(p) && p.BNexts(0, u) != {} ==> p.inPlace[u]
  }

  lemma {:induction false} RootsInput<T>(p: Plan<T>, k: nat, v: nat)
    requires IsBroadcast(p) && ForwardersInPlace(p) && k < |p.xs| && v < p.n
    ensures Root(p) < p.n && Outcome(p, k, v) == p.xs[k][Root(p)]
    decreases Depth(p, v)
  {
    if v != Root(p) { RootsInput(p, k, Parent(p, v)); }
  }

  /** Every rank returned with the input of the root. */
  ghost predicate Delivers<T>(p: Plan<T>, s: Sys<T>, k: nat)
    requires IsBroadcast(p) && |s.ranks| == p.n && k < |p.xs|
  {
    Root(p) < p.n && forall v: nat :: v < p.n ==> k < |s.ranks[v].outs| && s.ranks[v].outs[k] == p.xs[k][Root(p)]
  }

  /** When no other rank has the root's input by itself, a complete run leaves it everywhere if
      and only if every rank that sends on works in place. */
  lemma BroadcastIsExact<T>(p: Plan<T>, tr: seq<Sys<T>>, acts: seq<Action>, k: nat)
    requires IsBroadcast(p) && Run(p, tr, acts) && Finished(p, tr[|acts|]) && k < |p.xs| && Root(p) < p.n
    requires forall u: nat :: u < p.n && u != Root(p) ==> p.xs[k][u] != p.xs[k][Root(p)]
    ensures ForwardersInPlace(p) <==> Delivers(p, tr[|acts|], k)
  {
    forall v: nat | v < p.n
      ensures k < |tr[|acts|].ranks[v].outs| && tr[|acts|].ranks[v].outs[k] == Outcome(p, k, v)
    {
      ResultsAreDetermined(p, tr, acts, |acts|, v, k);
    }
    if ForwardersInPlace(p) {
      forall v: nat | v < p.n ensures Outcome(p, k, v) == p.xs[k][Root(p)] { RootsInput(p, k, v); }
    } else {
      var u: nat :| u < p.n && u != Root(p) && p.BNexts(0, u) != {} && !p.inPlace[u];
      var v :| v in p.BNexts(0, u);
      ParentIsAnother(p, u, v);
      assert Outcome(p, k, v) == p.xs[k][u];
    }
  }

  // ---------------------------------------------------------------- no run gets stuck

  /** Follows what a rank waits for up the tree, and never to a later call. */
  lemma {:induction false} Unblock<T>(p: Plan<T>, s: Sys<T>, v: nat) returns (a: Action)
    requires IsBroadcast(p) && Inv(p, s) && v < p.n && s.ranks[v].round < |p.xs|
    ensures Enabled(p, s, a)
    decreases Depth(p, v)
  {
    var r := s.ranks[v];
    assert RankInv(p, v, r);
    CallEdges(p, r.round, v);
    if !r.entered { return Enter(v); }
    if r.toRecvB == [] {
      if d :| d in r.toSendB { return SendBcast(v, d); }
      return Return(v);
    }
    if r.slot == Idle { return Register(v); }
    if r.slot == Delivered { return FinishRecv(v); }
    var u := Parent(p, v);
    Awaited(p, s, u, v);
    if s.Wire(u, v) != [] { return Handle(u, v); }
    a := Unblock(p, s, u);
  }

  lemma Awaited<T>(p: Plan<T>, s: Sys<T>, u: nat, v: nat)
    requires IsBroadcast(p) && Inv(p, s) && v < p.n && v != Root(p) && u == Parent(p, v)
    requires s.ranks[v].toRecvB != [] && s.ranks[v].slot != Delivered && s.ranks[v].round < |p.xs|
    ensures s.ranks[v].toRecvB == [u]
    ensures s.Wire(u, v) != [] ==> s.Wire(u, v)[0].waitRecvBuf
    ensures s.Wire(u, v) == [] ==> s.ranks[u].round < |p.xs|
  {
    var r := s.ranks[v];
    assert RankInv(p, v, r) && RankInv(p, u, s.ranks[u]);
    CallEdges(p, r.round, v);
    assert LinkInv(p, u, v, s.ranks[u], r, s.Wire(u, v), s.Box(u, v));
    if s.Wire(u, v) != [] { assert MsgOk(p, u, TakenB(r), s.Wire(u, v)[0]); }
  }

  /** Every reachable state with an unfinished call has an enabled action. */
  lemma NeverStuck<T>(p: Plan<T>, tr: seq<Sys<T>>, acts: seq<Action>)
    requires IsBroadcast(p) && Run(p, tr, acts)
    ensures Finished(p, tr[|acts|]) || exists a :: Enabled(p, tr[|acts|], a)
  {
    var s := tr[|acts|];
    RunInv(p, tr, acts, |acts|);
    if !Finished(p, s) {
      var v :| 0 <= v < |s.ranks| && s.ranks[v].round != |p.xs|;
      assert RankInv(p, v, s.ranks[v]);
      var a := Unblock(p, s, v);
    }
  }

  lemma ActorWork<T>(p: Plan<T>, s: Sys<T>, a: Action)
    requires IsBroadcast(p) && Inv(p, s) && Enabled(p, s, a)
    ensures Work(p, Apply(p, s, a), a.v) == Work(p, s, a.v) - 1
  {
    NoReduceStage(p, s, a);
    assert RankInv(p, a.v, s.ranks[a.v]);
    OwnEnds(p, s.ranks[a.v].round, a.v);
    match a {
      case Handle(_, _) => WorkHandle(p, s, a);
      case Return(_) => WorkReturn(p, s, a);
      case _ => WorkLocal(p, s, a);
    }
  }

  lemma StepWork<T>(p: Plan<T>, s: Sys<T>, a: Action)
    requires IsBroadcast(p) && Inv(p, s) && Enabled(p, s, a)
    ensures TotalWork(p, Apply(p, s, a)) == TotalWork(p, s) - 1
  {
    var ws, ws' := Works(p, s), Works(p, Apply(p, s, a));
    forall v: nat | v < p.n ensures ws'[v] == ws[v] - One(v == a.v) {
      if v == a.v { ActorWork(p, s, a); } else { OtherWork(p, s, a, v); }
    }
    OneLess(ws, ws', a.v);
  }

  lemma WorkIsLeft<T>(p: Plan<T>, s: Sys<T>)
    requires IsBroadcast(p) && Inv(p, s)
    ensures TotalWork(p, s) >= 0
  {
    forall v: nat | v < p.n ensures Works(p, s)[v] >= 0 {
      assert RankInv(p, v, s.ranks[v]);
      NoBoxes(p, s, v);
      ExpectedSize(p, v, s.ranks[v]);
    }
    SumNonNegative(Works(p, s));
  }

  lemma NoBoxes<T>(p: Plan<T>, s: Sys<T>, v: nat)
    requires IsBroadcast(p) && Inv(p, s) && v < p.n
    ensures FullBoxes(p, s, v) == {}
  {
    forall u: nat | u < p.n ensures s.Box(u, v) == [] {
      assert LinkInv(p, u, v, s.ranks[u], s.ranks[v], s.Wire(u, v), s.Box(u, v));
    }
  }

  /** No run is longer than the work of its first state. */
  lemma {:induction false} RunsAreFinite<T>(p: Plan<T>, tr: seq<Sys<T>>, acts: seq<Action>, i: nat)
    requires IsBroadcast(p) && Run(p, tr, acts) && i < |tr|
    ensures TotalWork(p, tr[i]) == TotalWork(p, tr[0]) - i && i <= TotalWork(p, tr[0])
    decreases i
  {
    RunInv(p, tr, acts, i);
    WorkIsLeft(p, tr[i]);
    if i > 0 {
      var j := i - 1;
      RunsAreFinite(p, tr, acts, j);
      RunInv(p, tr, acts, j);
      StepWork(p, tr[j], acts[j]);
    }
  }

  // ---------------------------------------------------------------- star and ring

  /** The graph that a session broadcasts over. */
  ghost predicate OnFirstPair<T>(s: Strategy, p: Plan<T>) {
    && p.n > 0 && p.Shape() && |p.trees| == 1
    && p.trees[0].gp.bcast == PairsOf(s, p.n)[0].bcast && p.trees[0].root == 0
    && p.trees[0].bdepth == (if s.Star? then StarDepth(p.n, 0) else RingBcastDepth(p.n, 0))
    && forall v: nat :: v < p.n ==> p.trees[0].gp.reduce.nexts[v] == [] == p.trees[0].gp.reduce.prevs[v]
  }

  lemma FirstPairIsTree<T>(s: Strategy, p: Plan<T>)
    requires OnFirstPair(s, p)
    ensures IsBroadcast(p)
  {
    if s.Star? { StarIsTreePair(p.n, 0); } else { RingIsTreePair(p.n, 0); }
  }

  lemma StarParent<T>(p: Plan<T>, v: nat)
    requires OnFirstPair(Star, p) && IsBroadcast(p) && v < p.n && v != 0
    ensures Parent(p, v) == 0
  {
    var u := Parent(p, v);
    StarIsTreePair(p.n, 0);
    assert p.At(0) == p.trees[0] && p.Rows(p.trees[0]);
    assert v in p.trees[0].gp.bcast.nexts[u];
  }

  lemma RingParent<T>(p: Plan<T>, v: nat)
    requires OnFirstPair(Ring, p) && IsBroadcast(p) && v < p.n && v != 0
    ensures Parent(p, v) == v - 1
  {
    RingSources(p.n, 0, v);
    assert p.At(0) == p.trees[0] && p.Rows(p.trees[0]);
  }

  /** The star broadcasts the root's input to all. On the ring each rank ends with what the rank
      before it put into its own `send` buffer. */
  lemma SessionBroadcasts<T>(s: Strategy, p: Plan<T>, tr: seq<Sys<T>>, acts: seq<Action>, i: nat, v: nat, k: nat)
    requires OnFirstPair(s, p) && Run(p, tr, acts) && i < |tr| && v < p.n && k < tr[i].ranks[v].round
    requires forall u :: 0 <= u < p.n ==> !p.inPlace[u]
    ensures k < |p.xs| && k < |tr[i].ranks[v].outs|
    ensures tr[i].ranks[v].outs[k] == p.xs[k][if v == 0 then 0 else if s.Star? then 0 else v - 1]
  {
    FirstPairIsTree(s, p);
    ResultsAreDetermined(p, tr, acts, i, v, k);
    if v != 0 {
      if s.Star? { StarParent(p, v); } else { RingParent(p, v); }
    }
  }
}
