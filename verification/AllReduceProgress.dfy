/** Every run of the all-reduce protocol over a tree pair keeps each call's messages
    to itself, never blocks, and ends with every call returned at every rank. These
    hold for every operator: nothing here looks at the data. */
module AllReduceProgress {
  import opened Basics
  import opened Graphs
  import opened AllReduce

  lemma {:induction false} RunControl<T>(p: Plan<T>, tr: seq<Sys<T>>, acts: seq<Action>, i: nat)
    requires p.Valid() && Run(p, tr, acts) && i < |tr|
    ensures Control(p, tr[i])
  {
    if i == 0 {
      InitControl(p, tr[0]);
    } else {
      var j := i - 1;
      RunControl(p, tr, acts, j);
      StepControl(p, tr[j], acts[j]);
    }
  }

  /** In every reachable state a plain message at the head of a stream finds its mailbox
      channel empty, so the handler's put never blocks, and no channel holds two messages. */
  lemma MailboxNeverFull<T>(p: Plan<T>, tr: seq<Sys<T>>, acts: seq<Action>, i: nat, u: nat, v: nat)
    requires p.Valid() && Run(p, tr, acts) && i < |tr| && u < p.n && v < p.n
    ensures |tr[i].Box(u, v)| <= 1 && |tr[i].Wire(u, v)| <= 2
    ensures tr[i].Wire(u, v) != [] && !tr[i].Wire(u, v)[0].waitRecvBuf ==> Enabled(p, tr[i], Handle(u, v))
  {
    RunControl(p, tr, acts, i);
    assert EdgeOk(p, tr[i], u, v);
  }

  /** A message is consumed by the same call, counted per rank, that sent it. */
  lemma NoCrossTalk<T>(p: Plan<T>, tr: seq<Sys<T>>, acts: seq<Action>, i: nat)
    requires p.Valid() && Run(p, tr, acts) && i < |acts|
    ensures acts[i].RecvReduce? ==>
              tr[i].Box(acts[i].peer, acts[i].v)[0].stamp == tr[i].ranks[acts[i].v].round
    ensures acts[i].Handle? && tr[i].Wire(acts[i].peer, acts[i].v)[0].waitRecvBuf ==>
              tr[i].Wire(acts[i].peer, acts[i].v)[0].stamp == tr[i].ranks[acts[i].v].round
  {
    RunControl(p, tr, acts, i);
    var a := acts[i];
    assert Enabled(p, tr[i], a);
    if a.RecvReduce? || (a.Handle? && tr[i].Wire(a.peer, a.v)[0].waitRecvBuf) {
      assert RankOk(p, a.v, tr[i].ranks[a.v]);
      PeerInRange(p, tr[i].ranks[a.v].round, a.v, a.peer);
      CallEnds(p, tr[i].ranks[a.v].round, a.peer, a.v);
      assert EdgeOk(p, tr[i], a.peer, a.v);
    }
  }

  lemma PeerInRange<T>(p: Plan<T>, k: nat, v: nat, u: nat)
    requires p.Valid() && v < p.n && (u in p.RPrevs(k, v) || u in p.BPrevs(k, v))
    ensures u < p.n
  {
    assert p.IsPair(p.At(k)) && p.Rows(p.At(k));
    if u in p.BPrevs(k, v) && v != p.Root(k) { assert p.BPrevs(k, v) == [p.BParent(k, v)]; }
  }

  // ---------------------------------------------------------------- one name per call

  /** The same protocol when every call has a name of its own, as the chunks of one call do:
      queues and slots are found by peer and name. */
  ghost predicate EnabledByName<T>(p: Plan<T>, s: Sys<T>, a: Action)
    requires p.Shape() && |s.ranks| == p.n
  {
    a.v < p.n && (a.Handle? || s.ranks[a.v].round < |p.xs|) &&
    var r := s.ranks[a.v];
    match a
    case RecvReduce(v, c) => c in r.toRecvR && s.Box(c, v) != [] && s.Box(c, v)[0].stamp == r.round
    case Handle(u, v) =>
      && u < p.n && s.Wire(u, v) != []
      && (if s.Wire(u, v)[0].waitRecvBuf
          then r.slot == Registered && r.toRecvB != [] && r.toRecvB[0] == u && s.Wire(u, v)[0].stamp == r.round
          else forall i :: 0 <= i < |s.Box(u, v)| ==> s.Box(u, v)[i].stamp != s.Wire(u, v)[0].stamp)
    case _ => Enabled(p, s, a)
  }

  lemma ReceivedByName<T>(p: Plan<T>, s: Sys<T>, v: nat, c: nat)
    requires p.Valid() && Control(p, s) && v < p.n && c in s.ranks[v].toRecvR && s.Box(c, v) != []
    ensures s.Box(c, v)[0].stamp == s.ranks[v].round
  {
    assert RankOk(p, v, s.ranks[v]);
    PeerInRange(p, s.ranks[v].round, v, c);
    assert EdgeOk(p, s, c, v);
  }

  lemma HandledByName<T>(p: Plan<T>, s: Sys<T>, u: nat, v: nat)
    requires p.Valid() && Control(p, s) && u < p.n && v < p.n && s.Wire(u, v) != []
    ensures !s.Wire(u, v)[0].waitRecvBuf ==> s.Box(u, v) == []
    ensures var r := s.ranks[v];
            s.Wire(u, v)[0].waitRecvBuf && r.slot == Registered && r.toRecvB != [] ==>
              s.Wire(u, v)[0].stamp == r.round
  {
    assert EdgeOk(p, s, u, v) && RankOk(p, v, s.ranks[v]);
  }

  /** In every reachable state the two forms allow the same actions, so back-to-back calls
      with one name or with a name each have the same runs. */
  lemma NamesDoNotMatter<T>(p: Plan<T>, tr: seq<Sys<T>>, acts: seq<Action>, i: nat, a: Action)
    requires p.Valid() && Run(p, tr, acts) && i < |tr|
    ensures EnabledByName(p, tr[i], a) <==> Enabled(p, tr[i], a)
  {
    RunControl(p, tr, acts, i);
    SameByName(p, tr[i], a);
  }

  lemma SameByName<T>(p: Plan<T>, s: Sys<T>, a: Action)
    requires p.Valid() && Control(p, s)
    ensures EnabledByName(p, s, a) <==> Enabled(p, s, a)
  {
    match a {
      case RecvReduce(v, c) =>
        if v < p.n && c in s.ranks[v].toRecvR && s.Box(c, v) != [] { ReceivedByName(p, s, v, c); }
      case Handle(u, v) =>
        if u < p.n && v < p.n && s.Wire(u, v) != [] { HandledByName(p, s, u, v); }
      case _ =>
    }
  }

  // ---------------------------------------------------------------- deadlock freedom

  /** How far a waiting rank is from the end of the chain it waits along. */
  ghost function DepthLeft<T>(p: Plan<T>, s: Sys<T>, v: nat): int
    requires p.Valid() && Control(p, s) && v < p.n
  {
    var k := s.ranks[v].round;
    if s.ranks[v].toRecvR == {} then p.BDepth(k, v) else MaxOf(p.At(k).rdepth) - p.RDepth(k, v)
  }

  lemma DepthOfWaiting<T>(p: Plan<T>, s: Sys<T>, v: nat)
    requires p.Valid() && Control(p, s) && v < p.n
    ensures DepthLeft(p, s, v) >= 0
  {
    assert p.IsPair(p.At(s.ranks[v].round));
  }

  /** The child `c` has sent what `v` waits for, or is behind it in the reduce stage. */
  lemma AwaitedChild<T>(p: Plan<T>, s: Sys<T>, v: nat, c: nat)
    requires p.Valid() && Control(p, s) && v < p.n && c in s.ranks[v].toRecvR
    ensures c < p.n
    ensures var q, k := s.ranks[c], s.ranks[v].round;
            || s.Box(c, v) != []
            || (s.Wire(c, v) != [] && !s.Wire(c, v)[0].waitRecvBuf)
            || (q.round == k && q.toRecvR == {} && v in q.toSendR)
            || q.round < k
            || (q.round == k && q.toRecvR != {} && p.RDepth(k, v) < p.RDepth(k, c))
  {
    var k := s.ranks[v].round;
    assert RankOk(p, v, s.ranks[v]);
    PeerInRange(p, k, v, c);
    CallEnds(p, k, c, v);
    assert EdgeOk(p, s, c, v) && RankOk(p, c, s.ranks[c]);
    GotAfterReduced(p, s, v, c);
    assert REdge(p, k, c, v);
    assert c != p.Root(k) && p.RParent(k, c) == v by { assert p.IsPair(p.At(k)); }
  }

  /** The parent has sent what `v` waits for, or is not past `v` in the broadcast stage. */
  lemma AwaitedParent<T>(p: Plan<T>, s: Sys<T>, v: nat)
    requires p.Valid() && Control(p, s) && v < p.n && s.ranks[v].entered && s.ranks[v].toRecvB != []
    ensures var k := s.ranks[v].round;
            && v != p.Root(k) && s.ranks[v].toRecvB == [p.BParent(k, v)]
            && var u, q := p.BParent(k, v), s.ranks[p.BParent(k, v)];
               || (s.ranks[v].slot != Delivered && s.Wire(u, v) != [] && s.Wire(u, v)[0].waitRecvBuf)
               || s.ranks[v].slot == Delivered
               || (q.round == k && q.entered && q.toRecvB == [] && v in q.toSendB)
               || q.round < k
               || (q.round == k && (q.toRecvR != {} || p.BDepth(k, u) < p.BDepth(k, v)))
  {
    var k := s.ranks[v].round;
    assert RankOk(p, v, s.ranks[v]);
    assert p.BPrevs(k, v) == [] || v != p.Root(k) by { assert p.IsPair(p.At(k)); }
    var u := p.BParent(k, v);
    CallEnds(p, k, u, v);
    assert EdgeOk(p, s, u, v) && RankOk(p, u, s.ranks[u]);
  }

  /** Follows what rank `v` waits for, down the reduce tree or up the broadcast tree of its
      call and never to a later call, until it meets an action that is enabled. */
  lemma {:induction false} Unblock<T>(p: Plan<T>, s: Sys<T>, v: nat) returns (a: Action)
    requires p.Valid() && Control(p, s) && v < p.n && s.ranks[v].round < |p.xs|
    ensures Enabled(p, s, a)
    decreases s.ranks[v].round, if s.ranks[v].toRecvR == {} then 1 else 0, DepthLeft(p, s, v)
  {
    var r := s.ranks[v];
    if r.toRecvR != {} {
      var c :| c in r.toRecvR;
      AwaitedChild(p, s, v, c);
      if s.Box(c, v) != [] { return RecvReduce(v, c); }
      if s.Wire(c, v) != [] && !s.Wire(c, v)[0].waitRecvBuf { return Handle(c, v); }
      if s.ranks[c].round == r.round && s.ranks[c].toRecvR == {} && v in s.ranks[c].toSendR {
        return SendReduce(c, v);
      }
      DepthOfWaiting(p, s, v);
      DepthOfWaiting(p, s, c);
      a := Unblock(p, s, c);
    } else if d :| d in r.toSendR {
      return SendReduce(v, d);
    } else if !r.entered {
      return Enter(v);
    } else if r.toRecvB != [] {
      AwaitedParent(p, s, v);
      var u := p.BParent(r.round, v);
      if r.slot == Idle { return Register(v); }
      if r.slot == Delivered { return FinishRecv(v); }
      if s.Wire(u, v) != [] && s.Wire(u, v)[0].waitRecvBuf { return Handle(u, v); }
      var q := s.ranks[u];
      if q.round == r.round && q.entered && q.toRecvB == [] && v in q.toSendB { return SendBcast(u, v); }
      a := Unblock(p, s, u);
    } else if d :| d in r.toSendB {
      return SendBcast(v, d);
    } else {
      return Return(v);
    }
  }

  /** A broadcast message at the head of a stream goes to a rank that has left the reduce
      stage of its call and waits for it, or is about to. */
  lemma BcastArrives<T>(p: Plan<T>, s: Sys<T>, u: nat, v: nat)
    requires p.Valid() && Control(p, s) && u < p.n && v < p.n
    requires s.Wire(u, v) != [] && s.Wire(u, v)[0].waitRecvBuf
    ensures u != v && s.ranks[v].round < |p.xs| && Reduced(s.ranks[v]) > s.ranks[v].round
    ensures s.ranks[v].toRecvB == [u] && s.ranks[v].slot != Delivered
  {
    BcastIsOut(p, s, u, v);
    GotAfterReduced(p, s, v, u);
    CallEnds(p, TakenB(s.ranks[v]), u, v);
    assert RankOk(p, v, s.ranks[v]) && RankOk(p, u, s.ranks[u]);
  }

  lemma BcastIsOut<T>(p: Plan<T>, s: Sys<T>, u: nat, v: nat)
    requires p.Valid() && Control(p, s) && u < p.n && v < p.n
    requires s.Wire(u, v) != [] && s.Wire(u, v)[0].waitRecvBuf
    ensures BEdge(p, TakenB(s.ranks[v]), u, v) && Got(s.ranks[u]) > TakenB(s.ranks[v])
    ensures TakenB(s.ranks[v]) < |p.xs|
  {
    assert EdgeOk(p, s, u, v) && RankOk(p, u, s.ranks[u]);
  }

  /** A message at the head of a stream is taken in, or the rank it goes to can move on
      towards the broadcast stage that wants it. */
  lemma ArrivalMoves<T>(p: Plan<T>, s: Sys<T>, u: nat, v: nat) returns (a: Action)
    requires p.Valid() && Control(p, s) && u < p.n && v < p.n && s.Wire(u, v) != []
    ensures Enabled(p, s, a) && a.v == v && (a.Handle? ==> a.peer == u)
    ensures !a.Handle? ==> p.n >= 2 && Reduced(s.ranks[v]) > 0
  {
    if s.Wire(u, v)[0].waitRecvBuf {
      BcastArrives(p, s, u, v);
      if !s.ranks[v].entered { return Enter(v); }
      if s.ranks[v].slot == Idle { return Register(v); }
    } else {
      assert EdgeOk(p, s, u, v);
    }
    return Handle(u, v);
  }

  /** Every reachable state with an unfinished call has an enabled action; a finished run
      has drained every stream and mailbox. */
  lemma NeverStuck<T>(p: Plan<T>, tr: seq<Sys<T>>, acts: seq<Action>)
    requires p.Valid() && Run(p, tr, acts)
    ensures var s := tr[|acts|];
            if Finished(p, s)
            then forall u: nat, v: nat :: u < p.n && v < p.n ==> s.Wire(u, v) == [] == s.Box(u, v)
            else exists a :: Enabled(p, s, a)
  {
    var s := tr[|acts|];
    RunControl(p, tr, acts, |acts|);
    if Finished(p, s) {
      forall u: nat, v: nat | u < p.n && v < p.n ensures s.Wire(u, v) == [] == s.Box(u, v) {
        CallEnds(p, |p.xs|, u, v);
        assert EdgeOk(p, s, u, v) && RankOk(p, u, s.ranks[u]) && RankOk(p, v, s.ranks[v]);
      }
    } else {
      var v :| 0 <= v < |s.ranks| && s.ranks[v].round != |p.xs|;
      assert RankOk(p, v, s.ranks[v]);
      var a := Unblock(p, s, v);
    }
  }

  // ---------------------------------------------------------------- termination

  ghost function FullBoxes<T>(p: Plan<T>, s: Sys<T>, v: nat): set<nat> {
    set u: nat | u < p.n && s.Box(u, v) != []
  }

  /** Actions of rank `v` and its handlers for one call. */
  ghost function CallCost<T>(p: Plan<T>, k: nat, v: nat): nat
    requires p.Shape() && v < p.n
  {
    2 * |p.RPrevs(k, v)| + |p.RNexts(k, v)| + 1 + 3 * |p.BPrevs(k, v)| + |p.BNexts(k, v)| + 1
  }

  /** Likewise for all the calls from call `k` on. */
  ghost function Rest<T>(p: Plan<T>, v: nat, k: nat): nat
    requires p.Shape() && v < p.n
    decreases |p.xs| - k
  {
    if k >= |p.xs| then 0 else CallCost(p, k, v) + Rest(p, v, k + 1)
  }

  /** What is left of the call a rank is in, up to its return. */
  function Left<T>(r: Rank<T>): int {
    2 * |r.toRecvR| + |r.toSendR| + (if r.entered then 0 else 1) + 3 * |r.toRecvB| + |r.toSendB|
    - (match r.slot case Idle => 0 case Registered => 1 case Delivered => 2)
  }

  ghost function RankWork<T>(p: Plan<T>, v: nat, r: Rank<T>): int
    requires p.Shape() && v < p.n
  {
    if r.round < |p.xs| then Rest(p, v, r.round + 1) + 1 + Left(r) else 0
  }

  /** Actions rank `v` and its handlers still have to take. */
  ghost function Work<T>(p: Plan<T>, s: Sys<T>, v: nat): int
    requires p.Shape() && |s.ranks| == p.n && v < p.n
  {
    RankWork(p, v, s.ranks[v]) - |FullBoxes(p, s, v)|
  }

  /** What a rank may find in its mailbox channels: messages of the call it is in and the next. */
  ghost function Expected<T>(p: Plan<T>, v: nat, r: Rank<T>): set<nat>
    requires p.Shape() && v < p.n
  {
    (if r.round < |p.xs| then r.toRecvR else {}) + if r.round + 1 < |p.xs| then p.RPrevs(r.round + 1, v) else {}
  }

  lemma FullBoxIsNear<T>(p: Plan<T>, s: Sys<T>, v: nat, u: nat)
    requires p.Valid() && Control(p, s) && v < p.n && u in FullBoxes(p, s, v)
    ensures u in Expected(p, v, s.ranks[v])
  {
    var r := s.ranks[v];
    assert EdgeOk(p, s, u, v) && RankOk(p, v, r) && RankOk(p, u, s.ranks[u]);
    CallEnds(p, r.round, u, v);
    CallEnds(p, r.round + 1, u, v);
  }

  lemma ExpectedSize<T>(p: Plan<T>, v: nat, r: Rank<T>)
    requires p.Shape() && v < p.n && RankOk(p, v, r)
    ensures |Expected(p, v, r)| <= RankWork(p, v, r)
  {
    if r.round < |p.xs| {
      LeftCovers(p, v, r);
      RestCovers(p, v, r.round + 1);
    }
  }

  lemma RestCovers<T>(p: Plan<T>, v: nat, k: nat)
    requires p.Shape() && v < p.n
    ensures Rest(p, v, k) >= if k < |p.xs| then |p.RPrevs(k, v)| else 0
  {
  }

  lemma LeftCovers<T>(p: Plan<T>, v: nat, r: Rank<T>)
    requires p.Shape() && v < p.n && RankOk(p, v, r)
    ensures Left(r) >= 2 * |r.toRecvR|
  {
  }

  lemma WorkNonNegative<T>(p: Plan<T>, s: Sys<T>, v: nat)
    requires p.Valid() && Control(p, s) && v < p.n
    ensures Work(p, s, v) >= 0
  {
    forall u | u in FullBoxes(p, s, v) ensures u in Expected(p, v, s.ranks[v]) { FullBoxIsNear(p, s, v, u); }
    SubsetSize(FullBoxes(p, s, v), Expected(p, v, s.ranks[v]));
    assert RankOk(p, v, s.ranks[v]);
    ExpectedSize(p, v, s.ranks[v]);
  }

  /** An action takes one off the work of the rank it acts on and leaves the others alone. */
  lemma WorkShrinks<T>(p: Plan<T>, s: Sys<T>, a: Action)
    requires p.Valid() && Control(p, s) && Enabled(p, s, a)
    ensures Work(p, Apply(p, s, a), a.v) == Work(p, s, a.v) - 1
  {
    var r := s.ranks[a.v];
    assert RankOk(p, a.v, r);
    CallEnds(p, r.round, a.v, a.v);
    match a {
      case RecvReduce(v, c) =>
        PeerInRange(p, r.round, v, c);
        assert EdgeOk(p, s, c, v);
        WorkRecv(p, s, a);
      case Handle(u, v) => WorkHandle(p, s, a);
      case Return(v) => WorkReturn(p, s, a);
      case _ => WorkLocal(p, s, a);
    }
  }

  lemma WorkRecv<T>(p: Plan<T>, s: Sys<T>, a: Action)
    requires p.Shape() && |s.ranks| == p.n && Enabled(p, s, a)
    requires a.RecvReduce? && a.peer < p.n && |s.Box(a.peer, a.v)| == 1
    ensures Work(p, Apply(p, s, a), a.v) == Work(p, s, a.v) - 1
  {
    var s' := Apply(p, s, a);
    assert s'.Box(a.peer, a.v) == [];
    BoxFreed(p, s, s', a.v, a.peer);
    assert |s'.ranks[a.v].toRecvR| == |s.ranks[a.v].toRecvR| - 1;
  }

  lemma WorkHandle<T>(p: Plan<T>, s: Sys<T>, a: Action)
    requires p.Shape() && |s.ranks| == p.n && Enabled(p, s, a) && a.Handle? && RankOk(p, a.v, s.ranks[a.v])
    ensures Work(p, Apply(p, s, a), a.v) == Work(p, s, a.v) - 1
  {
    var s' := Apply(p, s, a);
    if s.Wire(a.peer, a.v)[0].waitRecvBuf {
      assert FullBoxes(p, s', a.v) == FullBoxes(p, s, a.v);
    } else {
      BoxFreed(p, s', s, a.v, a.peer);
    }
  }

  lemma WorkReturn<T>(p: Plan<T>, s: Sys<T>, a: Action)
    requires p.Shape() && |s.ranks| == p.n && Enabled(p, s, a) && RankOk(p, a.v, s.ranks[a.v])
    requires a.Return?
    ensures Work(p, Apply(p, s, a), a.v) == Work(p, s, a.v) - 1
  {
    assert FullBoxes(p, Apply(p, s, a), a.v) == FullBoxes(p, s, a.v);
    ReturnedWork(p, a.v, s.ranks[a.v]);
  }

  lemma ReturnedWork<T>(p: Plan<T>, v: nat, r: Rank<T>)
    requires p.Shape() && v < p.n && RankOk(p, v, r) && r.round < |p.xs|
    requires r.entered && r.toRecvB == [] && r.toSendB == {}
    ensures RankWork(p, v, StartRank(p, v, r.round + 1, r.recv, r.outs + [r.recv])) == RankWork(p, v, r) - 1
  {
    StartWork(p, v, r.round + 1, r.recv, r.outs + [r.recv]);
    assert Left(r) == 0;
  }

  lemma StartWork<T>(p: Plan<T>, v: nat, k: nat, recv: T, outs: seq<T>)
    requires p.Shape() && v < p.n
    ensures RankWork(p, v, StartRank(p, v, k, recv, outs)) == Rest(p, v, k)
  {
    assert Left(StartRank(p, v, k, recv, outs)) == CallCost(p, k, v) - 1;
  }

  lemma LeftLocal<T>(p: Plan<T>, s: Sys<T>, a: Action)
    requires p.Shape() && |s.ranks| == p.n && Enabled(p, s, a) && RankOk(p, a.v, s.ranks[a.v])
    requires Ends(p, s.ranks[a.v].round, a.v, a.v)
    requires a.SendReduce? || a.Enter? || a.Register? || a.FinishRecv? || a.SendBcast?
    ensures Left(NextRank(p, s, a)) == Left(s.ranks[a.v]) - 1 && NextRank(p, s, a).round == s.ranks[a.v].round
  {
    var r, r' := s.ranks[a.v], NextRank(p, s, a);
    if a.SendReduce? { assert |r'.toSendR| == |r.toSendR| - 1; }
    if a.SendBcast? { assert |r'.toSendB| == |r.toSendB| - 1; }
  }

  lemma WorkLocal<T>(p: Plan<T>, s: Sys<T>, a: Action)
    requires p.Shape() && |s.ranks| == p.n && Enabled(p, s, a) && RankOk(p, a.v, s.ranks[a.v])
    requires Ends(p, s.ranks[a.v].round, a.v, a.v)
    requires a.SendReduce? || a.Enter? || a.Register? || a.FinishRecv? || a.SendBcast?
    ensures Work(p, Apply(p, s, a), a.v) == Work(p, s, a.v) - 1
  {
    SameBoxes(p, s, Apply(p, s, a), a.v);
    LeftLocal(p, s, a);
    assert Apply(p, s, a).ranks[a.v] == NextRank(p, s, a);
    OneLessLeft(p, a.v, s.ranks[a.v], NextRank(p, s, a));
  }

  lemma SameBoxes<T>(p: Plan<T>, s: Sys<T>, s': Sys<T>, v: nat)
    requires s'.box == s.box
    ensures FullBoxes(p, s', v) == FullBoxes(p, s, v)
  {
  }

  lemma OneLessLeft<T>(p: Plan<T>, v: nat, r: Rank<T>, r': Rank<T>)
    requires p.Shape() && v < p.n && r.round < |p.xs| && r'.round == r.round && Left(r') == Left(r) - 1
    ensures RankWork(p, v, r') == RankWork(p, v, r) - 1
  {
  }

  lemma OtherWork<T>(p: Plan<T>, s: Sys<T>, a: Action, v: nat)
    requires p.Shape() && |s.ranks| == p.n && Enabled(p, s, a) && v < p.n && v != a.v
    ensures Work(p, Apply(p, s, a), v) == Work(p, s, v)
  {
    assert FullBoxes(p, Apply(p, s, a), v) == FullBoxes(p, s, v);
  }

  lemma BoxFreed<T>(p: Plan<T>, s: Sys<T>, s': Sys<T>, v: nat, c: nat)
    requires c < p.n && s.Box(c, v) != [] && s'.Box(c, v) == []
    requires forall u: nat :: u != c ==> s'.Box(u, v) == s.Box(u, v)
    ensures |FullBoxes(p, s, v)| == |FullBoxes(p, s', v)| + 1
  {
    assert FullBoxes(p, s, v) == FullBoxes(p, s', v) + {c};
  }

  ghost function Works<T>(p: Plan<T>, s: Sys<T>): (ws: seq<int>)
    requires p.Shape() && |s.ranks| == p.n
    ensures |ws| == p.n && forall v: nat :: v < p.n ==> ws[v] == Work(p, s, v)
  {
    seq(p.n, v requires 0 <= v < p.n => Work(p, s, v))
  }

  ghost function TotalWork<T>(p: Plan<T>, s: Sys<T>): int
    requires p.Shape() && |s.ranks| == p.n
  {
    Sum(Works(p, s))
  }

  lemma TotalWorkShrinks<T>(p: Plan<T>, s: Sys<T>, a: Action)
    requires p.Valid() && Control(p, s) && Enabled(p, s, a)
    ensures TotalWork(p, Apply(p, s, a)) == TotalWork(p, s) - 1
  {
    var ws, ws' := Works(p, s), Works(p, Apply(p, s, a));
    forall v: nat | v < p.n ensures ws'[v] == ws[v] - One(v == a.v) {
      if v == a.v { WorkShrinks(p, s, a); } else { OtherWork(p, s, a, v); }
    }
    OneLess(ws, ws', a.v);
  }

  lemma TotalWorkNonNegative<T>(p: Plan<T>, s: Sys<T>)
    requires p.Valid() && Control(p, s)
    ensures TotalWork(p, s) >= 0
  {
    forall v: nat | v < p.n ensures Works(p, s)[v] >= 0 { WorkNonNegative(p, s, v); }
    SumNonNegative(Works(p, s));
  }

  lemma StepOfRun<T>(p: Plan<T>, tr: seq<Sys<T>>, acts: seq<Action>, j: nat)
    requires p.Valid() && Run(p, tr, acts) && j < |acts|
    ensures TotalWork(p, tr[j + 1]) == TotalWork(p, tr[j]) - 1
  {
    RunControl(p, tr, acts, j);
    TotalWorkShrinks(p, tr[j], acts[j]);
  }

  lemma {:induction false} WorkAlongRun<T>(p: Plan<T>, tr: seq<Sys<T>>, acts: seq<Action>, i: nat)
    requires p.Valid() && Run(p, tr, acts) && i < |tr|
    ensures TotalWork(p, tr[i]) == TotalWork(p, tr[0]) - i
  {
    if i > 0 {
      var j := i - 1;
      WorkAlongRun(p, tr, acts, j);
      StepOfRun(p, tr, acts, j);
    }
  }

  /** No run is longer than the work its first state holds. */
  lemma RunsAreFinite<T>(p: Plan<T>, tr: seq<Sys<T>>, acts: seq<Action>)
    requires p.Valid() && Run(p, tr, acts)
    ensures |acts| <= TotalWork(p, tr[0])
  {
    WorkAlongRun(p, tr, acts, |acts|);
    RunControl(p, tr, acts, |acts|);
    TotalWorkNonNegative(p, tr[|acts|]);
  }

  /** Actions of all the calls, rank by rank. */
  ghost function Costs<T>(p: Plan<T>): (cs: seq<int>)
    requires p.Shape()
    ensures |cs| == p.n && forall v: nat :: v < p.n ==> cs[v] == Rest(p, v, 0)
  {
    seq(p.n, v requires 0 <= v < p.n => Rest(p, v, 0))
  }

  lemma InitialWork<T>(p: Plan<T>, s: Sys<T>)
    requires p.Valid() && Init(p, s)
    ensures Works(p, s) == Costs(p)
  {
    forall v: nat | v < p.n ensures Work(p, s, v) == Rest(p, v, 0) {
      assert s.ranks[v] == StartRank(p, v, 0, s.ranks[v].recv, []);
      StartWork(p, v, 0, s.ranks[v].recv, []);
      assert FullBoxes(p, s, v) == {};
    }
  }

  lemma FinalWork<T>(p: Plan<T>, f: Sys<T>)
    requires p.Valid() && Control(p, f) && Finished(p, f)
    ensures TotalWork(p, f) == 0
  {
    forall v: nat | v < p.n ensures Works(p, f)[v] == 0 {
      WorkNonNegative(p, f, v);
    }
    SumZero(Works(p, f));
  }

  /** Every complete run has the same length: what its calls cost, over all ranks. */
  lemma CompleteRunLength<T>(p: Plan<T>, tr: seq<Sys<T>>, acts: seq<Action>)
    requires p.Valid() && Run(p, tr, acts) && Finished(p, tr[|acts|])
    ensures |acts| == Sum(Costs(p))
  {
    WorkAlongRun(p, tr, acts, |acts|);
    RunControl(p, tr, acts, |acts|);
    InitialWork(p, tr[0]);
    FinalWork(p, tr[|acts|]);
  }

  // ---------------------------------------------------------------- complete runs exist

  ghost function StartState<T>(p: Plan<T>): (s: Sys<T>)
    requires p.Valid() && p.xs != []
    ensures Init(p, s)
  {
    assert p.IsPair(p.At(0));
    Sys(seq(p.n, v requires 0 <= v < p.n => StartRank(p, v, 0, p.xs[0][0], [])), map[], map[])
  }

  lemma OneMoreAction<T>(p: Plan<T>, tr: seq<Sys<T>>, acts: seq<Action>, a: Action)
    requires p.Shape() && Run(p, tr, acts) && Enabled(p, tr[|acts|], a)
    ensures Run(p, tr + [Apply(p, tr[|acts|], a)], acts + [a])
  {
    var tr', acts' := tr + [Apply(p, tr[|acts|], a)], acts + [a];
    forall i | 0 <= i < |acts'| ensures Enabled(p, tr'[i], acts'[i]) && tr'[i + 1] == Apply(p, tr'[i], acts'[i]) {
      if i < |acts| { assert tr'[i] == tr[i] && tr'[i + 1] == tr[i + 1] && acts'[i] == acts[i]; }
    }
  }

  /** Every run can be continued until all the calls have returned everywhere. */
  lemma {:induction false} ToTheEnd<T>(p: Plan<T>, tr: seq<Sys<T>>, acts: seq<Action>)
    returns (tr': seq<Sys<T>>, acts': seq<Action>)
    requires p.Valid() && Run(p, tr, acts)
    ensures Run(p, tr', acts') && tr <= tr' && acts <= acts' && Finished(p, tr'[|acts'|])
    decreases TotalWork(p, tr[0]) - |acts|
  {
    RunsAreFinite(p, tr, acts);
    if Finished(p, tr[|acts|]) {
      tr', acts' := tr, acts;
    } else {
      NeverStuck(p, tr, acts);
      var a :| Enabled(p, tr[|acts|], a);
      var more, acts1 := tr + [Apply(p, tr[|acts|], a)], acts + [a];
      OneMoreAction(p, tr, acts, a);
      RunsAreFinite(p, more, acts1);
      tr', acts' := ToTheEnd(p, more, acts1);
    }
  }

  lemma CompleteRun<T>(p: Plan<T>) returns (tr: seq<Sys<T>>, acts: seq<Action>)
    requires p.Valid() && p.xs != []
    ensures Run(p, tr, acts) && Finished(p, tr[|acts|])
  {
    var s := StartState(p);
    assert Run(p, [s], []);
    tr, acts := ToTheEnd(p, [s], []);
  }

  /** `session::barrier`: a rank returns from a call only after every rank has been through the
      reduce stage of that call. */
  lemma Barrier<T>(p: Plan<T>, tr: seq<Sys<T>>, acts: seq<Action>, i: nat, u: nat, v: nat, k: nat)
    requires p.Valid() && Run(p, tr, acts) && i < |tr| && u < p.n && v < p.n && k < tr[i].ranks[v].round
    ensures k < Reduced(tr[i].ranks[u])
  {
    RunControl(p, tr, acts, i);
    GotAfterReduced(p, tr[i], u, v);
  }

  // ---------------------------------------------------------------- a rank that does not take part

  /** Only the message handler acts for rank `b`. */
  ghost predicate Absent(acts: seq<Action>, b: nat) {
    forall i :: 0 <= i < |acts| ==> acts[i].v == b ==> acts[i].Handle?
  }

  /** A rank that has not begun its first call. */
  ghost predicate Fresh<T>(p: Plan<T>, v: nat, r: Rank<T>)
    requires p.Shape() && v < p.n
  {
    r.round == 0 && r.toRecvR == p.RPrevs(0, v) && r.toSendR == p.RNexts(0, v)
  }

  lemma {:induction false} AbsentRank<T>(p: Plan<T>, tr: seq<Sys<T>>, acts: seq<Action>, b: nat, k: nat)
    requires p.Valid() && Run(p, tr, acts) && b < p.n && Absent(acts, b) && k < |tr|
    ensures Fresh(p, b, tr[k].ranks[b])
  {
    if k > 0 {
      var i := k - 1;
      AbsentRank(p, tr, acts, b, i);
      assert acts[i].v == b ==> acts[i].Handle?;
      assert tr[i + 1] == Apply(p, tr[i], acts[i]);
    } else {
      assert tr[0].ranks[b] == StartRank(p, b, 0, tr[0].ranks[b].recv, []);
    }
  }

  /** With two ranks or more, every rank has something to do in the reduce stage. */
  lemma FreshHasNotReduced<T>(p: Plan<T>, b: nat, r: Rank<T>)
    requires p.Valid() && p.n >= 2 && b < p.n && Fresh(p, b, r)
    ensures Reduced(r) == 0
  {
    var t := p.At(0);
    assert p.IsPair(t) && p.Rows(t);
    if b == t.root {
      var c := RootHasChild(p.n, t.root, t.gp.reduce.nexts, t.gp.reduce.prevs, t.rdepth);
      assert c in p.RPrevs(0, b);
    } else {
      assert p.RNexts(0, b) == {p.RParent(0, b)};
    }
  }

  /** While one rank stays away, no rank gets the result, let alone returns from the call. */
  lemma AbsentRankBlocks<T>(p: Plan<T>, tr: seq<Sys<T>>, acts: seq<Action>, b: nat, v: nat, k: nat)
    requires p.Valid() && p.n >= 2 && Run(p, tr, acts) && b < p.n && Absent(acts, b) && k < |tr| && v < p.n
    ensures tr[k].ranks[v].round == 0 && !Enabled(p, tr[k], Return(v))
  {
    RunControl(p, tr, acts, k);
    AbsentRank(p, tr, acts, b, k);
    FreshHasNotReduced(p, b, tr[k].ranks[b]);
    GotAfterReduced(p, tr[k], b, v);
  }
}
