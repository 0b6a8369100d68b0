/** What every interleaving of the all-reduce protocol leaves in the receive buffers.

    `acc(k, v, R)` is any description of the value rank `v` holds in call `k` once it
    has added what the children in `R` sent; `Explains` says it describes one `add_to`
    at a time, whatever the order. */
module AllReduceResults {
  import opened AllReduce
  import opened AllReduceProgress

  type Account<T> = (nat, nat, set<nat>) -> T

  ghost predicate Explains<T>(p: Plan<T>, acc: Account<T>)
    requires p.Valid()
  {
    && (forall k: nat, v: nat :: k < |p.xs| && v < p.n ==> acc(k, v, {}) == p.xs[k][v])
    && (forall k: nat, v: nat, c: nat, got: set<nat> ::
          k < |p.xs| && v < p.n && c in p.RPrevs(k, v) && c !in got && got <= p.RPrevs(k, v) ==>
            AddsOne(p, acc, k, v, c, got))
  }

  /** Adding the message of `c` moves the account from `got` to `got + {c}`. */
  ghost predicate AddsOne<T>(p: Plan<T>, acc: Account<T>, k: nat, v: nat, c: nat, got: set<nat>)
    requires p.Valid()
  {
    c < p.n && acc(k, v, got + {c}) == p.op(Contribution(p, acc, k, c), acc(k, v, got))
  }

  /** What rank `u` sends to its parent in the reduce stage. */
  ghost function Contribution<T>(p: Plan<T>, acc: Account<T>, k: nat, u: nat): T
    requires p.Valid() && u < p.n
  {
    acc(k, u, p.RPrevs(k, u))
  }

  /** The receive buffer of rank `v` at the end of call `k`. */
  ghost function Outcome<T>(p: Plan<T>, acc: Account<T>, k: nat, v: nat): T
    requires p.Valid() && v < p.n && k < |p.xs|
    decreases p.BDepth(k, v), 0
  {
    if v == p.Root(k) then Contribution(p, acc, k, v) else Forwarded(p, acc, k, p.BParent(k, v))
  }

  /** What rank `u` sends in the broadcast stage: `effective_data` looks only at the count
      of reduce messages, so a rank that got none sends its `send` buffer again. */
  ghost function Forwarded<T>(p: Plan<T>, acc: Account<T>, k: nat, u: nat): T
    requires p.Valid() && u < p.n && k < |p.xs|
    decreases p.BDepth(k, u), 1
  {
    if p.RPrevs(k, u) != {} || p.inPlace[u] then Outcome(p, acc, k, u) else p.xs[k][u]
  }

  // ---------------------------------------------------------------- data invariant

  ghost predicate RankData<T>(p: Plan<T>, acc: Account<T>, v: nat, r: Rank<T>)
    requires p.Valid() && v < p.n && r.round <= |p.xs|
  {
    && |r.outs| == r.round
    && (forall j: nat :: j < r.round ==> r.outs[j] == Outcome(p, acc, j, v))
    && (r.round < |p.xs| ==>
          if r.slot == Delivered || (r.entered && r.toRecvB == [])
          then r.recv == Outcome(p, acc, r.round, v)
          else Effective(p, v, r) == acc(r.round, v, p.RPrevs(r.round, v) - r.toRecvR))
  }

  ghost predicate MsgData<T>(p: Plan<T>, acc: Account<T>, u: nat, m: Msg<T>)
    requires p.Valid() && u < p.n
  {
    m.stamp < |p.xs| &&
    m.data == if m.waitRecvBuf then Forwarded(p, acc, m.stamp, u) else Contribution(p, acc, m.stamp, u)
  }

  ghost predicate LinkData<T>(p: Plan<T>, acc: Account<T>, u: nat, wire: seq<Msg<T>>, box: seq<Msg<T>>)
    requires p.Valid() && u < p.n
  {
    && (forall i :: 0 <= i < |wire| ==> MsgData(p, acc, u, wire[i]))
    && (forall i :: 0 <= i < |box| ==> MsgData(p, acc, u, box[i]))
  }

  ghost predicate Data<T>(p: Plan<T>, acc: Account<T>, s: Sys<T>)
    requires p.Valid() && Control(p, s)
  {
    && (forall v: nat :: v < p.n ==> RankOk(p, v, s.ranks[v]) && RankData(p, acc, v, s.ranks[v]))
    && (forall u: nat, v: nat :: u < p.n && v < p.n ==> LinkData(p, acc, u, s.Wire(u, v), s.Box(u, v)))
  }

  lemma StartData<T>(p: Plan<T>, acc: Account<T>, v: nat, round: nat, recv: T, outs: seq<T>)
    requires p.Valid() && Explains(p, acc) && v < p.n && round <= |p.xs| && |outs| == round
    requires forall j: nat :: j < round ==> outs[j] == Outcome(p, acc, j, v)
    ensures RankData(p, acc, v, StartRank(p, v, round, recv, outs))
  {
    assert p.RPrevs(round, v) - p.RPrevs(round, v) == {};
  }

  lemma WaitingData<T>(p: Plan<T>, acc: Account<T>, s: Sys<T>, v: nat, c: nat)
    requires p.Valid() && Control(p, s) && Data(p, acc, s) && Enabled(p, s, RecvReduce(v, c))
    ensures c < p.n && s.Box(c, v)[0].data == Contribution(p, acc, s.ranks[v].round, c)
  {
    assert RankOk(p, v, s.ranks[v]);
    PeerInRange(p, s.ranks[v].round, v, c);
    assert EdgeOk(p, s, c, v) && LinkData(p, acc, c, s.Wire(c, v), s.Box(c, v));
    assert MsgData(p, acc, c, s.Box(c, v)[0]);
  }

  lemma RecvData<T>(p: Plan<T>, acc: Account<T>, s: Sys<T>, v: nat, c: nat)
    requires p.Valid() && Explains(p, acc) && Control(p, s) && Data(p, acc, s) && Enabled(p, s, RecvReduce(v, c))
    ensures RankData(p, acc, v, NextRank(p, s, RecvReduce(v, c)))
  {
    var r, r' := s.ranks[v], NextRank(p, s, RecvReduce(v, c));
    assert RankOk(p, v, r) && RankData(p, acc, v, r);
    WaitingData(p, acc, s, v, c);
    var got := p.RPrevs(r.round, v) - r.toRecvR;
    assert AddsOne(p, acc, r.round, v, c, got);
    assert p.RPrevs(r.round, v) - r'.toRecvR == got + {c};
  }

  lemma DeliverData<T>(p: Plan<T>, acc: Account<T>, s: Sys<T>, u: nat, v: nat)
    requires p.Valid() && Control(p, s) && Data(p, acc, s) && Enabled(p, s, Handle(u, v)) && s.Wire(u, v)[0].waitRecvBuf
    ensures RankData(p, acc, v, NextRank(p, s, Handle(u, v)))
  {
    var k := s.ranks[v].round;
    assert RankOk(p, v, s.ranks[v]) && RankData(p, acc, v, s.ranks[v]);
    CallEnds(p, k, u, v);
    assert EdgeOk(p, s, u, v) && LinkData(p, acc, u, s.Wire(u, v), s.Box(u, v));
    assert MsgData(p, acc, u, s.Wire(u, v)[0]);
    assert v != p.Root(k) by { assert p.IsPair(p.At(k)); }
    assert u == p.BParent(k, v);
  }

  lemma EnterData<T>(p: Plan<T>, acc: Account<T>, s: Sys<T>, v: nat)
    requires p.Valid() && Explains(p, acc) && Control(p, s) && Data(p, acc, s) && Enabled(p, s, Enter(v))
    ensures RankData(p, acc, v, NextRank(p, s, Enter(v)))
  {
    var r := s.ranks[v];
    assert RankOk(p, v, r) && RankData(p, acc, v, r);
    if v != p.Root(r.round) { assert p.BPrevs(r.round, v) == [p.BParent(r.round, v)]; }
    assert p.RPrevs(r.round, v) - r.toRecvR == p.RPrevs(r.round, v);
  }

  lemma LocalData<T>(p: Plan<T>, acc: Account<T>, s: Sys<T>, a: Action)
    requires p.Valid() && Explains(p, acc) && Control(p, s) && Data(p, acc, s) && Enabled(p, s, a)
    requires !a.RecvReduce? && !a.Handle?
    ensures RankData(p, acc, a.v, NextRank(p, s, a))
  {
    var r := s.ranks[a.v];
    assert RankOk(p, a.v, r) && RankData(p, acc, a.v, r);
    if a.Enter? { EnterData(p, acc, s, a.v); }
    if a.Return? { StartData(p, acc, a.v, r.round + 1, r.recv, r.outs + [r.recv]); }
  }

  lemma StepRankData<T>(p: Plan<T>, acc: Account<T>, s: Sys<T>, a: Action)
    requires p.Valid() && Explains(p, acc) && Control(p, s) && Data(p, acc, s) && Enabled(p, s, a)
    requires Control(p, Apply(p, s, a))
    ensures RankOk(p, a.v, NextRank(p, s, a)) && RankData(p, acc, a.v, NextRank(p, s, a))
  {
    assert Apply(p, s, a).ranks[a.v] == NextRank(p, s, a);
    assert RankOk(p, a.v, NextRank(p, s, a)) && RankData(p, acc, a.v, s.ranks[a.v]);
    match a {
      case RecvReduce(v, c) => RecvData(p, acc, s, v, c);
      case Handle(u, v) => if s.Wire(u, v)[0].waitRecvBuf { DeliverData(p, acc, s, u, v); }
      case _ => LocalData(p, acc, s, a);
    }
  }

  lemma SentData<T>(p: Plan<T>, acc: Account<T>, s: Sys<T>, a: Action)
    requires p.Valid() && Control(p, s) && Data(p, acc, s) && Enabled(p, s, a) && (a.SendReduce? || a.SendBcast?)
    ensures MsgData(p, acc, a.v, Sent(p, s, a))
  {
    var r := s.ranks[a.v];
    assert RankOk(p, a.v, r) && RankData(p, acc, a.v, r);
    assert p.RPrevs(r.round, a.v) - {} == p.RPrevs(r.round, a.v);
  }

  /** No message appears on a link but the one that its sender puts there. */
  ghost predicate OnlySent<T>(s: Sys<T>, s': Sys<T>, u: nat, v: nat, sent: set<Msg<T>>) {
    && (forall i :: 0 <= i < |s'.Wire(u, v)| ==> s'.Wire(u, v)[i] in s.Wire(u, v) || s'.Wire(u, v)[i] in sent)
    && (forall i :: 0 <= i < |s'.Box(u, v)| ==> s'.Box(u, v)[i] in s.Wire(u, v) || s'.Box(u, v)[i] in s.Box(u, v))
  }

  ghost function Sent<T>(p: Plan<T>, s: Sys<T>, a: Action): Msg<T>
    requires p.Shape() && |s.ranks| == p.n && Enabled(p, s, a) && (a.SendReduce? || a.SendBcast?)
  {
    Msg(a.SendBcast?, Effective(p, a.v, s.ranks[a.v]), s.ranks[a.v].round)
  }

  lemma StepMessages<T>(p: Plan<T>, s: Sys<T>, a: Action, u: nat, v: nat)
    requires p.Shape() && |s.ranks| == p.n && Enabled(p, s, a)
    ensures OnlySent(s, Apply(p, s, a), u, v,
                     if (a.SendReduce? || a.SendBcast?) && a.v == u then {Sent(p, s, a)} else {})
  {
  }

  lemma StepLinkData<T>(p: Plan<T>, acc: Account<T>, s: Sys<T>, a: Action, u: nat, v: nat)
    requires p.Valid() && Control(p, s) && Data(p, acc, s) && Enabled(p, s, a) && u < p.n && v < p.n
    ensures LinkData(p, acc, u, Apply(p, s, a).Wire(u, v), Apply(p, s, a).Box(u, v))
  {
    assert LinkData(p, acc, u, s.Wire(u, v), s.Box(u, v));
    StepMessages(p, s, a, u, v);
    if (a.SendReduce? || a.SendBcast?) && a.v == u {
      SentData(p, acc, s, a);
      KeepsLinkData(p, acc, s, Apply(p, s, a), u, v, {Sent(p, s, a)});
    } else {
      KeepsLinkData(p, acc, s, Apply(p, s, a), u, v, {});
    }
  }

  lemma KeepsLinkData<T>(p: Plan<T>, acc: Account<T>, s: Sys<T>, s': Sys<T>, u: nat, v: nat, sent: set<Msg<T>>)
    requires p.Valid() && u < p.n && LinkData(p, acc, u, s.Wire(u, v), s.Box(u, v))
    requires OnlySent(s, s', u, v, sent) && forall m :: m in sent ==> MsgData(p, acc, u, m)
    ensures LinkData(p, acc, u, s'.Wire(u, v), s'.Box(u, v))
  {
  }

  lemma StepData<T>(p: Plan<T>, acc: Account<T>, s: Sys<T>, a: Action)
    requires p.Valid() && Explains(p, acc) && Control(p, s) && Data(p, acc, s) && Enabled(p, s, a)
    requires Control(p, Apply(p, s, a))
    ensures Data(p, acc, Apply(p, s, a))
  {
    var s' := Apply(p, s, a);
    StepRankData(p, acc, s, a);
    forall u: nat, v: nat | u < p.n && v < p.n ensures LinkData(p, acc, u, s'.Wire(u, v), s'.Box(u, v)) {
      StepLinkData(p, acc, s, a, u, v);
    }
    forall v: nat | v < p.n ensures RankOk(p, v, s'.ranks[v]) && RankData(p, acc, v, s'.ranks[v]) {
      assert RankOk(p, v, s.ranks[v]) && RankData(p, acc, v, s.ranks[v]);
    }
  }

  lemma InitData<T>(p: Plan<T>, acc: Account<T>, s: Sys<T>)
    requires p.Valid() && Explains(p, acc) && Init(p, s) && Control(p, s)
    ensures Data(p, acc, s)
  {
    forall v: nat | v < p.n ensures RankOk(p, v, s.ranks[v]) && RankData(p, acc, v, s.ranks[v]) {
      assert s.ranks[v] == StartRank(p, v, 0, s.ranks[v].recv, []);
      StartData(p, acc, v, 0, s.ranks[v].recv, []);
    }
  }

  lemma {:induction false} RunData<T>(p: Plan<T>, acc: Account<T>, tr: seq<Sys<T>>, acts: seq<Action>, i: nat)
    requires p.Valid() && Explains(p, acc) && Run(p, tr, acts) && i < |tr|
    ensures Control(p, tr[i]) && Data(p, acc, tr[i])
  {
    RunControl(p, tr, acts, i);
    if i == 0 {
      InitData(p, acc, tr[0]);
    } else {
      var j := i - 1;
      RunData(p, acc, tr, acts, j);
      StepData(p, acc, tr[j], acts[j]);
    }
  }

  /** In every reachable state, every call that has returned at a rank left exactly the
      outcome in that rank's receive buffer: no interleaving can change it. */
  lemma ResultsAreDetermined<T>(p: Plan<T>, acc: Account<T>, tr: seq<Sys<T>>, acts: seq<Action>, i: nat, v: nat, k: nat)
    requires p.Valid() && Explains(p, acc) && Run(p, tr, acts) && i < |tr| && v < p.n && k < tr[i].ranks[v].round
    ensures k < |p.xs| && k < |tr[i].ranks[v].outs|
    ensures tr[i].ranks[v].outs[k] == Outcome(p, acc, k, v)
  {
    RunData(p, acc, tr, acts, i);
    assert RankOk(p, v, tr[i].ranks[v]) && RankData(p, acc, v, tr[i].ranks[v]);
  }
}
