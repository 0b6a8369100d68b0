/** In which order the actions of a run happen: every rank goes through the stages of each call one
    after the other and does everything a stage asks for exactly once, and every stream and mailbox
    channel hands its messages on in the order they came. */
module AllReduceOrder {
  import opened Basics
  import opened Graphs
  import opened AllReduce
  import opened AllReduceProgress

  // ---------------------------------------------------------------- stages

  /** The stages of a call as the code runs them: the reduce receives, the reduce sends, the
      decision to forward, the broadcast receive, the broadcast sends, the return. */
  function Stage(a: Action): nat
    requires !a.Handle?
  {
    match a
    case RecvReduce(_, _) => 0
    case SendReduce(_, _) => 1
    case Enter(_) => 2
    case Register(_) => 3
    case FinishRecv(_) => 4
    case SendBcast(_, _) => 5
    case Return(_) => 6
  }

  /** The first stage that is not over. */
  function Phase<T>(r: Rank<T>): nat {
    if r.toRecvR != {} then 0
    else if r.toSendR != {} then 1
    else if !r.entered then 2
    else if r.toRecvB != [] then (if r.slot == Idle then 3 else 4)
    else if r.toSendB != {} then 5
    else 6
  }

  lemma ActsInPhase<T>(p: Plan<T>, s: Sys<T>, a: Action)
    requires p.Valid() && Control(p, s) && Enabled(p, s, a)
    ensures !a.Handle? ==> Stage(a) == Phase(s.ranks[a.v])
  {
    assert RankOk(p, a.v, s.ranks[a.v]);
  }

  lemma PhaseGrows<T>(p: Plan<T>, s: Sys<T>, a: Action, v: nat)
    requires p.Valid() && Control(p, s) && Enabled(p, s, a) && v < p.n
    requires Apply(p, s, a).ranks[v].round == s.ranks[v].round
    ensures Phase(Apply(p, s, a).ranks[v]) >= Phase(s.ranks[v])
  {
    assert RankOk(p, v, s.ranks[v]);
    CallEnds(p, s.ranks[v].round, v, v);
  }

  lemma {:induction false} RoundGrows<T>(p: Plan<T>, tr: seq<Sys<T>>, acts: seq<Action>, i: nat, j: nat, v: nat)
    requires p.Valid() && Run(p, tr, acts) && i <= j < |tr| && v < p.n
    ensures tr[i].ranks[v].round <= tr[j].ranks[v].round
    ensures tr[i].ranks[v].round == tr[j].ranks[v].round ==> Phase(tr[i].ranks[v]) <= Phase(tr[j].ranks[v])
    decreases j
  {
    if i < j {
      var h := j - 1;
      RoundGrows(p, tr, acts, i, h, v);
      RunControl(p, tr, acts, h);
      if tr[j].ranks[v].round == tr[h].ranks[v].round { PhaseGrows(p, tr[h], acts[h], v); }
    }
  }

  /** Index `i` is an action of rank `v` itself, in its call `k`. */
  ghost predicate Does<T>(p: Plan<T>, tr: seq<Sys<T>>, acts: seq<Action>, i: nat, v: nat, k: nat)
    requires p.Shape() && Run(p, tr, acts) && v < p.n
  {
    i < |acts| && !acts[i].Handle? && acts[i].v == v && tr[i].ranks[v].round == k
  }

  /** A rank never goes back to an earlier stage of its call. */
  lemma StagesInOrder<T>(p: Plan<T>, tr: seq<Sys<T>>, acts: seq<Action>, i: nat, j: nat, v: nat, k: nat)
    requires p.Valid() && Run(p, tr, acts) && v < p.n && i < j
    requires Does(p, tr, acts, i, v, k) && Does(p, tr, acts, j, v, k)
    ensures Stage(acts[i]) <= Stage(acts[j])
  {
    RoundGrows(p, tr, acts, i, j, v);
    RunControl(p, tr, acts, i);
    RunControl(p, tr, acts, j);
    ActsInPhase(p, tr[i], acts[i]);
    ActsInPhase(p, tr[j], acts[j]);
  }

  // ---------------------------------------------------------------- each action once

  /** The action has been done in the rank's call. */
  predicate Past<T>(r: Rank<T>, a: Action)
    requires !a.Handle?
  {
    match a
    case RecvReduce(_, c) => c !in r.toRecvR
    case SendReduce(_, d) => d !in r.toSendR
    case Enter(_) => r.entered
    case Register(_) => Phase(r) > 3
    case FinishRecv(_) => Phase(r) > 4
    case SendBcast(_, d) => d !in r.toSendB
    case Return(_) => false
  }

  /** What call `k` asks of rank `v` before it returns. */
  ghost predicate Owed<T>(p: Plan<T>, k: nat, v: nat, a: Action)
    requires p.Shape() && v < p.n
  {
    match a
    case RecvReduce(w, c) => w == v && c in p.RPrevs(k, v)
    case SendReduce(w, d) => w == v && d in p.RNexts(k, v)
    case Enter(w) => w == v
    case Register(w) => w == v && p.BPrevs(k, v) != []
    case FinishRecv(w) => w == v && p.BPrevs(k, v) != []
    case SendBcast(w, d) => w == v && d in p.BNexts(k, v)
    case _ => false
  }

  lemma StaysPast<T>(p: Plan<T>, s: Sys<T>, a: Action, v: nat, b: Action)
    requires p.Valid() && Control(p, s) && Enabled(p, s, a) && v < p.n && !b.Handle?
    requires Apply(p, s, a).ranks[v].round == s.ranks[v].round
    ensures Past(s.ranks[v], b) ==> Past(Apply(p, s, a).ranks[v], b)
  {
    assert RankOk(p, v, s.ranks[v]);
    PhaseGrows(p, s, a, v);
  }

  /** An action that can be done has not been done. */
  lemma NotYetPast<T>(p: Plan<T>, s: Sys<T>, a: Action)
    requires p.Valid() && Control(p, s) && Enabled(p, s, a)
    ensures !a.Handle? ==> !Past(s.ranks[a.v], a)
    ensures !a.Handle? ==> a.Return? || Owed(p, s.ranks[a.v].round, a.v, a)
  {
    assert RankOk(p, a.v, s.ranks[a.v]);
    ActsInPhase(p, s, a);
  }

  lemma NowPast<T>(p: Plan<T>, s: Sys<T>, a: Action)
    requires p.Valid() && Control(p, s) && Enabled(p, s, a) && !a.Handle? && !a.Return?
    ensures Past(Apply(p, s, a).ranks[a.v], a)
  {
    assert RankOk(p, a.v, s.ranks[a.v]);
    CallEnds(p, s.ranks[a.v].round, a.v, a.v);
  }

  /** Only doing it makes it past. */
  lemma PastByDoing<T>(p: Plan<T>, s: Sys<T>, a: Action, v: nat, b: Action)
    requires p.Valid() && Control(p, s) && Enabled(p, s, a) && v < p.n && Owed(p, s.ranks[v].round, v, b)
    requires Apply(p, s, a).ranks[v].round == s.ranks[v].round
    requires !Past(s.ranks[v], b) && Past(Apply(p, s, a).ranks[v], b)
    ensures a == b
  {
    assert RankOk(p, v, s.ranks[v]);
    CallEnds(p, s.ranks[v].round, v, v);
  }

  lemma NothingPast<T>(p: Plan<T>, v: nat, k: nat, recv: T, outs: seq<T>, b: Action)
    requires p.Valid() && v < p.n && Owed(p, k, v, b)
    ensures !Past(StartRank(p, v, k, recv, outs), b)
  {
  }

  lemma {:induction false} PastLater<T>(p: Plan<T>, tr: seq<Sys<T>>, acts: seq<Action>, i: nat, j: nat, v: nat,
                                        k: nat, b: Action)
    requires p.Valid() && Run(p, tr, acts) && v < p.n && i <= j < |tr| && !b.Handle?
    requires tr[i].ranks[v].round == k == tr[j].ranks[v].round && Past(tr[i].ranks[v], b)
    ensures Past(tr[j].ranks[v], b)
    decreases j
  {
    if i < j {
      var h := j - 1;
      RoundGrows(p, tr, acts, i, h, v);
      RoundGrows(p, tr, acts, h, j, v);
      PastLater(p, tr, acts, i, h, v, k, b);
      RunControl(p, tr, acts, h);
      StaysPast(p, tr[h], acts[h], v, b);
    }
  }

  /** A rank does nothing twice in one call, and nothing that the call does not ask for. */
  lemma EachOnce<T>(p: Plan<T>, tr: seq<Sys<T>>, acts: seq<Action>, i: nat, j: nat, v: nat, k: nat)
    requires p.Valid() && Run(p, tr, acts) && v < p.n && i < j
    requires Does(p, tr, acts, i, v, k) && Does(p, tr, acts, j, v, k)
    ensures acts[i] != acts[j] && Owed(p, k, v, acts[i])
    ensures acts[j] == Return(v) || Owed(p, k, v, acts[j])
  {
    RunControl(p, tr, acts, i);
    RunControl(p, tr, acts, j);
    NotYetPast(p, tr[i], acts[i]);
    NotYetPast(p, tr[j], acts[j]);
    RoundGrows(p, tr, acts, i, i + 1, v);
    RoundGrows(p, tr, acts, i + 1, j, v);
    if !acts[i].Return? {
      NowPast(p, tr[i], acts[i]);
      PastLater(p, tr, acts, i + 1, j, v, k, acts[i]);
    }
  }

  /** What is past was done. */
  lemma {:induction false} PastWasDone<T>(p: Plan<T>, tr: seq<Sys<T>>, acts: seq<Action>, j: nat, v: nat, b: Action)
    returns (i: nat)
    requires p.Valid() && Run(p, tr, acts) && v < p.n && j < |tr| && Owed(p, tr[j].ranks[v].round, v, b)
    requires Past(tr[j].ranks[v], b)
    ensures i < j && Does(p, tr, acts, i, v, tr[j].ranks[v].round) && acts[i] == b
    decreases j
  {
    if j == 0 {
      assert tr[0].ranks[v] == StartRank(p, v, 0, tr[0].ranks[v].recv, []);
      NothingPast(p, v, 0, tr[0].ranks[v].recv, [], b);
      assert false;
    } else {
      var h := j - 1;
      RunControl(p, tr, acts, h);
      if tr[h].ranks[v].round != tr[j].ranks[v].round {
        StartsAgain(p, tr[h], acts[h], v, b);
        assert false;
      } else if Past(tr[h].ranks[v], b) {
        i := PastWasDone(p, tr, acts, h, v, b);
      } else {
        PastByDoing(p, tr[h], acts[h], v, b);
        i := h;
      }
    }
  }

  lemma StartsAgain<T>(p: Plan<T>, s: Sys<T>, a: Action, v: nat, b: Action)
    requires p.Valid() && Control(p, s) && Enabled(p, s, a) && v < p.n
    requires Apply(p, s, a).ranks[v].round != s.ranks[v].round
    requires Owed(p, Apply(p, s, a).ranks[v].round, v, b)
    ensures !Past(Apply(p, s, a).ranks[v], b)
  {
    assert a == Return(v);
    var r := s.ranks[v];
    NothingPast(p, v, r.round + 1, r.recv, r.outs + [r.recv], b);
  }

  /** When a rank returns from a call, it has done everything the call asks for: every receive and
      send of the reduce stage, the decision to forward, the broadcast receive, and every send. */
  lemma ReturnsAfterAll<T>(p: Plan<T>, tr: seq<Sys<T>>, acts: seq<Action>, j: nat, v: nat, k: nat, b: Action)
    returns (i: nat)
    requires p.Valid() && Run(p, tr, acts) && v < p.n && Does(p, tr, acts, j, v, k) && acts[j] == Return(v)
    requires Owed(p, k, v, b)
    ensures i < j && Does(p, tr, acts, i, v, k) && acts[i] == b
  {
    RunControl(p, tr, acts, j);
    AllPast(p, tr[j], v, b);
    i := PastWasDone(p, tr, acts, j, v, b);
  }

  lemma AllPast<T>(p: Plan<T>, s: Sys<T>, v: nat, b: Action)
    requires p.Valid() && Control(p, s) && v < p.n && Enabled(p, s, Return(v)) && Owed(p, s.ranks[v].round, v, b)
    ensures Past(s.ranks[v], b)
  {
    assert RankOk(p, v, s.ranks[v]);
  }

  /** In every reachable state, what a rank can do next is exactly what its stage asks for and has
      not been done, in any order; a receive also needs its message. */
  lemma ExactlyWhatIsDue<T>(p: Plan<T>, tr: seq<Sys<T>>, acts: seq<Action>, i: nat, a: Action)
    requires p.Valid() && Run(p, tr, acts) && i < |tr| && a.v < p.n && !a.Handle?
    ensures var r := tr[i].ranks[a.v];
            Enabled(p, tr[i], a) <==>
              && r.round < |p.xs| && Stage(a) == Phase(r) && !Past(r, a)
              && (a.Return? || Owed(p, r.round, a.v, a))
              && (a.RecvReduce? ==> tr[i].Box(a.peer, a.v) != [])
              && (a.FinishRecv? ==> r.slot == Delivered)
  {
    RunControl(p, tr, acts, i);
    assert RankOk(p, a.v, tr[i].ranks[a.v]);
    if Enabled(p, tr[i], a) {
      ActsInPhase(p, tr[i], a);
      NotYetPast(p, tr[i], a);
    }
  }

  /** A receive buffer of its own is written only while the call has it: by a reduce receive, by the
      decision to forward of a rank without broadcast parents, and by the broadcast message that the
      rank waits for. */
  lemma WhoWritesTheBuffer<T>(p: Plan<T>, tr: seq<Sys<T>>, acts: seq<Action>, i: nat, v: nat)
    requires p.Valid() && Run(p, tr, acts) && i < |acts| && v < p.n && !p.inPlace[v]
    requires tr[i + 1].ranks[v].recv != tr[i].ranks[v].recv
    ensures acts[i].v == v && var r := tr[i].ranks[v];
            || (acts[i].RecvReduce? && acts[i].peer in p.RPrevs(r.round, v))
            || (acts[i].Enter? && p.BPrevs(r.round, v) == [] && r.recvCount == 0)
            || (acts[i].Handle? && r.slot == Registered && [acts[i].peer] == p.BPrevs(r.round, v))
  {
    RunControl(p, tr, acts, i);
    var r, a := tr[i].ranks[v], acts[i];
    assert RankOk(p, v, r);
    if a.Handle? { BcastPeer(p, tr[i], a); }
  }

  lemma BcastPeer<T>(p: Plan<T>, s: Sys<T>, a: Action)
    requires p.Valid() && Control(p, s) && Enabled(p, s, a) && a.Handle? && s.ranks[a.v].slot == Registered
    requires s.ranks[a.v].toRecvB != [] && s.ranks[a.v].toRecvB[0] == a.peer
    ensures [a.peer] == p.BPrevs(s.ranks[a.v].round, a.v)
  {
    var k := s.ranks[a.v].round;
    assert RankOk(p, a.v, s.ranks[a.v]);
    assert p.IsPair(p.At(k)) && p.Rows(p.At(k));
    if a.v != p.Root(k) { assert p.BPrevs(k, a.v) == [p.BParent(k, a.v)]; }
  }

  // ---------------------------------------------------------------- first in, first out

  /** The message that an action sends from `u` to `v`. */
  ghost function SentNow<T>(p: Plan<T>, s: Sys<T>, a: Action, u: nat, v: nat): seq<Msg<T>>
    requires p.Shape() && |s.ranks| == p.n && Enabled(p, s, a)
  {
    if (a.SendReduce? || a.SendBcast?) && a.v == u && a.peer == v
    then [Msg(a.SendBcast?, Effective(p, u, s.ranks[u]), s.ranks[u].round)]
    else []
  }

  /** The message that the handler at `v` takes from the stream of `u`, and the one that `v` takes
      from the mailbox. */
  function TakenNow<T>(s: Sys<T>, a: Action, u: nat, v: nat): seq<Msg<T>> {
    if a == Handle(u, v) && s.Wire(u, v) != [] then [s.Wire(u, v)[0]] else []
  }

  function ReceivedNow<T>(s: Sys<T>, a: Action, u: nat, v: nat): seq<Msg<T>> {
    if a == RecvReduce(v, u) && s.Box(u, v) != [] then [s.Box(u, v)[0]] else []
  }

  /** All that `u` sent to `v`, that the handler took from the stream, that of this it put into the
      mailbox, and that `v` took from there, in the order of the run. */
  ghost function Sent<T>(p: Plan<T>, tr: seq<Sys<T>>, acts: seq<Action>, i: nat, u: nat, v: nat): seq<Msg<T>>
    requires p.Shape() && Run(p, tr, acts) && i <= |acts|
  {
    if i == 0 then [] else Sent(p, tr, acts, i - 1, u, v) + SentNow(p, tr[i - 1], acts[i - 1], u, v)
  }

  ghost function Taken<T>(p: Plan<T>, tr: seq<Sys<T>>, acts: seq<Action>, i: nat, u: nat, v: nat): seq<Msg<T>>
    requires p.Shape() && Run(p, tr, acts) && i <= |acts|
  {
    if i == 0 then [] else Taken(p, tr, acts, i - 1, u, v) + TakenNow(tr[i - 1], acts[i - 1], u, v)
  }

  ghost function Plain<T>(ms: seq<Msg<T>>): seq<Msg<T>> {
    if ms == [] then [] else Plain(ms[..|ms| - 1]) + if ms[|ms| - 1].waitRecvBuf then [] else [ms[|ms| - 1]]
  }

  lemma PlainOneMore<T>(ms: seq<Msg<T>>, now: seq<Msg<T>>)
    requires |now| <= 1
    ensures Plain(ms + now) == Plain(ms) + Plain(now)
  {
    if now != [] {
      assert (ms + now)[..|ms|] == ms && now[..0] == [];
    } else {
      assert ms + now == ms;
    }
  }

  ghost function Received<T>(p: Plan<T>, tr: seq<Sys<T>>, acts: seq<Action>, i: nat, u: nat, v: nat): seq<Msg<T>>
    requires p.Shape() && Run(p, tr, acts) && i <= |acts|
  {
    if i == 0 then [] else Received(p, tr, acts, i - 1, u, v) + ReceivedNow(tr[i - 1], acts[i - 1], u, v)
  }

  lemma StepStream<T>(p: Plan<T>, s: Sys<T>, a: Action, u: nat, v: nat)
    requires p.Shape() && |s.ranks| == p.n && Enabled(p, s, a)
    ensures s.Wire(u, v) + SentNow(p, s, a, u, v) == TakenNow(s, a, u, v) + Apply(p, s, a).Wire(u, v)
  {
  }

  /** Streams: what was sent is what was taken, followed by what is still under way. */
  lemma {:induction false} StreamIsFifo<T>(p: Plan<T>, tr: seq<Sys<T>>, acts: seq<Action>, i: nat, u: nat, v: nat)
    requires p.Shape() && Run(p, tr, acts) && i <= |acts|
    ensures Sent(p, tr, acts, i, u, v) == Taken(p, tr, acts, i, u, v) + tr[i].Wire(u, v)
    decreases i
  {
    if i > 0 {
      var s, a := tr[i - 1], acts[i - 1];
      StreamIsFifo(p, tr, acts, i - 1, u, v);
      StepStream(p, s, a, u, v);
      Regroup(Sent(p, tr, acts, i - 1, u, v), Taken(p, tr, acts, i - 1, u, v), s.Wire(u, v),
              SentNow(p, s, a, u, v), TakenNow(s, a, u, v), tr[i].Wire(u, v));
    }
  }

  lemma StepBox<T>(p: Plan<T>, s: Sys<T>, a: Action, u: nat, v: nat)
    requires p.Shape() && |s.ranks| == p.n && Enabled(p, s, a)
    ensures s.Box(u, v) + Plain(TakenNow(s, a, u, v)) == ReceivedNow(s, a, u, v) + Apply(p, s, a).Box(u, v)
  {
    if a == Handle(u, v) {
      var m := s.Wire(u, v)[0];
      assert [m][..0] == [];
      assert Plain([m]) == if m.waitRecvBuf then [] else [m];
    }
  }

  lemma MailStep<T>(taken: seq<Msg<T>>, received: seq<Msg<T>>, box: seq<Msg<T>>, now: seq<Msg<T>>,
                    out: seq<Msg<T>>, box': seq<Msg<T>>)
    requires Plain(taken) == received + box && |now| <= 1 && box + Plain(now) == out + box'
    ensures Plain(taken + now) == (received + out) + box'
  {
    PlainOneMore(taken, now);
    Regroup(Plain(taken), received, box, Plain(now), out, box');
  }

  /** Mailboxes: the plain messages taken from the stream are those received, followed by the one
      that waits. */
  lemma {:induction false} MailboxIsFifo<T>(p: Plan<T>, tr: seq<Sys<T>>, acts: seq<Action>, i: nat, u: nat, v: nat)
    requires p.Shape() && Run(p, tr, acts) && i <= |acts|
    ensures Plain(Taken(p, tr, acts, i, u, v)) == Received(p, tr, acts, i, u, v) + tr[i].Box(u, v)
    decreases i
  {
    if i > 0 {
      var s, a := tr[i - 1], acts[i - 1];
      MailboxIsFifo(p, tr, acts, i - 1, u, v);
      StepBox(p, s, a, u, v);
      MailStep(Taken(p, tr, acts, i - 1, u, v), Received(p, tr, acts, i - 1, u, v), s.Box(u, v),
               TakenNow(s, a, u, v), ReceivedNow(s, a, u, v), tr[i].Box(u, v));
    }
  }
}
