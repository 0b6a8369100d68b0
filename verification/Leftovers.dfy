/** What the ranks that left a session leave in the mailboxes of those that stayed: the former
    start one more all-reduce on the old session, the latter only receive. Mailboxes belong to
    the process and are found by address and name, so they outlive the session. */
module Leftovers {
  import opened Basics
  import opened Graphs
  import opened Topology
  import opened AllReduce
  import opened AllReduceProgress
  import opened AllReduceMeaning
  import opened Clusters
  import EL = Elastic

  /** Only the ranks `d` make the call. */
  ghost predicate OnlyFrom(acts: seq<Action>, d: set<nat>) {
    forall i :: 0 <= i < |acts| ==> acts[i].Handle? || acts[i].v in d
  }

  /** Neither they nor any message handler can go on. */
  ghost predicate Settled<T>(p: Plan<T>, s: Sys<T>, d: set<nat>)
    requires p.Shape() && |s.ranks| == p.n
  {
    forall a :: Enabled(p, s, a) ==> !a.Handle? && a.v !in d
  }

  /** The reduce subtree of `u` in the first call is all in `d`. */
  ghost predicate AllGone<T>(p: Plan<T>, d: set<nat>, u: nat)
    requires p.Valid() && u < p.n
  {
    forall w: nat :: w < p.n && Under(p, 0, w, u) ==> w in d
  }

  ghost predicate FreshOthers<T>(p: Plan<T>, s: Sys<T>, d: set<nat>)
    requires p.Shape() && |s.ranks| == p.n
  {
    forall b: nat :: b < p.n && b !in d ==> Fresh(p, b, s.ranks[b])
  }

  lemma OthersStayFresh<T>(p: Plan<T>, tr: seq<Sys<T>>, acts: seq<Action>, d: set<nat>)
    requires p.Valid() && Run(p, tr, acts) && OnlyFrom(acts, d)
    ensures FreshOthers(p, tr[|acts|], d)
  {
    forall b: nat | b < p.n && b !in d ensures Fresh(p, b, tr[|acts|].ranks[b]) {
      AbsentRank(p, tr, acts, b, |acts|);
    }
  }

  // ---------------------------------------------------------------- a message needs the whole subtree

  lemma {:induction false} ReducedUnder<T>(p: Plan<T>, s: Sys<T>, w: nat, u: nat)
    requires p.Valid() && Control(p, s) && w < p.n && u < p.n && Under(p, 0, w, u) && Reduced(s.ranks[u]) > 0
    ensures Reduced(s.ranks[w]) > 0
    decreases p.RDepth(0, w)
  {
    if w != u {
      var c := AboveIsUnder(p, w, u);
      ReducedUnder(p, s, c, u);
      ReducedFromChild(p, s, 0, w);
    }
  }

  /** The parent of a rank below `u` is `u` or below it. */
  lemma AboveIsUnder<T>(p: Plan<T>, w: nat, u: nat) returns (c: nat)
    requires p.Valid() && w < p.n && u < p.n && Under(p, 0, w, u) && w != u
    ensures w != p.Root(0) && c == p.RParent(0, w) && Under(p, 0, c, u)
  {
    var t := p.At(0);
    assert p.IsPair(t) && p.Rows(t);
    assert ParentOk(p.n, w, t.gp.reduce.nexts, t.rdepth);
    assert t.gp.reduce.nexts[w][0] in t.gp.reduce.nexts[w];
    c := p.RParent(0, w);
    assert c in p.RNexts(0, w);
  }

  /** A message in the mailbox of a rank that did nothing is its child's, whose subtree is gone. */
  lemma MessageMeansGone<T>(p: Plan<T>, s: Sys<T>, d: set<nat>, u: nat, b: nat)
    requires p.Valid() && p.n >= 2 && Control(p, s) && FreshOthers(p, s, d) && u < p.n && b < p.n && b !in d
    requires s.Box(u, b) != []
    ensures u != p.Root(0) && p.RParent(0, u) == b && AllGone(p, d, u)
  {
    FreshHasNotReduced(p, b, s.ranks[b]);
    GotAfterReduced(p, s, b, u);
    assert EdgeOk(p, s, u, b) && RankOk(p, u, s.ranks[u]) && RankOk(p, b, s.ranks[b]);
    CallEnds(p, 0, u, b);
    assert u != p.Root(0) && p.RParent(0, u) == b by { assert p.IsPair(p.At(0)); }
    forall w: nat | w < p.n && Under(p, 0, w, u) ensures w in d {
      ReducedUnder(p, s, w, u);
      if w !in d { FreshHasNotReduced(p, w, s.ranks[w]); }
    }
  }

  // ---------------------------------------------------------------- and the whole subtree sends it

  lemma ChildGone<T>(p: Plan<T>, d: set<nat>, u: nat, c: nat)
    requires p.Valid() && u < p.n && AllGone(p, d, u) && c in p.RPrevs(0, u)
    ensures c < p.n && AllGone(p, d, c) && p.RDepth(0, u) < p.RDepth(0, c)
  {
    PeerInRange(p, 0, u, c);
    CallEnds(p, 0, c, u);
    assert c != p.Root(0) && p.RParent(0, c) == u by { assert p.IsPair(p.At(0)); }
    forall w: nat | w < p.n && Under(p, 0, w, c) ensures Under(p, 0, w, u) { UnderTrans(p, w, c, u); }
  }

  lemma {:induction false} UnderTrans<T>(p: Plan<T>, w: nat, c: nat, u: nat)
    requires p.Valid() && w < p.n && c < p.n && u < p.n && Under(p, 0, w, c) && c in p.RPrevs(0, u)
    ensures Under(p, 0, w, u)
    decreases p.RDepth(0, w)
  {
    UnderStep(p, 0, w, u);
    assert UnderSome(p, 0, w, p.RPrevs(0, u));
  }

  lemma {:induction false} GoneHasReduced<T>(p: Plan<T>, s: Sys<T>, d: set<nat>, u: nat)
    requires p.Valid() && Control(p, s) && Settled(p, s, d) && p.xs != [] && u < p.n && AllGone(p, d, u)
    ensures Reduced(s.ranks[u]) > 0
    decreases MaxOf(p.At(0).rdepth) - p.RDepth(0, u)
  {
    assert p.IsPair(p.At(0));
    var r := s.ranks[u];
    assert Under(p, 0, u, u);
    if r.round == 0 {
      if c :| c in r.toRecvR {
        assert RankOk(p, u, r);
        ChildGone(p, d, u, c);
        GoneHasReduced(p, s, d, c);
        ChildArrives(p, s, d, u, c);
      }
      if e :| e in r.toSendR { assert Enabled(p, s, SendReduce(u, e)); }
    }
  }

  /** What a child has sent can be taken in. */
  lemma CanTake<T>(p: Plan<T>, s: Sys<T>, u: nat, c: nat) returns (a: Action)
    requires p.Valid() && Control(p, s) && p.xs != [] && u < p.n && c in s.ranks[u].toRecvR
    requires s.ranks[u].round == 0 && c < p.n && Reduced(s.ranks[c]) > 0
    ensures Enabled(p, s, a) && (a == RecvReduce(u, c) || a == Handle(c, u))
  {
    AwaitedChild(p, s, u, c);
    assert EdgeOk(p, s, c, u) && RankOk(p, c, s.ranks[c]);
    a := if s.Box(c, u) != [] then RecvReduce(u, c) else Handle(c, u);
  }

  /** Nobody who is gone waits for a child that has reduced. */
  lemma ChildArrives<T>(p: Plan<T>, s: Sys<T>, d: set<nat>, u: nat, c: nat)
    requires p.Valid() && Control(p, s) && Settled(p, s, d) && p.xs != [] && u < p.n && u in d
    requires s.ranks[u].round == 0 && c < p.n && Reduced(s.ranks[c]) > 0
    ensures c !in s.ranks[u].toRecvR
  {
    if c in s.ranks[u].toRecvR {
      var a := CanTake(p, s, u, c);
    }
  }

  lemma GoneMeansMessage<T>(p: Plan<T>, s: Sys<T>, d: set<nat>, u: nat, b: nat)
    requires p.Valid() && p.n >= 2 && Control(p, s) && FreshOthers(p, s, d) && Settled(p, s, d) && p.xs != []
    requires u < p.n && b < p.n && b !in d && u != p.Root(0) && p.RParent(0, u) == b && AllGone(p, d, u)
    ensures s.Box(u, b) != []
  {
    GoneHasReduced(p, s, d, u);
    FreshHasNotReduced(p, b, s.ranks[b]);
    assert EdgeOk(p, s, u, b) && RankOk(p, u, s.ranks[u]);
    CallEnds(p, 0, u, b);
    assert !Enabled(p, s, Handle(u, b));
    if s.Wire(u, b) != [] && s.Wire(u, b)[0].waitRecvBuf { BcastArrives(p, s, u, b); }
  }

  /** When the ranks `d` and all handlers have done what they can, the mailbox of a rank `b` that
      stayed away holds a message from `u` if and only if `b` is the reduce parent of `u` and
      the reduce subtree of `u` is in `d`. */
  lemma LeftBehind<T>(p: Plan<T>, tr: seq<Sys<T>>, acts: seq<Action>, d: set<nat>, u: nat, b: nat)
    requires p.Valid() && p.n >= 2 && p.xs != [] && Run(p, tr, acts) && OnlyFrom(acts, d)
    requires Settled(p, tr[|acts|], d) && u < p.n && b < p.n && b !in d
    ensures tr[|acts|].Box(u, b) != [] <==> u != p.Root(0) && p.RParent(0, u) == b && AllGone(p, d, u)
  {
    var s := tr[|acts|];
    RunControl(p, tr, acts, |acts|);
    OthersStayFresh(p, tr, acts, d);
    if s.Box(u, b) != [] {
      MessageMeansGone(p, s, d, u, b);
    } else if u != p.Root(0) && p.RParent(0, u) == b && AllGone(p, d, u) {
      GoneMeansMessage(p, s, d, u, b);
    }
  }

  /** Such runs exist: every run of only `d` can be continued until it has settled. */
  lemma {:induction false} ToSettled<T>(p: Plan<T>, tr: seq<Sys<T>>, acts: seq<Action>, d: set<nat>)
    returns (tr': seq<Sys<T>>, acts': seq<Action>)
    requires p.Valid() && Run(p, tr, acts) && OnlyFrom(acts, d)
    ensures Run(p, tr', acts') && OnlyFrom(acts', d) && Settled(p, tr'[|acts'|], d)
    decreases TotalWork(p, tr[0]) - |acts|
  {
    RunsAreFinite(p, tr, acts);
    if a :| Enabled(p, tr[|acts|], a) && (a.Handle? || a.v in d) {
      var more, acts2 := tr + [Apply(p, tr[|acts|], a)], acts + [a];
      OneMoreAction(p, tr, acts, a);
      RunsAreFinite(p, more, acts2);
      tr', acts' := ToSettled(p, more, acts2, d);
    } else {
      tr', acts' := tr, acts;
    }
  }

  // ---------------------------------------------------------------- after a resize

  /** The ranks of the old session that are not workers of the new one. */
  ghost function Detached(c: Config, next: Config): set<nat> {
    set v: nat | v < |c.workers| && c.workers[v] !in next.workers
  }

  /** What the last `sync` of the detached ranks leaves on the star: one message of each of them,
      at the surviving root. */
  lemma StarLeavesBehind<T>(p: Plan<T>, c: Config, next: Config, tr: seq<Sys<T>>, acts: seq<Action>, u: nat)
    requires IsStar(p) && p.n == |c.workers| >= 2 && p.xs != [] && Run(p, tr, acts)
    requires EL.OnlyDetached(c, next, acts) && Settled(p, tr[|acts|], Detached(c, next))
    requires c.workers[p.Root(0)] in next.workers && u < p.n && u != p.Root(0)
    ensures tr[|acts|].Box(u, p.Root(0)) != [] <==> c.workers[u] !in next.workers
  {
    StarIsValid(p);
    var d, b := Detached(c, next), p.Root(0);
    LeftBehind(p, tr, acts, d, u, b);
    StarLeaf(p, u);
    forall w: nat | w < p.n ensures Under(p, 0, w, u) <==> w == u {
      UnderStep(p, 0, w, u);
    }
    assert AllGone(p, d, u) <==> u in d;
  }

  lemma StarLeaf<T>(p: Plan<T>, u: nat)
    requires IsStar(p) && p.Valid() && u < p.n && u != p.Root(0)
    ensures p.RParent(0, u) == p.Root(0) && p.RPrevs(0, u) == {}
  {
    StarIsTreePair(p.n, p.Root(0));
  }
}
