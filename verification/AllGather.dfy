/** `session::all_gather`: rank `r` runs the indices 0..2n-1, index 2q sending its block to
    rank q and index 2q+1 receiving the block of rank q into slot q of its output. The
    calling thread runs index 0; up to `p` further threads (the session's pool, or one per
    index without a pool) take the others in order. Sends are buffered: each ordered pair
    of ranks has a FIFO stream drained by a handler, which writes straight into a slot
    once the receiver has registered it. */
module AllGather {
  import opened Folds

  datatype Rank<T> = Rank(begun: nat, done: set<nat>, reg: set<nat>, delivered: set<nat>, out: seq<T>)

  datatype Sys<T> = Sys(ranks: seq<Rank<T>>, wire: map<(nat, nat), seq<T>>) {
    function Wire(q: nat, r: nat): seq<T> { if (q, r) in wire then wire[(q, r)] else [] }
  }

  datatype Action =
    | Start(r: nat)
    | RunIndex(r: nat, i: nat)       // the send, or the whole index when the peer is the rank itself
    | Register(r: nat, i: nat)
    | Finish(r: nat, i: nat)
    | Deliver(r: nat, q: nat)

  /** Indices begun and not finished. */
  function Active<T>(x: Rank<T>): set<nat> {
    set i: nat | i < x.begun && i !in x.done
  }

  ghost predicate Enabled<T>(p: nat, s: Sys<T>, a: Action) {
    var n := |s.ranks|;
    a.r < n &&
    var x := s.ranks[a.r];
    match a
    case Start(_) => x.begun < 2 * n && (x.begun == 0 || |Active(x) - {0}| < p)
    case RunIndex(r, i) => i < 2 * n && i in Active(x) && (i % 2 == 0 || i / 2 == r)
    case Register(r, i) => i < 2 * n && i in Active(x) && i % 2 == 1 && i / 2 != r && i / 2 !in x.reg
    case Finish(r, i) => i < 2 * n && i in Active(x) && i % 2 == 1 && i / 2 != r && i / 2 in x.delivered
    case Deliver(r, q) => q < n && s.Wire(q, r) != [] && q in x.reg && q !in x.delivered && |x.out| == n
  }

  ghost function NextRank<T>(xs: seq<T>, p: nat, s: Sys<T>, a: Action): Rank<T>
    requires |xs| == |s.ranks| && Enabled(p, s, a)
    requires forall r :: 0 <= r < |xs| ==> |s.ranks[r].out| == |xs|
  {
    var x := s.ranks[a.r];
    match a
    case Start(_) => x.(begun := x.begun + 1)
    case RunIndex(r, i) => x.(done := x.done + {i}, out := if i == 2 * r then x.out[r := xs[r]] else x.out)
    case Register(_, i) => x.(reg := x.reg + {i / 2})
    case Finish(_, i) => x.(done := x.done + {i})
    case Deliver(r, q) => x.(delivered := x.delivered + {q}, out := x.out[q := s.Wire(q, r)[0]])
  }

  ghost function Apply<T>(xs: seq<T>, p: nat, s: Sys<T>, a: Action): Sys<T>
    requires |xs| == |s.ranks| && Enabled(p, s, a)
    requires forall r :: 0 <= r < |xs| ==> |s.ranks[r].out| == |xs|
  {
    Sys(s.ranks[a.r := NextRank(xs, p, s, a)],
        match a
        case RunIndex(r, i) => if i / 2 == r then s.wire else s.wire[(r, i / 2) := s.Wire(r, i / 2) + [xs[r]]]
        case Deliver(r, q) => s.wire[(q, r) := s.Wire(q, r)[1..]]
        case _ => s.wire)
  }

  ghost predicate Init<T>(xs: seq<T>, s: Sys<T>) {
    && |s.ranks| == |xs| && s.wire == map[]
    && forall r :: 0 <= r < |xs| ==> s.ranks[r] == Rank(0, {}, {}, {}, s.ranks[r].out) && |s.ranks[r].out| == |xs|
  }

  ghost predicate Run<T>(xs: seq<T>, p: nat, tr: seq<Sys<T>>, acts: seq<Action>) {
    && |tr| == |acts| + 1 && Init(xs, tr[0])
    && (forall k :: 0 <= k < |tr| ==> Shape(xs, tr[k]))
    && forall k :: 0 <= k < |acts| ==> Enabled(p, tr[k], acts[k]) && tr[k + 1] == Apply(xs, p, tr[k], acts[k])
  }

  ghost predicate Shape<T>(xs: seq<T>, s: Sys<T>) {
    |s.ranks| == |xs| && forall r :: 0 <= r < |xs| ==> |s.ranks[r].out| == |xs|
  }

  ghost predicate Returned<T>(x: Rank<T>, n: nat) {
    forall i: nat :: i < 2 * n ==> i in x.done
  }

  // ---------------------------------------------------------------- invariant

  ghost predicate RankOk<T>(xs: seq<T>, r: nat, x: Rank<T>)
    requires r < |xs|
  {
    && |x.out| == |xs| && x.begun <= 2 * |xs|
    && (forall i :: i in x.done ==> i < x.begun)
    && (forall q :: q in x.delivered ==> q < |xs| && q != r && q in x.reg && x.out[q] == xs[q])
    && (forall q :: q in x.reg ==> q < |xs|)
    && (forall q: nat :: q < |xs| && q != r && 2 * q + 1 in x.done ==> q in x.delivered)
    && (2 * r in x.done ==> x.out[r] == xs[r])
  }

  /** The stream from `q` to `r` holds the block of `q` between its sending and its delivery. */
  ghost predicate LinkOk<T>(xs: seq<T>, s: Sys<T>, q: nat, r: nat)
    requires Shape(xs, s) && q < |xs| && r < |xs|
  {
    && s.Wire(q, r) == (if q != r && 2 * r in s.ranks[q].done && q !in s.ranks[r].delivered then [xs[q]] else [])
    && (q in s.ranks[r].delivered ==> 2 * r in s.ranks[q].done)
  }

  ghost predicate Inv<T>(xs: seq<T>, s: Sys<T>) {
    && Shape(xs, s)
    && (forall r: nat :: r < |xs| ==> RankOk(xs, r, s.ranks[r]))
    && (forall q: nat, r: nat :: q < |xs| && r < |xs| ==> LinkOk(xs, s, q, r))
  }

  lemma StepRank<T>(xs: seq<T>, p: nat, s: Sys<T>, a: Action)
    requires Inv(xs, s) && Enabled(p, s, a)
    ensures RankOk(xs, a.r, NextRank(xs, p, s, a))
  {
    assert RankOk(xs, a.r, s.ranks[a.r]);
    if a.Deliver? { assert LinkOk(xs, s, a.q, a.r); }
  }

  /** Two states that look alike from the link of `q` and `r`. */
  ghost predicate SameLink<T>(s: Sys<T>, s': Sys<T>, q: nat, r: nat)
    requires |s.ranks| == |s'.ranks| && q < |s.ranks| && r < |s.ranks|
  {
    && s'.Wire(q, r) == s.Wire(q, r)
    && (2 * r in s'.ranks[q].done <==> 2 * r in s.ranks[q].done)
    && (q in s'.ranks[r].delivered <==> q in s.ranks[r].delivered)
  }

  lemma OtherLink<T>(xs: seq<T>, p: nat, s: Sys<T>, a: Action, q: nat, r: nat)
    requires Shape(xs, s) && q < |xs| && r < |xs| && Enabled(p, s, a)
    requires a != RunIndex(q, 2 * r) && a != Deliver(r, q)
    ensures SameLink(s, Apply(xs, p, s, a), q, r)
  {
  }

  lemma SendLink<T>(xs: seq<T>, p: nat, s: Sys<T>, q: nat, r: nat)
    requires Shape(xs, s) && q < |xs| && r < |xs| && LinkOk(xs, s, q, r) && Enabled(p, s, RunIndex(q, 2 * r))
    requires Shape(xs, Apply(xs, p, s, RunIndex(q, 2 * r)))
    ensures LinkOk(xs, Apply(xs, p, s, RunIndex(q, 2 * r)), q, r)
  {
    assert 2 * r !in s.ranks[q].done;
  }

  lemma StepLink<T>(xs: seq<T>, p: nat, s: Sys<T>, a: Action, q: nat, r: nat)
    requires Shape(xs, s) && q < |xs| && r < |xs| && LinkOk(xs, s, q, r) && Enabled(p, s, a)
    requires Shape(xs, Apply(xs, p, s, a))
    ensures LinkOk(xs, Apply(xs, p, s, a), q, r)
  {
    if a == RunIndex(q, 2 * r) {
      SendLink(xs, p, s, q, r);
    } else if a == Deliver(r, q) {
      assert Apply(xs, p, s, a).ranks[q].done == s.ranks[q].done;
    } else {
      OtherLink(xs, p, s, a, q, r);
    }
  }

  lemma StepInv<T>(xs: seq<T>, p: nat, s: Sys<T>, a: Action)
    requires Inv(xs, s) && Enabled(p, s, a)
    ensures Inv(xs, Apply(xs, p, s, a))
  {
    StepRank(xs, p, s, a);
    assert Shape(xs, Apply(xs, p, s, a));
    forall q: nat, r: nat | q < |xs| && r < |xs| ensures LinkOk(xs, Apply(xs, p, s, a), q, r) {
      StepLink(xs, p, s, a, q, r);
    }
  }

  lemma {:induction false} RunInv<T>(xs: seq<T>, p: nat, tr: seq<Sys<T>>, acts: seq<Action>, k: nat)
    requires Run(xs, p, tr, acts) && k < |tr|
    ensures Inv(xs, tr[k])
  {
    if k > 0 {
      var j := k - 1;
      RunInv(xs, p, tr, acts, j);
      StepInv(xs, p, tr[j], acts[j]);
    }
  }

  /** Wherever the call has returned, the output is every rank's block in rank order. */
  lemma GathersInRankOrder<T>(xs: seq<T>, p: nat, tr: seq<Sys<T>>, acts: seq<Action>, k: nat, r: nat)
    requires Run(xs, p, tr, acts) && k < |tr| && r < |xs|
    ensures r < |tr[k].ranks| && (Returned(tr[k].ranks[r], |xs|) ==> tr[k].ranks[r].out == xs)
  {
    RunInv(xs, p, tr, acts, k);
    var x := tr[k].ranks[r];
    assert RankOk(xs, r, x);
    if Returned(x, |xs|) {
      forall q: nat | q < |xs| ensures x.out[q] == xs[q] {
        assert 2 * q + 1 in x.done && 2 * r in x.done;
      }
    }
  }

  // ---------------------------------------------------------------- workers and writes

  /** What a rank keeps besides: at most `p` indices are under way beside the caller's own, and a
      slot that is registered and not yet filled belongs to a receive under way. */
  ghost predicate WorkersOk<T>(p: nat, r: nat, x: Rank<T>) {
    && |Active(x) - {0}| <= p && r !in x.reg
    && (forall q: nat :: q in x.reg && q !in x.delivered ==> 2 * q + 1 in Active(x))
  }

  lemma OneFewer<T>(x: Rank<T>, i: nat, out: seq<T>)
    ensures |Active(x.(done := x.done + {i}, out := out)) - {0}| <= |Active(x) - {0}|
  {
    assert Active(x.(done := x.done + {i}, out := out)) - {0} == Active(x) - {0} - {i};
  }

  lemma StepActive<T>(xs: seq<T>, p: nat, s: Sys<T>, a: Action)
    requires Inv(xs, s) && Enabled(p, s, a) && |Active(s.ranks[a.r]) - {0}| <= p
    ensures |Active(NextRank(xs, p, s, a)) - {0}| <= p
  {
    var x, x' := s.ranks[a.r], NextRank(xs, p, s, a);
    assert RankOk(xs, a.r, x);
    match a
    case Start(_) =>
      if x.begun == 0 {
        assert Active(x') - {0} == {};
      } else {
        assert Active(x') - {0} == (Active(x) - {0}) + {x.begun};
      }
    case RunIndex(_, i) => OneFewer(x, i, x'.out);
    case Finish(_, i) => OneFewer(x, i, x'.out);
    case _ => assert Active(x') == Active(x);
  }

  lemma StepWaits<T>(xs: seq<T>, p: nat, s: Sys<T>, a: Action, q: nat)
    requires Inv(xs, s) && Enabled(p, s, a) && q != a.r
    requires q in s.ranks[a.r].reg && q !in s.ranks[a.r].delivered ==> 2 * q + 1 in Active(s.ranks[a.r])
    ensures q in NextRank(xs, p, s, a).reg && q !in NextRank(xs, p, s, a).delivered
            ==> 2 * q + 1 in Active(NextRank(xs, p, s, a))
  {
    match a
    case RunIndex(r, i) => assert i % 2 == 0 || i / 2 == r;
    case Finish(r, i) => assert i / 2 in s.ranks[r].delivered;
    case _ =>
  }

  lemma StepWorkers<T>(xs: seq<T>, p: nat, s: Sys<T>, a: Action)
    requires Inv(xs, s) && Enabled(p, s, a) && WorkersOk(p, a.r, s.ranks[a.r])
    ensures WorkersOk(p, a.r, NextRank(xs, p, s, a))
  {
    StepActive(xs, p, s, a);
    forall q: nat | q != a.r && q in NextRank(xs, p, s, a).reg && q !in NextRank(xs, p, s, a).delivered
      ensures 2 * q + 1 in Active(NextRank(xs, p, s, a))
    {
      StepWaits(xs, p, s, a, q);
    }
  }

  /** At any moment at most `p` threads run indices beside the caller. */
  lemma {:induction false} AtMostPWorkers<T>(xs: seq<T>, p: nat, tr: seq<Sys<T>>, acts: seq<Action>, k: nat, r: nat)
    requires Run(xs, p, tr, acts) && k < |tr| && r < |xs|
    ensures r < |tr[k].ranks| && WorkersOk(p, r, tr[k].ranks[r]) && |Active(tr[k].ranks[r]) - {0}| <= p
  {
    RunInv(xs, p, tr, acts, k);
    if k > 0 {
      var j := k - 1;
      AtMostPWorkers(xs, p, tr, acts, j, r);
      RunInv(xs, p, tr, acts, j);
      if acts[j].r == r { StepWorkers(xs, p, tr[j], acts[j]); }
    } else {
      assert Active(tr[0].ranks[r]) == {};
    }
  }

  function Fewer(a: nat, b: nat): nat { if a < b then a else b }

  /** The start of a run, with the outputs full of blocks. */
  ghost function StartState<T>(xs: seq<T>): (s: Sys<T>)
    ensures Init(xs, s) && Shape(xs, s) && forall r :: 0 <= r < |xs| ==> s.ranks[r] == Rank(0, {}, {}, {}, xs)
  {
    Sys(seq(|xs|, _ => Rank(0, {}, {}, {}, xs)), map[])
  }

  lemma OneMore<T>(xs: seq<T>, p: nat, tr: seq<Sys<T>>, acts: seq<Action>, a: Action)
    requires Run(xs, p, tr, acts) && Enabled(p, tr[|acts|], a) && Shape(xs, Apply(xs, p, tr[|acts|], a))
    ensures Run(xs, p, tr + [Apply(xs, p, tr[|acts|], a)], acts + [a])
  {
  }

  /** After `k + 1` starts of rank 0. */
  lemma {:induction false} Started<T>(xs: seq<T>, p: nat, k: nat) returns (tr: seq<Sys<T>>, acts: seq<Action>)
    requires xs != [] && k <= p && k < 2 * |xs|
    ensures Run(xs, p, tr, acts) && |tr[|acts|].ranks| == |xs|
    ensures tr[|acts|].ranks[0] == Rank(k + 1, {}, {}, {}, xs)
    decreases k
  {
    if k == 0 {
      tr, acts := [StartState(xs)], [];
    } else {
      tr, acts := Started(xs, p, k - 1);
      ActiveBelow(tr[|acts|].ranks[0], k);
    }
    var s := tr[|acts|];
    assert Enabled(p, s, Start(0));
    OneMore(xs, p, tr, acts, Start(0));
    tr, acts := tr + [Apply(xs, p, s, Start(0))], acts + [Start(0)];
  }

  lemma ActiveBelow<T>(x: Rank<T>, k: nat)
    requires x.begun == k > 0 && x.done == {}
    ensures |Active(x) - {0}| == k - 1
  {
    assert Active(x) == Ranks(k);
    RanksSize(k);
  }

  /** And as many as that there can be: all `p` threads work side by side, if there is work enough. */
  lemma AllWorkersBusy<T>(xs: seq<T>, p: nat) returns (tr: seq<Sys<T>>, acts: seq<Action>)
    requires xs != []
    ensures Run(xs, p, tr, acts) && |tr[|acts|].ranks| == |xs|
    ensures |Active(tr[|acts|].ranks[0]) - {0}| == Fewer(p, 2 * |xs| - 1)
  {
    tr, acts := Started(xs, p, Fewer(p, 2 * |xs| - 1));
    ActiveBelow(tr[|acts|].ranks[0], Fewer(p, 2 * |xs| - 1) + 1);
  }

  /** A slot of the output changes only while the index that is to fill it is under way: nothing
      writes into the caller's buffer before the call wants it, or after the call is done with it. */
  lemma SlotsAreWrittenInTime<T>(xs: seq<T>, p: nat, tr: seq<Sys<T>>, acts: seq<Action>, k: nat, r: nat, q: nat)
    requires Run(xs, p, tr, acts) && k < |acts| && r < |xs| && q < |xs|
    ensures r < |tr[k].ranks| && r < |tr[k + 1].ranks| && q < |tr[k].ranks[r].out| && q < |tr[k + 1].ranks[r].out|
    ensures tr[k + 1].ranks[r].out[q] != tr[k].ranks[r].out[q]
            ==> (if q == r then 2 * r else 2 * q + 1) in Active(tr[k].ranks[r])
  {
    AtMostPWorkers(xs, p, tr, acts, k, r);
    RunInv(xs, p, tr, acts, k);
    RunInv(xs, p, tr, acts, k + 1);
    assert RankOk(xs, r, tr[k].ranks[r]) && RankOk(xs, r, tr[k + 1].ranks[r]);
    if acts[k] == Deliver(r, r) { assert LinkOk(xs, tr[k], r, r); }
  }

  // ---------------------------------------------------------------- deadlock freedom

  /** Rank `q` has not begun the send to rank `r` (or `r` is the number of ranks). It waits,
      if at all, for a rank below `r`, which has not begun its send to `q`: along such a
      chain the ranks awaited by alternate members only fall. */
  lemma {:induction false} Unblock<T>(xs: seq<T>, p: nat, s: Sys<T>, q: nat, r: nat) returns (a: Action)
    requires p >= 1 && Inv(xs, s) && q < |xs| && r <= |xs|
    requires s.ranks[q].begun <= 2 * r && !Returned(s.ranks[q], |xs|)
    ensures Enabled(p, s, a)
    decreases q + r
  {
    var n := |xs|;
    var x := s.ranks[q];
    assert RankOk(xs, q, x);
    if x.begun < 2 * n && (x.begun == 0 || |Active(x) - {0}| < p) { return Start(q); }
    var i := SomeActive(xs, p, q, x);
    if i % 2 == 0 || i / 2 == q { return RunIndex(q, i); }
    var b := i / 2;
    if b !in x.reg { return Register(q, i); }
    if b in x.delivered { return Finish(q, i); }
    assert LinkOk(xs, s, b, q);
    if s.Wire(b, q) != [] { return Deliver(q, b); }
    assert 2 * q !in s.ranks[b].done;
    if 2 * q in Active(s.ranks[b]) { return RunIndex(b, 2 * q); }
    a := Unblock(xs, p, s, b, q);
  }

  lemma SomeActive<T>(xs: seq<T>, p: nat, q: nat, x: Rank<T>) returns (i: nat)
    requires p >= 1 && q < |xs| && RankOk(xs, q, x) && !Returned(x, |xs|)
    requires !(x.begun < 2 * |xs| && (x.begun == 0 || |Active(x) - {0}| < p))
    ensures i in Active(x) && i < 2 * |xs|
  {
    if x.begun < 2 * |xs| {
      assert Active(x) - {0} != {};
      i :| i in Active(x) - {0};
    } else {
      i :| i < 2 * |xs| && i !in x.done;
    }
  }

  /** Buffered all-gather never deadlocks, even with a single worker beside the caller. */
  lemma NeverStuck<T>(xs: seq<T>, p: nat, tr: seq<Sys<T>>, acts: seq<Action>, k: nat)
    requires p >= 1 && Run(xs, p, tr, acts) && k < |tr|
    ensures (forall r :: 0 <= r < |xs| ==> Returned(tr[k].ranks[r], |xs|)) || exists a :: Enabled(p, tr[k], a)
  {
    RunInv(xs, p, tr, acts, k);
    if r :| 0 <= r < |xs| && !Returned(tr[k].ranks[r], |xs|) {
      assert RankOk(xs, r, tr[k].ranks[r]);
      var a := Unblock(xs, p, tr[k], r, |xs|);
    }
  }

  // ---------------------------------------------------------------- termination

  /** Actions still to come at one rank. */
  function Work<T>(x: Rank<T>, n: nat): int {
    (2 * n - x.begun) + (2 * n - |x.done|) + (n - |x.reg|) + (n - |x.delivered|)
  }

  function TotalWork<T>(ranks: seq<Rank<T>>, n: nat): int {
    if ranks == [] then 0 else TotalWork(ranks[..|ranks| - 1], n) + Work(ranks[|ranks| - 1], n)
  }

  lemma {:induction false} TotalUpdate<T>(ranks: seq<Rank<T>>, r: nat, x: Rank<T>, n: nat)
    requires r < |ranks|
    ensures TotalWork(ranks[r := x], n) == TotalWork(ranks, n) - Work(ranks[r], n) + Work(x, n)
  {
    var k := |ranks| - 1;
    if r < k {
      assert ranks[r := x][..k] == ranks[..k][r := x];
      TotalUpdate(ranks[..k], r, x, n);
    } else {
      assert ranks[r := x][..k] == ranks[..k];
    }
  }

  lemma RankWork<T>(xs: seq<T>, p: nat, s: Sys<T>, a: Action)
    requires Shape(xs, s) && Enabled(p, s, a) && RankOk(xs, a.r, s.ranks[a.r])
    ensures Work(NextRank(xs, p, s, a), |xs|) == Work(s.ranks[a.r], |xs|) - 1
  {
  }

  lemma StepWork<T>(xs: seq<T>, p: nat, s: Sys<T>, a: Action)
    requires Inv(xs, s) && Enabled(p, s, a)
    ensures TotalWork(Apply(xs, p, s, a).ranks, |xs|) == TotalWork(s.ranks, |xs|) - 1
  {
    TotalUpdate(s.ranks, a.r, NextRank(xs, p, s, a), |xs|);
    RankWork(xs, p, s, a);
  }

  lemma WorkBound<T>(xs: seq<T>, r: nat, x: Rank<T>)
    requires r < |xs| && RankOk(xs, r, x)
    ensures Work(x, |xs|) >= 0
  {
    SizeWithin(x.done, 2 * |xs|);
    SizeWithin(x.reg, |xs|);
    SizeWithin(x.delivered, |xs|);
  }

  lemma SizeWithin(a: set<nat>, n: nat)
    requires forall i :: i in a ==> i < n
    ensures |a| <= n
  {
    RanksSize(n);
    assert a <= Ranks(n);
    assert |Ranks(n) - a| == n - |a|;
  }

  lemma {:induction false} TotalBound<T>(xs: seq<T>, s: Sys<T>, k: nat)
    requires Inv(xs, s) && k <= |xs|
    ensures TotalWork(s.ranks[..k], |xs|) >= 0
  {
    if k > 0 {
      TotalBound(xs, s, k - 1);
      assert s.ranks[..k][..k - 1] == s.ranks[..k - 1];
      WorkBound(xs, k - 1, s.ranks[k - 1]);
    }
  }

  /** Every run is finite, so every maximal one returns everywhere. */
  lemma {:induction false} RunsAreFinite<T>(xs: seq<T>, p: nat, tr: seq<Sys<T>>, acts: seq<Action>, k: nat)
    requires Run(xs, p, tr, acts) && k <= |acts|
    ensures TotalWork(tr[k].ranks, |xs|) == TotalWork(tr[0].ranks, |xs|) - k && k <= TotalWork(tr[0].ranks, |xs|)
  {
    if k > 0 {
      var j := k - 1;
      RunsAreFinite(xs, p, tr, acts, j);
      RunInv(xs, p, tr, acts, j);
      StepWork(xs, p, tr[j], acts[j]);
    }
    RunInv(xs, p, tr, acts, k);
    TotalBound(xs, tr[k], |xs|);
    assert tr[k].ranks[..|xs|] == tr[k].ranks;
  }
}
