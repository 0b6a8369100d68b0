/** `group_all_reduce`: its runs end, each tensor ends with its all-reduce, and a pool is safe
    for every submission order exactly when it is ample. */
module GroupBounds {
  import opened Basics
  import opened Folds
  import opened Topology
  import opened GroupAllReduce
  import opened Chunking
  import AR = AllReduce
  import ARP = AllReduceProgress
  import ARM = AllReduceMeaning
  import CAR = ChunkedAllReduce

  // ---------------------------------------------------------------- termination

  ghost function Queued<T>(s: State<T>): (ws: seq<int>)
    ensures |ws| == |s.pools| && forall r: nat :: r < |ws| ==> ws[r] == |s.pools[r].queue|
  {
    seq(|s.pools|, r requires 0 <= r < |s.pools| => |s.pools[r].queue|)
  }

  ghost function CallWork<T>(g: Group<T>, s: State<T>): (ws: seq<int>)
    requires Sized(g, s)
    ensures |ws| == |s.calls| && forall t: nat :: t < |ws| ==> ws[t] == WorkOf(g, s, t)
  {
    seq(|s.calls|, t requires 0 <= t < |s.calls| => WorkOf(g, s, t))
  }

  ghost function WorkOf<T>(g: Group<T>, s: State<T>, t: nat): int
    requires Sized(g, s) && t < |g.plans|
  {
    assert g.Fits(g.plans[t]);
    ARP.TotalWork(g.plans[t], s.calls[t])
  }

  /** Tensors to be taken, and actions to be done for the tensors. */
  ghost function Work<T>(g: Group<T>, s: State<T>): int
    requires Sized(g, s)
  {
    Sum(Queued(s)) + Sum(CallWork(g, s))
  }

  lemma ActWork<T>(g: Group<T>, s: State<T>, t: nat, a: AR.Action)
    requires Inv(g, s) && Enabled(g, s, Act(t, a)) && Sized(g, Next(g, s, Act(t, a)))
    ensures forall h: nat :: h < |g.plans| ==> WorkOf(g, Next(g, s, Act(t, a)), h) == WorkOf(g, s, h) - One(h == t)
  {
    assert CallOk(g, s, t);
    ARP.TotalWorkShrinks(g.plans[t], s.calls[t], a);
  }

  lemma StepWork<T>(g: Group<T>, s: State<T>, x: Step)
    requires Inv(g, s) && Enabled(g, s, x) && Sized(g, Next(g, s, x))
    ensures Work(g, Next(g, s, x)) == Work(g, s) - 1
  {
    var s' := Next(g, s, x);
    match x {
      case Start(r) =>
        OneLess(Queued(s), Queued(s'), r);
        assert CallWork(g, s') == CallWork(g, s);
      case Act(t, a) =>
        assert Queued(s') == Queued(s);
        ActWork(g, s, t, a);
        OneLess(CallWork(g, s), CallWork(g, s'), t);
    }
  }

  lemma WorkNonNegative<T>(g: Group<T>, s: State<T>)
    requires Inv(g, s)
    ensures Work(g, s) >= 0
  {
    SumNonNegative(Queued(s));
    forall t: nat | t < |g.plans| ensures WorkOf(g, s, t) >= 0 {
      assert CallOk(g, s, t);
      ARP.TotalWorkNonNegative(g.plans[t], s.calls[t]);
    }
    SumNonNegative(CallWork(g, s));
  }

  lemma WorkOfStep<T>(g: Group<T>, s: State<T>, s': State<T>, x: Step)
    requires Inv(g, s) && Inv(g, s') && Stepped(g, s, s', x)
    ensures Work(g, s') == Work(g, s) - 1
  {
    StepWork(g, s, x);
  }

  lemma {:induction false} WorkAlongRun<T>(g: Group<T>, orders: seq<seq<nat>>, tr: seq<State<T>>, xs: seq<Step>, i: nat)
    requires Run(g, orders, tr, xs) && i < |tr|
    ensures Inv(g, tr[i]) && Work(g, tr[i]) == Work(g, tr[0]) - i
    decreases i
  {
    RunInv(g, orders, tr, xs, i);
    if i > 0 {
      var j := i - 1;
      WorkAlongRun(g, orders, tr, xs, j);
      WorkOfStep(g, tr[j], tr[i], xs[j]);
    }
  }

  /** Every run is bounded by the work of its first state. */
  lemma RunsAreFinite<T>(g: Group<T>, orders: seq<seq<nat>>, tr: seq<State<T>>, xs: seq<Step>)
    requires Run(g, orders, tr, xs)
    ensures Sized(g, tr[0]) && |xs| <= Work(g, tr[0])
  {
    WorkAlongRun(g, orders, tr, xs, |xs|);
    WorkNonNegative(g, tr[|xs|]);
  }

  lemma OneMoreStep<T>(g: Group<T>, orders: seq<seq<nat>>, tr: seq<State<T>>, xs: seq<Step>, x: Step)
    requires Run(g, orders, tr, xs) && Sized(g, tr[|xs|]) && Enabled(g, tr[|xs|], x)
    ensures Run(g, orders, tr + [Next(g, tr[|xs|], x)], xs + [x])
  {
    var tr', xs' := tr + [Next(g, tr[|xs|], x)], xs + [x];
    assert tr'[0] == tr[0];
    forall i | 0 <= i < |xs'| ensures Stepped(g, tr'[i], tr'[i + 1], xs'[i]) {
      if i < |xs| {
        assert Stepped(g, tr[i], tr[i + 1], xs[i]);
        assert tr'[i] == tr[i] && tr'[i + 1] == tr[i + 1] && xs'[i] == xs[i];
      }
    }
  }

  /** Every run can be continued until nothing is enabled. */
  lemma {:induction false} ToTheEnd<T>(g: Group<T>, orders: seq<seq<nat>>, tr: seq<State<T>>, xs: seq<Step>)
    returns (tr': seq<State<T>>, xs': seq<Step>)
    requires Run(g, orders, tr, xs) && Sized(g, tr[0])
    ensures Run(g, orders, tr', xs') && Sized(g, tr'[|xs'|]) && forall x :: !Enabled(g, tr'[|xs'|], x)
    decreases Work(g, tr[0]) - |xs|
  {
    WorkAlongRun(g, orders, tr, xs, |xs|);
    if x :| Enabled(g, tr[|xs|], x) {
      OneMoreStep(g, orders, tr, xs, x);
      RunsAreFinite(g, orders, tr + [Next(g, tr[|xs|], x)], xs + [x]);
      tr', xs' := ToTheEnd(g, orders, tr + [Next(g, tr[|xs|], x)], xs + [x]);
    } else {
      tr', xs' := tr, xs;
    }
  }

  // ---------------------------------------------------------------- each tensor on its own

  lemma DropLast<T>(g: Group<T>, orders: seq<seq<nat>>, tr: seq<State<T>>, xs: seq<Step>)
    requires Run(g, orders, tr, xs) && xs != []
    ensures Run(g, orders, tr[..|xs|], xs[..|xs| - 1])
  {
    forall i | 0 <= i < |xs| - 1 ensures Stepped(g, tr[..|xs|][i], tr[..|xs|][i + 1], xs[..|xs| - 1][i]) {
      assert Stepped(g, tr[i], tr[i + 1], xs[i]);
    }
  }

  /** What the steps do for tensor `t`. */
  function Of(xs: seq<Step>, t: nat): seq<AR.Action> {
    if xs == [] then [] else
      Of(xs[..|xs| - 1], t) + if xs[|xs| - 1].Act? && xs[|xs| - 1].t == t then [xs[|xs| - 1].a] else []
  }

  /** What a run of the group does for one tensor is a run of the all-reduce protocol. */
  lemma {:induction false} CallOf<T>(g: Group<T>, orders: seq<seq<nat>>, tr: seq<State<T>>, xs: seq<Step>, t: nat)
    returns (calls: seq<AR.Sys<T>>, acts: seq<AR.Action>)
    requires Run(g, orders, tr, xs) && t < |g.plans|
    ensures g.Fits(g.plans[t]) && AR.Run(g.plans[t], calls, acts) && acts == Of(xs, t)
    ensures t < |tr[|xs|].calls| && calls[|acts|] == tr[|xs|].calls[t]
    decreases |xs|
  {
    var p := g.plans[t];
    if xs == [] {
      assert g.Fits(p) && AR.Init(p, tr[0].calls[t]);
      calls, acts := [tr[0].calls[t]], [];
    } else {
      var j := |xs| - 1;
      DropLast(g, orders, tr, xs);
      calls, acts := CallOf(g, orders, tr[..|xs|], xs[..j], t);
      assert Stepped(g, tr[j], tr[j + 1], xs[j]);
      if xs[j].Act? && xs[j].t == t {
        ARP.OneMoreAction(p, calls, acts, xs[j].a);
        calls, acts := calls + [AR.Apply(p, calls[|acts|], xs[j].a)], acts + [xs[j].a];
      }
    }
  }

  /** The tensors for which `u` sent to `v`, and for which the handler at `v` took a message of
      `u`, one entry for each message, in the order of the steps. */
  function SentBetween(xs: seq<Step>, u: nat, v: nat): seq<nat> {
    if xs == [] then [] else SentBetween(xs[..|xs| - 1], u, v) + SentBy(xs[|xs| - 1], u, v)
  }

  function SentBy(x: Step, u: nat, v: nat): seq<nat> {
    if x.Act? && (x.a == AR.SendReduce(u, v) || x.a == AR.SendBcast(u, v)) then [x.t] else []
  }

  function TakenBetween(xs: seq<Step>, u: nat, v: nat): seq<nat> {
    if xs == [] then [] else TakenBetween(xs[..|xs| - 1], u, v) + TakenBy(xs[|xs| - 1], u, v)
  }

  function TakenBy(x: Step, u: nat, v: nat): seq<nat> {
    if x.Act? && x.a == AR.Handle(u, v) then [x.t] else []
  }

  lemma ActShared<T>(s: State<T>, t: nat, a: AR.Action, u: nat, v: nat)
    requires a.Handle? ==> s.Stream(a.peer, a.v) != [] && s.Stream(a.peer, a.v)[0] == t
    ensures s.Stream(u, v) + SentBy(Act(t, a), u, v)
         == TakenBy(Act(t, a), u, v) + s.(streams := NextStreams(s, t, a)).Stream(u, v)
  {
  }

  lemma StepStreams<T>(g: Group<T>, s: State<T>, s': State<T>, x: Step)
    requires Stepped(g, s, s', x)
    ensures x.Start? ==> s'.streams == s.streams
    ensures x.Act? && x.a.Handle? ==> s.Stream(x.a.peer, x.a.v) != [] && s.Stream(x.a.peer, x.a.v)[0] == x.t
    ensures x.Act? ==> s'.streams == NextStreams(s, x.t, x.a)
  {
  }

  /** The stream of two ranks hands on the messages of all tensors in the order of their sending:
      behind one that must wait, the messages of other tensors wait too. */
  lemma {:induction false} SharedStreamIsFifo<T>(g: Group<T>, orders: seq<seq<nat>>, tr: seq<State<T>>,
                                                 xs: seq<Step>, u: nat, v: nat)
    requires Run(g, orders, tr, xs)
    ensures SentBetween(xs, u, v) == TakenBetween(xs, u, v) + tr[|xs|].Stream(u, v)
    decreases |xs|
  {
    if xs != [] {
      var j := |xs| - 1;
      DropLast(g, orders, tr, xs);
      SharedStreamIsFifo(g, orders, tr[..|xs|], xs[..j], u, v);
      assert Stepped(g, tr[j], tr[j + 1], xs[j]);
      StepStreams(g, tr[j], tr[j + 1], xs[j]);
      if xs[j].Act? { ActShared(tr[j], xs[j].t, xs[j].a, u, v); }
      Regroup(SentBetween(xs[..j], u, v), TakenBetween(xs[..j], u, v), tr[j].Stream(u, v), SentBy(xs[j], u, v),
              TakenBy(xs[j], u, v), tr[j + 1].Stream(u, v));
    }
  }

  /** A rank runs at most `w` tensors at once. */
  lemma AtMostWActive<T>(g: Group<T>, orders: seq<seq<nat>>, tr: seq<State<T>>, xs: seq<Step>, i: nat, r: nat)
    requires Run(g, orders, tr, xs) && i < |tr| && r < g.m
    ensures Sized(g, tr[i]) && |tr[i].pools[r].begun - Done(g, tr[i], r)| <= g.w
  {
    RunInv(g, orders, tr, xs, i);
    assert PoolOk(g, tr[i], r);
  }

  /** In every reachable state, every chunk of every tensor that has returned at a rank left the
      fold of its inputs there, if no rank forwards it without having received. */
  lemma GroupLeavesFolds<T(!new)>(g: Group<T>, orders: seq<seq<nat>>, tr: seq<State<T>>, xs: seq<Step>,
                                  t: nat, v: nat, k: nat)
    requires Run(g, orders, tr, xs) && Sized(g, tr[|xs|]) && t < |g.plans| && v < g.m
    requires g.Fits(g.plans[t]) && k < tr[|xs|].calls[t].ranks[v].round
    requires Associative(g.plans[t].op) && Commutative(g.plans[t].op) && ARM.ForwardersReceive(g.plans[t], k)
    ensures k < |g.plans[t].xs| && k < |tr[|xs|].calls[t].ranks[v].outs|
    ensures tr[|xs|].calls[t].ranks[v].outs[k] == LeftFold(g.plans[t].op, g.plans[t].xs[k])
  {
    var calls, acts := CallOf(g, orders, tr, xs, t);
    ARM.AllReduceIsFold(g.plans[t], calls, acts, |acts|, v, k);
  }

  lemma ReturnedEverywhere<T>(g: Group<T>, s: State<T>, t: nat)
    requires Inv(g, s) && t < |g.plans| && forall r: nat :: r < g.m ==> t in Done(g, s, r)
    ensures AR.Finished(g.plans[t], s.calls[t])
  {
    assert CallOk(g, s, t);
    forall r: nat | r < g.m ensures s.calls[t].ranks[r].round == |g.plans[t].xs| {
      assert t in Done(g, s, r) && AR.RankOk(g.plans[t], r, s.calls[t].ranks[r]);
    }
  }

  /** A tensor that is chunked over the pairs of a session and has returned everywhere left in
      every receive buffer what the unsplit call would. */
  lemma GroupIsUnsplit<E(!new)>(g: Group<seq<E>>, orders: seq<seq<nat>>, tr: seq<State<seq<E>>>, xs: seq<Step>,
                                t: nat, op: (E, E) -> E, inputs: seq<seq<E>>, w: Workspace, limit: nat, k: nat,
                                st: Strategy, v: nat, buffer: seq<E>)
    requires Run(g, orders, tr, xs) && Sized(g, tr[|xs|]) && t < |g.plans| && v < g.m
    requires forall r: nat :: r < g.m ==> t in Done(g, tr[|xs|], r)
    requires w.count > 0 && w.esize > 0 && limit > 0 && k == Chunks(w.count, w.esize, limit)
    requires (forall u :: 0 <= u < |inputs| ==> |inputs[u]| == w.count) && CAR.IsCall(op, inputs, w, k, st, g.plans[t])
    requires Associative(op) && Commutative(op)
    requires CAR.MakesUp(w, k, tr[|xs|].calls[t].ranks[v].outs, buffer)
    requires st.Star? || g.m <= 2 || forall j: nat :: j < k ==> g.plans[t].inPlace[CAR.Starter(g.plans[t], j)]
    ensures buffer == LeftFold(Zip(op), inputs)
  {
    RunInv(g, orders, tr, xs, |xs|);
    ReturnedEverywhere(g, tr[|xs|], t);
    var calls, acts := CallOf(g, orders, tr, xs, t);
    CAR.ChunkedIsUnsplit(op, inputs, w, limit, k, st, g.plans[t], calls, acts, v, buffer);
  }

  // ---------------------------------------------------------------- the bound is tight

  /** Each rank's order shifted by `q` tensors against the rank before it. */
  function CyclicOrders(m: nat, n: nat, q: nat): seq<seq<nat>>
    requires n > 0
  {
    seq(m, r requires 0 <= r < m => seq(n, i requires 0 <= i < n => (i + r * q) % n))
  }

  lemma MulGrows(n: nat, k: int)
    requires k >= 1
    ensures n * k >= n
  {
  }

  lemma ResiduesDiffer(n: nat, a: nat, b: nat)
    requires n > 0 && a < b < a + n
    ensures a % n != b % n
  {
    var k := b / n - a / n;
    assert b - a == n * k + (b % n - a % n);
    if k >= 1 { MulGrows(n, k); }
    if k <= -1 { MulGrows(n, -k); assert n * k == -(n * (-k)); }
  }

  lemma CyclicAreOrders(m: nat, n: nat, q: nat)
    requires m >= 1 && n > 0
    ensures Orders(CyclicOrders(m, n, q), m, n)
  {
    forall r | 0 <= r < m ensures IsOrder(CyclicOrders(m, n, q)[r], n) {
      var o := CyclicOrders(m, n, q)[r];
      forall i, j | 0 <= i < j < n ensures o[i] != o[j] {
        ResiduesDiffer(n, i + r * q, j + r * q);
      }
    }
  }

  /** Every tensor is among the last `q` of some rank when the `m` tails can cover all. */
  lemma CyclicMiss(m: nat, n: nat, q: nat, t: nat) returns (r: nat)
    requires 0 < q <= n <= m * q && t < n
    ensures r < m && t !in Taken(CyclicOrders(m, n, q)[r], n - q)
  {
    var y := (t + q) % n;
    r := y / q;
    assert y == q * r + y % q;
    if r >= m { MulMono(m, r, q); }
    var o := CyclicOrders(m, n, q)[r];
    var j := n - q + y % q;
    WrapAround(n, q, t, r, y);
    assert o[j] == t;
    CyclicAreOrders(m, n, q);
    assert IsOrder(o, n);
    assert forall i :: 0 <= i < n - q ==> o[i] != o[j];
  }

  lemma WrapAround(n: nat, q: nat, t: nat, r: nat, y: nat)
    requires 0 < q <= n && t < n && y == (t + q) % n && y == q * r + y % q
    ensures (n - q + y % q + r * q) % n == t
  {
    SmallMod(n, t + q);
    SmallMod(n, n - q + y);
    assert n - q + y % q + r * q == n - q + y;
  }

  /** The orders that a small pool fails on. */
  ghost function Adverse<T>(g: Group<T>): (orders: seq<seq<nat>>)
    requires g.Valid() && |g.plans| >= 1
    ensures Orders(orders, g.m, |g.plans|)
  {
    var n := |g.plans|;
    var q := if g.w < n then n - g.w else 0;
    CyclicAreOrders(g.m, n, q);
    CyclicOrders(g.m, n, q)
  }

  /** Each rank has taken a prefix of its order. */
  ghost predicate PrefixOk(o: seq<nat>, x: Pool) {
    |x.queue| <= |o| && x.queue == o[|o| - |x.queue|..] && x.begun == Taken(o, |o| - |x.queue|)
  }

  lemma PrefixStart(o: seq<nat>, x: Pool)
    requires PrefixOk(o, x) && x.queue != []
    ensures PrefixOk(o, Started(x))
  {
    var k := |o| - |x.queue|;
    assert Taken(o, k + 1) == Taken(o, k) + {o[k]};
  }

  lemma {:induction false} PrefixRun<T>(g: Group<T>, orders: seq<seq<nat>>, tr: seq<State<T>>, xs: seq<Step>,
                                        i: nat, r: nat)
    requires Run(g, orders, tr, xs) && i < |tr| && r < g.m
    ensures r < |orders| && r < |tr[i].pools| && PrefixOk(orders[r], tr[i].pools[r])
    decreases i
  {
    if i == 0 {
      assert tr[0].pools[r] == Pool(orders[r], {});
      assert orders[r][0..] == orders[r];
    } else {
      var j := i - 1;
      PrefixRun(g, orders, tr, xs, j, r);
      assert Stepped(g, tr[j], tr[j + 1], xs[j]);
      if xs[j] == Start(r) { PrefixStart(orders[r], tr[j].pools[r]); }
    }
  }

  lemma TakenMonotone(o: seq<nat>, k: nat, w: nat)
    requires k <= w <= |o|
    ensures Taken(o, k) <= Taken(o, w)
  {
  }

  lemma SmallPrefix(o: seq<nat>, n: nat, w: nat, x: Pool)
    requires IsOrder(o, n) && PrefixOk(o, x) && |x.begun| <= w <= n
    ensures x.begun <= Taken(o, w)
  {
    var k := n - |x.queue|;
    TakenSize(o, n, k);
    TakenMonotone(o, k, w);
  }

  ghost predicate NothingDone<T>(g: Group<T>, s: State<T>) {
    Sized(g, s) && forall r: nat :: r < g.m ==> Done(g, s, r) == {}
  }

  /** While nothing has returned, each tensor is still missing at some rank. */
  lemma Missing<T>(g: Group<T>, tr: seq<State<T>>, xs: seq<Step>, i: nat, t: nat) returns (r: nat)
    requires g.Valid() && |g.plans| >= 1 && g.w < |g.plans| <= g.m * (|g.plans| - g.w) && t < |g.plans|
    requires Run(g, Adverse(g), tr, xs) && i < |tr| && NothingDone(g, tr[i])
    ensures r < g.m && r < |tr[i].pools| && t !in tr[i].pools[r].begun
  {
    r := CyclicMiss(g.m, |g.plans|, |g.plans| - g.w, t);
    RunInv(g, Adverse(g), tr, xs, i);
    PrefixRun(g, Adverse(g), tr, xs, i, r);
    BegunIsSmall(g, tr[i], r);
    SmallPrefix(Adverse(g)[r], |g.plans|, g.w, tr[i].pools[r]);
  }

  lemma BegunIsSmall<T>(g: Group<T>, s: State<T>, r: nat)
    requires Inv(g, s) && r < g.m && NothingDone(g, s)
    ensures |s.pools[r].begun| <= g.w
  {
    assert PoolOk(g, s, r) && Active(g, s, r) == s.pools[r].begun;
  }

  lemma {:induction false} StarvedRun<T>(g: Group<T>, tr: seq<State<T>>, xs: seq<Step>, i: nat)
    requires g.Valid() && |g.plans| >= 1 && g.w < |g.plans| <= g.m * (|g.plans| - g.w)
    requires Run(g, Adverse(g), tr, xs) && i < |tr|
    ensures NothingDone(g, tr[i])
    decreases i
  {
    RunInv(g, Adverse(g), tr, xs, i);
    forall r: nat, t | r < g.m && t in Done(g, tr[i], r) ensures false {
      if i == 0 {
        StartsUndone(g, Adverse(g), tr[0], r, t);
      } else {
        var j := i - 1;
        StarvedRun(g, tr, xs, j);
        assert Stepped(g, tr[j], tr[j + 1], xs[j]);
        assert Done(g, tr[j], r) == {};
        DoneGrows(g, tr[j], xs[j], r);
        var q := Missing(g, tr, xs, j, t);
        DoneMeansBegun(g, tr[i], t, r, q);
      }
    }
  }

  lemma StartsUndone<T>(g: Group<T>, orders: seq<seq<nat>>, s: State<T>, r: nat, t: nat)
    requires Init(g, orders, s) && r < g.m && t < |g.plans|
    ensures t !in Done(g, s, r)
  {
    assert g.Fits(g.plans[t]) && AR.Init(g.plans[t], s.calls[t]);
  }

  lemma SmallPool(m: nat, n: nat, w: nat)
    requires m >= 1 && n >= 1 && m * w <= (m - 1) * n
    ensures w < n && n <= m * (n - w)
  {
    assert (m - 1) * n == m * n - n;
    assert m * (n - w) == m * n - m * w;
    if w >= n { MulMono(n, w, m); }
  }

  /** Too small a pool, cyclic orders: no run ever completes a tensor at any rank, whatever its
      chunks and tree pairs. */
  lemma NothingEverDone<T>(g: Group<T>, tr: seq<State<T>>, xs: seq<Step>, i: nat, r: nat)
    requires g.Valid() && |g.plans| >= 1 && !Ample(g.m, |g.plans|, g.w)
    requires Run(g, Adverse(g), tr, xs) && i < |tr| && r < g.m
    ensures Sized(g, tr[i]) && Done(g, tr[i], r) == {}
  {
    SmallPool(g.m, |g.plans|, g.w);
    StarvedRun(g, tr, xs, i);
  }

  /** The start of a group. */
  lemma StartGroup<T>(g: Group<T>, orders: seq<seq<nat>>) returns (s: State<T>)
    requires g.Valid() && Orders(orders, g.m, |g.plans|)
    ensures Init(g, orders, s) && Run(g, orders, [s], [])
  {
    s := State(seq(g.m, r requires 0 <= r < g.m => Pool(orders[r], {})),
               seq(|g.plans|, t requires 0 <= t < |g.plans| => (assert g.Fits(g.plans[t]); ARP.StartState(g.plans[t]))),
               map[]);
    forall t: nat | t < |g.plans|
      ensures g.Fits(g.plans[t]) && |s.calls[t].ranks| == g.m && AR.Init(g.plans[t], s.calls[t])
    {
      assert g.Fits(g.plans[t]);
    }
  }

  /** Every maximal run under the cyclic orders is a deadlock. */
  lemma CyclicDeadlock<T>(g: Group<T>) returns (tr: seq<State<T>>, xs: seq<Step>)
    requires g.Valid() && |g.plans| >= 1 && !Ample(g.m, |g.plans|, g.w)
    ensures Run(g, Adverse(g), tr, xs)
    ensures Sized(g, tr[|xs|]) && Stuck(g, tr[|xs|])
  {
    var s := StartGroup(g, Adverse(g));
    tr, xs := ToTheEnd(g, Adverse(g), [s], []);
    NothingEverDone(g, tr, xs, |xs|, 0);
    assert 0 in Ranks(|g.plans|);
  }

  ghost predicate PoolSuffices<T(!new)>(g: Group<T>) {
    forall orders, tr, xs :: Run(g, orders, tr, xs) ==> EndsWell(g, tr[|xs|])
  }

  ghost predicate EndsWell<T>(g: Group<T>, s: State<T>) {
    Sized(g, s) && !Stuck(g, s)
  }

  /** For any chunks and tree pairs of the tensors: a pool of `w` workers per rank is safe for
      every choice of submission orders if and only if `m * w > (m - 1) * n`. */
  lemma PoolSizeIsExact<T(!new)>(g: Group<T>)
    requires g.Valid() && |g.plans| >= 1
    ensures PoolSuffices(g) <==> Ample(g.m, |g.plans|, g.w)
  {
    if Ample(g.m, |g.plans|, g.w) {
      forall orders, tr, xs | Run(g, orders, tr, xs) ensures EndsWell(g, tr[|xs|]) {
        NeverStuck(g, orders, tr, xs);
      }
    } else {
      var tr, xs := CyclicDeadlock(g);
      assert !EndsWell(g, tr[|xs|]);
    }
  }

  /** The shift `n / m` of the benchmark's orders is the deadlocking one for a pool of
      `n - n / m` workers when `m` divides `n`. */
  lemma BenchmarkShift(m: nat, n: nat, rank: nat, i: nat)
    requires m >= 2 && n >= 1 && n % m == 0 && rank < m && i < n
    ensures var w := n - n / m;
            && m * w <= (m - 1) * n
            && CyclicOrders(m, n, n - w)[rank][i] == (i + n / m * rank) % n
  {
    assert n == m * (n / m);
    assert m * (n - n / m) == m * n - m * (n / m);
    assert rank * (n / m) == n / m * rank;
  }

  /** The pool `group_all_reduce` makes. */
  const GROUP_POOL_SIZE: nat := 76

  /** `n` tensors of one value on the star of `m` ranks. */
  ghost function StarGroup<T>(m: nat, n: nat, op: (T, T) -> T, x: T): Group<T> {
    var p := AR.Plan(m, [ARM.StarTree(m, 0)], (k: nat) => 0, op, seq(m, (_: nat) => false), [seq(m, (_: nat) => x)]);
    Group(m, GROUP_POOL_SIZE, seq(n, (_: nat) => p))
  }

  lemma StarGroupIsValid<T>(m: nat, n: nat, op: (T, T) -> T, x: T)
    requires m >= 1
    ensures StarGroup(m, n, op, x).Valid()
  {
    var g := StarGroup(m, n, op, x);
    forall t: nat | t < n ensures g.Fits(g.plans[t]) {
      StarIsTreePair(m, 0);
      ARM.StarIsValid(g.plans[t]);
    }
  }

  /** It is safe whatever the number of ranks exactly for groups no larger than itself. */
  lemma FixedPool<T(!new)>(n: nat, op: (T, T) -> T, x: T)
    requires n >= 1
    ensures (forall g: Group<T> :: g.Valid() && |g.plans| == n && g.w == GROUP_POOL_SIZE ==> PoolSuffices(g))
       <==> n <= GROUP_POOL_SIZE
  {
    if n <= GROUP_POOL_SIZE {
      forall g: Group<T> | g.Valid() && |g.plans| == n && g.w == GROUP_POOL_SIZE ensures PoolSuffices(g) {
        MulMono(n, GROUP_POOL_SIZE, g.m);
        PoolSizeIsExact(g);
      }
    } else {
      StarGroupIsValid(77, n, op, x);
      PoolSizeIsExact(StarGroup(77, n, op, x));
    }
  }
}
