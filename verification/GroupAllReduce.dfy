/** `group_all_reduce`: every rank hands the same tensors to a worker pool, each in an order
    of its own, and each task is one blocking all-reduce, over whatever chunks and tree pairs.
    The system below runs the pools of all the ranks together.

    Each tensor has names of its own, so its mailboxes and slots are its own too: `calls` holds
    one system of `AllReduce` per tensor. What the tensors share is the workers of a rank and
    the FIFO stream of an ordered pair of ranks. A shared stream is the order in which the
    tensors' messages stand in it (`streams`); the messages of one tensor are, in that order,
    those of its own stream. A handler takes only the message at the head of the shared one. */
module GroupAllReduce {
  import opened Basics
  import opened Folds
  import opened Graphs
  import AR = AllReduce
  import ARP = AllReduceProgress

  /** `m` ranks with pools of `w` workers, and one plan for each tensor. */
  datatype Group<!T> = Group(m: nat, w: nat, plans: seq<AR.Plan<T>>)
  {
    ghost predicate Valid() { m >= 1 && forall t: nat :: t < |plans| ==> Fits(plans[t]) }
    ghost predicate Fits(p: AR.Plan<T>) { p.Valid() && p.n == m && p.xs != [] }
  }

  /** The tensors submitted and not yet taken by a worker, and those taken. */
  datatype Pool = Pool(queue: seq<nat>, begun: set<nat>)

  datatype State<T> = State(pools: seq<Pool>, calls: seq<AR.Sys<T>>, streams: map<(nat, nat), seq<nat>>)
  {
    function Stream(u: nat, v: nat): seq<nat> { if (u, v) in streams then streams[(u, v)] else [] }
  }

  datatype Step =
    | Start(r: nat)
    | Act(t: nat, a: AR.Action)

  ghost predicate Sized<T>(g: Group<T>, s: State<T>) {
    && g.Valid() && |s.pools| == g.m && |s.calls| == |g.plans|
    && forall t: nat :: t < |g.plans| ==> g.Fits(g.plans[t]) && |s.calls[t].ranks| == g.m
  }

  /** The tensors that have returned at a rank, and those some worker of it is blocked in. */
  ghost function Done<T>(g: Group<T>, s: State<T>, r: nat): (d: set<nat>)
    requires Sized(g, s) && r < g.m
  {
    set t: nat | t < |g.plans| && s.calls[t].ranks[r].round >= |g.plans[t].xs|
  }

  ghost function Active<T>(g: Group<T>, s: State<T>, r: nat): set<nat>
    requires Sized(g, s) && r < g.m
  {
    s.pools[r].begun - Done(g, s, r)
  }

  ghost predicate Enabled<T>(g: Group<T>, s: State<T>, x: Step)
    requires Sized(g, s)
  {
    match x
    case Start(r) => r < g.m && s.pools[r].queue != [] && |Active(g, s, r)| < g.w
    case Act(t, a) =>
      && t < |g.plans| && g.Fits(g.plans[t]) && AR.Enabled(g.plans[t], s.calls[t], a)
      && if a.Handle? then s.Stream(a.peer, a.v) != [] && s.Stream(a.peer, a.v)[0] == t
         else t in s.pools[a.v].begun
  }

  function Started(x: Pool): Pool
    requires x.queue != []
  {
    Pool(x.queue[1..], x.begun + {x.queue[0]})
  }

  ghost function NextStreams<T>(s: State<T>, t: nat, a: AR.Action): map<(nat, nat), seq<nat>>
    requires a.Handle? ==> s.Stream(a.peer, a.v) != []
  {
    match a
    case SendReduce(v, d) => s.streams[(v, d) := s.Stream(v, d) + [t]]
    case SendBcast(v, d) => s.streams[(v, d) := s.Stream(v, d) + [t]]
    case Handle(u, v) => s.streams[(u, v) := s.Stream(u, v)[1..]]
    case _ => s.streams
  }

  ghost function Next<T>(g: Group<T>, s: State<T>, x: Step): State<T>
    requires Sized(g, s) && Enabled(g, s, x)
  {
    match x
    case Start(r) => s.(pools := s.pools[r := Started(s.pools[r])])
    case Act(t, a) =>
      s.(calls := s.calls[t := AR.Apply(g.plans[t], s.calls[t], a)], streams := NextStreams(s, t, a))
  }

  /** One submission order per rank, each naming every tensor once. */
  ghost predicate Orders(orders: seq<seq<nat>>, m: nat, n: nat) {
    |orders| == m && forall r :: 0 <= r < m ==> IsOrder(orders[r], n)
  }

  ghost predicate IsOrder(o: seq<nat>, n: nat) {
    |o| == n && (forall i :: 0 <= i < n ==> o[i] < n) && Distinct(o)
  }

  ghost predicate Init<T>(g: Group<T>, orders: seq<seq<nat>>, s: State<T>) {
    && Sized(g, s) && Orders(orders, g.m, |g.plans|) && s.streams == map[]
    && (forall r: nat :: r < g.m ==> s.pools[r] == Pool(orders[r], {}))
    && forall t: nat :: t < |g.plans| ==> g.Fits(g.plans[t]) && AR.Init(g.plans[t], s.calls[t])
  }

  ghost predicate Stepped<T>(g: Group<T>, s: State<T>, s': State<T>, x: Step) {
    Sized(g, s) && Enabled(g, s, x) && s' == Next(g, s, x)
  }

  ghost predicate Run<T>(g: Group<T>, orders: seq<seq<nat>>, tr: seq<State<T>>, xs: seq<Step>) {
    && |tr| == |xs| + 1 && Init(g, orders, tr[0])
    && forall i :: 0 <= i < |xs| ==> Stepped(g, tr[i], tr[i + 1], xs[i])
  }

  ghost predicate AllDone<T>(g: Group<T>, s: State<T>)
    requires Sized(g, s)
  {
    forall r: nat :: r < g.m ==> Done(g, s, r) == Ranks(|g.plans|)
  }

  ghost predicate Stuck<T>(g: Group<T>, s: State<T>)
    requires Sized(g, s)
  {
    !AllDone(g, s) && forall x :: !Enabled(g, s, x)
  }

  // ---------------------------------------------------------------- invariant

  ghost predicate PoolOk<T>(g: Group<T>, s: State<T>, r: nat)
    requires Sized(g, s) && r < g.m
  {
    QueueOk(s.pools[r], |g.plans|) && |Active(g, s, r)| <= g.w
  }

  ghost predicate QueueOk(x: Pool, n: nat) {
    Elems(x.queue) !! x.begun && Elems(x.queue) + x.begun == Ranks(n) && Distinct(x.queue)
  }

  /** A rank does nothing for a tensor before a worker takes it. */
  ghost predicate CallOk<T>(g: Group<T>, s: State<T>, t: nat)
    requires Sized(g, s) && t < |g.plans|
  {
    && g.Fits(g.plans[t]) && AR.Control(g.plans[t], s.calls[t])
    && forall r: nat :: r < g.m && t !in s.pools[r].begun ==> ARP.Fresh(g.plans[t], r, s.calls[t].ranks[r])
  }

  ghost predicate StreamOk<T>(s: State<T>, u: nat, v: nat) {
    && (forall t: nat :: t < |s.calls| ==> multiset(s.Stream(u, v))[t] == |s.calls[t].Wire(u, v)|)
    && forall i :: 0 <= i < |s.Stream(u, v)| ==> s.Stream(u, v)[i] < |s.calls|
  }

  ghost predicate Inv<T>(g: Group<T>, s: State<T>) {
    && Sized(g, s)
    && (forall r: nat :: r < g.m ==> PoolOk(g, s, r))
    && (forall t: nat :: t < |g.plans| ==> CallOk(g, s, t))
    && forall u: nat, v: nat :: StreamOk(s, u, v)
  }

  lemma PopHead(q: seq<nat>)
    requires q != [] && Distinct(q)
    ensures Distinct(q[1..]) && Elems(q[1..]) == Elems(q) - {q[0]} && q[0] in Elems(q)
  {
    forall x ensures x in Elems(q[1..]) <==> x in Elems(q) - {q[0]} {
      if x in q[1..] { assert x in q; }
    }
  }

  lemma DoneGrows<T>(g: Group<T>, s: State<T>, x: Step, r: nat)
    requires Sized(g, s) && Enabled(g, s, x) && Sized(g, Next(g, s, x)) && r < g.m
    ensures Done(g, s, r) <= Done(g, Next(g, s, x), r)
    ensures x.Start? ==> Done(g, s, r) == Done(g, Next(g, s, x), r)
  {
    var s' := Next(g, s, x);
    forall t: nat | t < |g.plans| ensures s'.calls[t].ranks[r].round >= s.calls[t].ranks[r].round {}
  }

  lemma StepSized<T>(g: Group<T>, s: State<T>, x: Step)
    requires Sized(g, s) && Enabled(g, s, x)
    ensures Sized(g, Next(g, s, x))
  {
    var s' := Next(g, s, x);
    forall t: nat | t < |g.plans| ensures |s'.calls[t].ranks| == g.m {}
  }

  lemma StartQueue(x: Pool, n: nat, done: set<nat>)
    requires QueueOk(x, n) && x.queue != []
    ensures QueueOk(Started(x), n) && |Started(x).begun - done| <= |x.begun - done| + 1
  {
    PopHead(x.queue);
    SubsetSize(Started(x).begun - done, x.begun - done + {x.queue[0]});
  }

  lemma StepPool<T>(g: Group<T>, s: State<T>, x: Step, r: nat)
    requires Sized(g, s) && Enabled(g, s, x) && Sized(g, Next(g, s, x)) && r < g.m && PoolOk(g, s, r)
    ensures PoolOk(g, Next(g, s, x), r)
  {
    if x == Start(r) {
      DoneGrows(g, s, x, r);
      StartQueue(s.pools[r], |g.plans|, Done(g, s, r));
    } else {
      DoneGrows(g, s, x, r);
      SubsetSize(Active(g, Next(g, s, x), r), Active(g, s, r));
    }
  }

  lemma FreshStays<T>(p: AR.Plan<T>, s: AR.Sys<T>, a: AR.Action, r: nat)
    requires p.Shape() && |s.ranks| == p.n && AR.Enabled(p, s, a) && r < p.n && ARP.Fresh(p, r, s.ranks[r])
    requires a.v == r ==> a.Handle?
    ensures ARP.Fresh(p, r, AR.Apply(p, s, a).ranks[r])
  {
  }

  lemma StepCall<T>(g: Group<T>, s: State<T>, x: Step, t: nat)
    requires Sized(g, s) && Enabled(g, s, x) && Sized(g, Next(g, s, x)) && t < |g.plans| && CallOk(g, s, t)
    ensures CallOk(g, Next(g, s, x), t)
  {
    var s' := Next(g, s, x);
    if x.Act? && x.t == t {
      AR.StepControl(g.plans[t], s.calls[t], x.a);
      forall r: nat | r < g.m && t !in s'.pools[r].begun ensures ARP.Fresh(g.plans[t], r, s'.calls[t].ranks[r]) {
        FreshStays(g.plans[t], s.calls[t], x.a, r);
      }
    } else {
      assert s'.calls[t] == s.calls[t];
    }
  }

  // How one shared stream changes.

  lemma PushStream<T>(s: State<T>, s': State<T>, u: nat, v: nat, t: nat, m: AR.Msg<T>)
    requires StreamOk(s, u, v) && t < |s.calls| == |s'.calls| && s'.Stream(u, v) == s.Stream(u, v) + [t]
    requires forall h: nat :: h < |s.calls| ==>
               s'.calls[h].Wire(u, v) == s.calls[h].Wire(u, v) + if h == t then [m] else []
    ensures StreamOk(s', u, v)
  {
  }

  lemma PopStream<T>(s: State<T>, s': State<T>, u: nat, v: nat)
    requires StreamOk(s, u, v) && |s.calls| == |s'.calls|
    requires s.Stream(u, v) != [] && s'.Stream(u, v) == s.Stream(u, v)[1..]
    requires forall h: nat :: h < |s.calls| ==>
               if h == s.Stream(u, v)[0]
               then s.calls[h].Wire(u, v) != [] && s'.calls[h].Wire(u, v) == s.calls[h].Wire(u, v)[1..]
               else s'.calls[h].Wire(u, v) == s.calls[h].Wire(u, v)
    ensures StreamOk(s', u, v)
  {
    var q := s.Stream(u, v);
    assert q == [q[0]] + q[1..];
    forall t: nat | t < |s.calls| ensures multiset(q[1..])[t] == |s'.calls[t].Wire(u, v)| {
      assert multiset(q)[t] == |s.calls[t].Wire(u, v)|;
    }
  }

  lemma SameStream<T>(s: State<T>, s': State<T>, u: nat, v: nat)
    requires StreamOk(s, u, v) && |s.calls| == |s'.calls| && s'.Stream(u, v) == s.Stream(u, v)
    requires forall h: nat :: h < |s.calls| ==> s'.calls[h].Wire(u, v) == s.calls[h].Wire(u, v)
    ensures StreamOk(s', u, v)
  {
  }

  lemma SendStream<T>(g: Group<T>, s: State<T>, t: nat, a: AR.Action)
    requires Sized(g, s) && Enabled(g, s, Act(t, a)) && (a.SendReduce? || a.SendBcast?) && StreamOk(s, a.v, a.peer)
    ensures StreamOk(Next(g, s, Act(t, a)), a.v, a.peer)
  {
    var s' := Next(g, s, Act(t, a));
    var c, c' := s.calls[t].Wire(a.v, a.peer), s'.calls[t].Wire(a.v, a.peer);
    assert c' == c + [c'[|c|]];
    PushStream(s, s', a.v, a.peer, t, c'[|c|]);
  }

  lemma HandleStream<T>(g: Group<T>, s: State<T>, t: nat, a: AR.Action)
    requires Sized(g, s) && Enabled(g, s, Act(t, a)) && a.Handle? && StreamOk(s, a.peer, a.v)
    ensures StreamOk(Next(g, s, Act(t, a)), a.peer, a.v)
  {
    PopStream(s, Next(g, s, Act(t, a)), a.peer, a.v);
  }

  lemma StepStream<T>(g: Group<T>, s: State<T>, x: Step, u: nat, v: nat)
    requires Sized(g, s) && Enabled(g, s, x) && StreamOk(s, u, v)
    ensures StreamOk(Next(g, s, x), u, v)
  {
    if x.Act? && (x.a.SendReduce? || x.a.SendBcast?) && (u, v) == (x.a.v, x.a.peer) {
      SendStream(g, s, x.t, x.a);
    } else if x.Act? && x.a.Handle? && (u, v) == (x.a.peer, x.a.v) {
      HandleStream(g, s, x.t, x.a);
    } else {
      SameStream(s, Next(g, s, x), u, v);
    }
  }

  lemma StepInv<T>(g: Group<T>, s: State<T>, x: Step)
    requires Inv(g, s) && Enabled(g, s, x)
    ensures Inv(g, Next(g, s, x))
  {
    var s' := Next(g, s, x);
    StepSized(g, s, x);
    forall r: nat | r < g.m ensures PoolOk(g, s', r) { StepPool(g, s, x, r); }
    forall t: nat | t < |g.plans| ensures CallOk(g, s', t) { StepCall(g, s, x, t); }
    forall u: nat, v: nat ensures StreamOk(s', u, v) { StepStream(g, s, x, u, v); }
  }

  lemma InitPool<T>(g: Group<T>, orders: seq<seq<nat>>, s: State<T>, r: nat)
    requires Init(g, orders, s) && r < g.m
    ensures PoolOk(g, s, r)
  {
    assert IsOrder(orders[r], |g.plans|);
    OrderNamesAll(orders[r], |g.plans|);
    assert Active(g, s, r) == {};
  }

  lemma InitCall<T>(g: Group<T>, orders: seq<seq<nat>>, s: State<T>, t: nat)
    requires Init(g, orders, s) && t < |g.plans|
    ensures CallOk(g, s, t)
  {
    var p := g.plans[t];
    assert g.Fits(p) && AR.Init(p, s.calls[t]);
    AR.InitControl(p, s.calls[t]);
    forall r: nat | r < g.m ensures ARP.Fresh(p, r, s.calls[t].ranks[r]) {
      assert s.calls[t].ranks[r] == AR.StartRank(p, r, 0, s.calls[t].ranks[r].recv, []);
    }
  }

  lemma InitInv<T>(g: Group<T>, orders: seq<seq<nat>>, s: State<T>)
    requires Init(g, orders, s)
    ensures Inv(g, s)
  {
    forall r: nat | r < g.m ensures PoolOk(g, s, r) { InitPool(g, orders, s, r); }
    forall t: nat | t < |g.plans| ensures CallOk(g, s, t) { InitCall(g, orders, s, t); }
    forall u: nat, v: nat ensures StreamOk(s, u, v) {
      forall t: nat | t < |s.calls| ensures s.calls[t].Wire(u, v) == [] {
        assert g.Fits(g.plans[t]) && AR.Init(g.plans[t], s.calls[t]);
      }
    }
  }

  lemma OrderNamesAll(o: seq<nat>, n: nat)
    requires IsOrder(o, n)
    ensures Elems(o) == Ranks(n)
  {
    TakenSize(o, n, n);
    RanksSize(n);
    SubsetOfSameSize(Taken(o, n), Ranks(n));
    forall t ensures t in Elems(o) <==> t in Taken(o, n) {}
  }

  ghost function Taken(o: seq<nat>, k: nat): set<nat>
    requires k <= |o|
  {
    set i | 0 <= i < k :: o[i]
  }

  lemma {:induction false} TakenSize(o: seq<nat>, n: nat, k: nat)
    requires IsOrder(o, n) && k <= n
    ensures |Taken(o, k)| == k && Taken(o, k) <= Ranks(n)
  {
    if k > 0 {
      TakenSize(o, n, k - 1);
      assert Taken(o, k) == Taken(o, k - 1) + {o[k - 1]};
    }
  }

  lemma SubsetOfSameSize(a: set<nat>, b: set<nat>)
    requires a <= b && |a| >= |b|
    ensures a == b
  {
    assert |b - a| == |b| - |a|;
  }

  lemma {:induction false} RunInv<T>(g: Group<T>, orders: seq<seq<nat>>, tr: seq<State<T>>, xs: seq<Step>, i: nat)
    requires Run(g, orders, tr, xs) && i < |tr|
    ensures Inv(g, tr[i])
    decreases i
  {
    if i == 0 {
      InitInv(g, orders, tr[0]);
    } else {
      var j := i - 1;
      RunInv(g, orders, tr, xs, j);
      assert Stepped(g, tr[j], tr[j + 1], xs[j]);
      StepInv(g, tr[j], xs[j]);
    }
  }

  // ---------------------------------------------------------------- the pigeonhole bound

  function Common(sets: seq<set<nat>>): set<nat>
    requires sets != []
  {
    if |sets| == 1 then sets[0] else Common(sets[..|sets| - 1]) * sets[|sets| - 1]
  }

  function Total(sets: seq<set<nat>>): nat {
    if sets == [] then 0 else Total(sets[..|sets| - 1]) + |sets[|sets| - 1]|
  }

  lemma {:induction false} CommonSize(sets: seq<set<nat>>, u: set<nat>)
    requires sets != [] && forall i :: 0 <= i < |sets| ==> sets[i] <= u
    ensures |Common(sets)| >= Total(sets) - (|sets| - 1) * |u| && Common(sets) <= u
  {
    var k := |sets| - 1;
    if k == 0 {
      assert Total(sets[..0]) == 0;
    } else {
      var rest, last := sets[..k], sets[k];
      CommonSize(rest, u);
      SubsetSize(Common(rest) + last, u);
      assert |Common(rest) + last| == |Common(rest)| + |last| - |Common(rest) * last|;
      assert (k - 1) * |u| + |u| == k * |u|;
    }
  }

  lemma {:induction false} CommonIsInAll(sets: seq<set<nat>>, t: nat, i: nat)
    requires sets != [] && t in Common(sets) && i < |sets|
    ensures t in sets[i]
  {
    if i < |sets| - 1 { CommonIsInAll(sets[..|sets| - 1], t, i); }
  }

  lemma {:induction false} TotalAtLeast(sets: seq<set<nat>>, each: nat)
    requires forall i :: 0 <= i < |sets| ==> |sets[i]| >= each
    ensures Total(sets) >= |sets| * each
  {
    if sets != [] {
      TotalAtLeast(sets[..|sets| - 1], each);
      assert |sets| * each == (|sets| - 1) * each + each;
    }
  }

  /** Sets filling more than an (m-1)/m part of `u` on average share a member. */
  lemma SharedMember(sets: seq<set<nat>>, u: set<nat>, each: nat) returns (t: nat)
    requires sets != [] && forall i :: 0 <= i < |sets| ==> sets[i] <= u && |sets[i]| >= each
    requires |sets| * each > (|sets| - 1) * |u|
    ensures forall i :: 0 <= i < |sets| ==> t in sets[i]
  {
    CommonSize(sets, u);
    TotalAtLeast(sets, each);
    assert Common(sets) != {} by { assert |Common(sets)| > 0; }
    t :| t in Common(sets);
    forall i: nat | i < |sets| ensures t in sets[i] { CommonIsInAll(sets, t, i); }
  }

  // ---------------------------------------------------------------- progress
  /** The tensor at the head of a shared stream can move. */
  lemma StreamMoves<T>(g: Group<T>, s: State<T>, u: nat, v: nat) returns (x: Step)
    requires Inv(g, s) && u < g.m && v < g.m && s.Stream(u, v) != []
    ensures Enabled(g, s, x)
  {
    var t := s.Stream(u, v)[0];
    assert StreamOk(s, u, v) && t < |g.plans| && CallOk(g, s, t);
    assert multiset(s.Stream(u, v))[t] > 0;
    var a := ARP.ArrivalMoves(g.plans[t], s.calls[t], u, v);
    if !a.Handle? && t !in s.pools[v].begun {
      ARP.FreshHasNotReduced(g.plans[t], v, s.calls[t].ranks[v]);
    }
    return Act(t, a);
  }

  /** Every rank has taken the tensor, and it has not returned at rank `v`. */
  ghost predicate UnderWay<T>(g: Group<T>, s: State<T>, t: nat, v: nat)
    requires Sized(g, s)
  {
    && t < |g.plans| && v < g.m && t !in Done(g, s, v)
    && forall r: nat :: r < g.m ==> t in s.pools[r].begun
  }

  lemma CallMoves<T>(g: Group<T>, s: State<T>, t: nat, v: nat) returns (x: Step)
    requires Inv(g, s) && UnderWay(g, s, t, v)
    ensures Enabled(g, s, x)
  {
    assert CallOk(g, s, t);
    var a := ARP.Unblock(g.plans[t], s.calls[t], v);
    if a.Handle? {
      assert StreamOk(s, a.peer, a.v);
      x := StreamMoves(g, s, a.peer, a.v);
    } else {
      x := Act(t, a);
    }
  }

  /** A tensor returns somewhere only after every rank has taken it. */
  lemma DoneMeansBegun<T>(g: Group<T>, s: State<T>, t: nat, r: nat, q: nat)
    requires Inv(g, s) && r < g.m && q < g.m && t in Done(g, s, r)
    ensures t in s.pools[q].begun
  {
    assert CallOk(g, s, t);
    var p := g.plans[t];
    if t !in s.pools[q].begun && q != r {
      ARP.FreshHasNotReduced(p, q, s.calls[t].ranks[q]);
      AR.GotAfterReduced(p, s.calls[t], q, r);
    }
  }

  /** Where nothing can move, the same tensors have returned at all ranks. */
  lemma SameDone<T>(g: Group<T>, s: State<T>, r: nat, q: nat)
    requires Inv(g, s) && r < g.m && q < g.m && forall x :: !Enabled(g, s, x)
    ensures Done(g, s, r) <= Done(g, s, q)
  {
    forall t | t in Done(g, s, r) ensures t in Done(g, s, q) {
      forall v: nat | v < g.m ensures t in s.pools[v].begun { DoneMeansBegun(g, s, t, r, v); }
      if t !in Done(g, s, q) {
        assert UnderWay(g, s, t, q);
        var x := CallMoves(g, s, t, q);
      }
    }
  }

  /** More than an (m-1)/m part of `n` workers. */
  ghost predicate Ample(m: nat, n: nat, w: nat) { m * w > (m - 1) * n }

  function Fewer(a: nat, b: nat): nat { if a < b then a else b }

  lemma Bound(m: nat, n: nat, w: nat, u: nat)
    requires m >= 1 && 0 < u <= n && Ample(m, n, w)
    ensures m * Fewer(w, u) > (m - 1) * u
  {
    MulMono(u, n, m - 1);
    assert m * u == (m - 1) * u + u;
  }

  lemma PoolPigeonhole(act: seq<set<nat>>, u: set<nat>, n: nat, w: nat) returns (t: nat)
    requires act != [] && 0 < |u| <= n && Ample(|act|, n, w)
    requires forall r :: 0 <= r < |act| ==> act[r] <= u && |act[r]| >= Fewer(w, |u|)
    ensures forall r :: 0 <= r < |act| ==> t in act[r]
  {
    Bound(|act|, n, w, |u|);
    t := SharedMember(act, u, Fewer(w, |u|));
  }

  /** With an empty queue, a rank has all the unfinished tensors. */
  lemma NoneQueued<T>(g: Group<T>, s: State<T>, r: nat)
    requires Sized(g, s) && r < g.m && PoolOk(g, s, r) && s.pools[r].queue == []
    ensures Active(g, s, r) == Ranks(|g.plans|) - Done(g, s, r)
  {
  }

  /** Where no task can be taken, a rank has all the unfinished tensors or all its workers busy. */
  lemma BusyOrAll<T>(g: Group<T>, s: State<T>, r: nat)
    requires Sized(g, s) && r < g.m && PoolOk(g, s, r) && !Enabled(g, s, Start(r))
    ensures var u := Ranks(|g.plans|) - Done(g, s, r);
            Active(g, s, r) <= u && |Active(g, s, r)| >= Fewer(g.w, |u|)
  {
    if s.pools[r].queue == [] { NoneQueued(g, s, r); }
  }

  lemma Unfinished(n: nat, d: set<nat>)
    requires d <= Ranks(n) && d != Ranks(n)
    ensures 0 < |Ranks(n) - d| <= n
  {
    assert Ranks(n) - d != {};
    SubsetSize(Ranks(n) - d, Ranks(n));
    RanksSize(n);
  }

  /** Where nothing can move, every rank has returned from the tensors `d`. */
  lemma ActiveSets<T>(g: Group<T>, s: State<T>, r: nat, d: set<nat>)
    requires Inv(g, s) && r < g.m && d == Done(g, s, 0) && forall x :: !Enabled(g, s, x)
    ensures Done(g, s, r) == d <= Ranks(|g.plans|)
    ensures Active(g, s, r) <= Ranks(|g.plans|) - d && |Active(g, s, r)| >= Fewer(g.w, |Ranks(|g.plans|) - d|)
  {
    SameDone(g, s, r, 0);
    SameDone(g, s, 0, r);
    assert PoolOk(g, s, r) && !Enabled(g, s, Start(r));
    BusyOrAll(g, s, r);
  }

  lemma ActiveEverywhere<T>(g: Group<T>, s: State<T>) returns (t: nat)
    requires Inv(g, s) && !AllDone(g, s) && Ample(g.m, |g.plans|, g.w) && forall x :: !Enabled(g, s, x)
    ensures forall r: nat :: r < g.m ==> t in Active(g, s, r)
  {
    var d := Done(g, s, 0);
    forall r: nat | r < g.m
      ensures Done(g, s, r) == d <= Ranks(|g.plans|)
      ensures Active(g, s, r) <= Ranks(|g.plans|) - d && |Active(g, s, r)| >= Fewer(g.w, |Ranks(|g.plans|) - d|)
    {
      ActiveSets(g, s, r, d);
    }
    t := CommonActive(g, s, d);
  }

  lemma CommonActive<T>(g: Group<T>, s: State<T>, d: set<nat>) returns (t: nat)
    requires Sized(g, s) && d <= Ranks(|g.plans|) && d != Ranks(|g.plans|) && Ample(g.m, |g.plans|, g.w)
    requires forall r: nat :: r < g.m ==>
               Active(g, s, r) <= Ranks(|g.plans|) - d && |Active(g, s, r)| >= Fewer(g.w, |Ranks(|g.plans|) - d|)
    ensures forall r: nat :: r < g.m ==> t in Active(g, s, r)
  {
    var act := seq(g.m, r requires 0 <= r < g.m => Active(g, s, r));
    Unfinished(|g.plans|, d);
    t := PoolPigeonhole(act, Ranks(|g.plans|) - d, |g.plans|, g.w);
    forall r: nat | r < g.m ensures t in Active(g, s, r) { assert t in act[r]; }
  }

  lemma ActiveIsUnderWay<T>(g: Group<T>, s: State<T>, t: nat)
    requires Inv(g, s) && forall r: nat :: r < g.m ==> t in Active(g, s, r)
    ensures UnderWay(g, s, t, 0)
  {
    assert t in Active(g, s, 0) && PoolOk(g, s, 0);
    assert t in Ranks(|g.plans|);
    forall r: nat | r < g.m ensures t in s.pools[r].begun { assert t in Active(g, s, r); }
  }

  lemma SomethingMoves<T>(g: Group<T>, s: State<T>)
    requires Inv(g, s) && Ample(g.m, |g.plans|, g.w) && !AllDone(g, s)
    ensures exists x :: Enabled(g, s, x)
  {
    if forall x :: !Enabled(g, s, x) {
      var t := ActiveEverywhere(g, s);
      ActiveIsUnderWay(g, s, t);
      var x := CallMoves(g, s, t, 0);
    }
  }

  /** With more than (m-1)/m of the tensors' number of workers, where nothing else could move
      some unfinished tensor would be active at every rank, and that one can. */
  lemma Progress<T>(g: Group<T>, s: State<T>)
    requires Inv(g, s) && Ample(g.m, |g.plans|, g.w)
    ensures !Stuck(g, s)
  {
    if !AllDone(g, s) { SomethingMoves(g, s); }
  }

  /** For any submission orders, chunks and tree pairs: no run of a large enough pool gets stuck. */
  lemma NeverStuck<T>(g: Group<T>, orders: seq<seq<nat>>, tr: seq<State<T>>, xs: seq<Step>)
    requires Run(g, orders, tr, xs) && Ample(g.m, |g.plans|, g.w)
    ensures Sized(g, tr[|xs|]) && !Stuck(g, tr[|xs|])
  {
    RunInv(g, orders, tr, xs, |xs|);
    Progress(g, tr[|xs|]);
  }
}
