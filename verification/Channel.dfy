/** The bounded channel: one mutex, one condition variable shared by getters and putters.

    A thread inside a call is `Awake` when it may take the mutex and test its predicate,
    and `Asleep` when it waits on the condition variable. Each action below is one
    critical section; waiting releases the mutex and falls asleep in one step. */
module Channel {
  import opened Basics

  datatype Op<T> = Get | Put(x: T)

  datatype Thread<T> = Idle | Awake(op: Op<T>) | Asleep(op: Op<T>)

  /** `ins` and `outs` record everything ever put and got. */
  datatype State<T> = State(threads: seq<Thread<T>>, buffer: seq<T>, ins: seq<T>, outs: seq<T>)

  /** `notified` names the sleeper that `notify_one` picks, when there is one. */
  datatype Action<T> =
    | Call(t: nat, op: Op<T>)
    | RunGet(t: nat, notified: nat)
    | TryGet(t: nat, notified: nat)
    | RunPut(t: nat)
    | Spurious(t: nat)

  predicate SomeoneSleeps<T>(ts: seq<Thread<T>>) {
    exists i :: 0 <= i < |ts| && ts[i].Asleep?
  }

  function WakeThread<T>(t: Thread<T>): Thread<T> { if t.Asleep? then Awake(t.op) else t }

  function WakeAll<T>(ts: seq<Thread<T>>): seq<Thread<T>> {
    seq(|ts|, i requires 0 <= i < |ts| => WakeThread(ts[i]))
  }

  /** `notify_one` may pick any sleeper and is lost only when there is none. */
  predicate Notifies<T>(ts: seq<Thread<T>>, i: nat) {
    SomeoneSleeps(ts) ==> i < |ts| && ts[i].Asleep?
  }

  function WakeOne<T>(ts: seq<Thread<T>>, i: nat): seq<Thread<T>> {
    if i < |ts| then ts[i := WakeThread(ts[i])] else ts
  }

  predicate Enabled<T>(s: State<T>, a: Action<T>) {
    a.t < |s.threads| &&
    var th := s.threads[a.t];
    match a
    case Call(_, _) => th.Idle?
    case RunGet(_, i) => th == Awake(Get) && (s.buffer != [] ==> Notifies(s.threads, i))
    case TryGet(_, i) => th.Idle? && (s.buffer != [] ==> Notifies(s.threads, i))
    case RunPut(_) => th.Awake? && th.op.Put?
    case Spurious(_) => th.Asleep?
  }

  function Pop<T>(s: State<T>, t: nat, i: nat): State<T>
    requires t < |s.threads| && s.buffer != []
  {
    State(WakeOne(s.threads[t := Idle], i), s.buffer[1..], s.ins, s.outs + [s.buffer[0]])
  }

  function Apply<T>(cap: nat, s: State<T>, a: Action<T>): State<T>
    requires Enabled(s, a)
  {
    var th := s.threads[a.t];
    match a
    case Call(t, op) => s.(threads := s.threads[t := Awake(op)])
    case RunGet(t, i) => if s.buffer == [] then s.(threads := s.threads[t := Asleep(Get)]) else Pop(s, t, i)
    case TryGet(t, i) => if s.buffer == [] then s else Pop(s, t, i)
    case RunPut(t) =>
      if |s.buffer| < cap
      then State(WakeAll(s.threads[t := Idle]), s.buffer + [th.op.x], s.ins + [th.op.x], s.outs)
      else s.(threads := s.threads[t := Asleep(th.op)])
    case Spurious(t) => s.(threads := s.threads[t := Awake(th.op)])
  }

  ghost predicate Run<T>(cap: nat, tr: seq<State<T>>, acts: seq<Action<T>>) {
    && |tr| == |acts| + 1
    && tr[0].buffer == [] == tr[0].ins == tr[0].outs
    && (forall i :: 0 <= i < |tr[0].threads| ==> tr[0].threads[i].Idle?)
    && forall i :: 0 <= i < |acts| ==> Enabled(tr[i], acts[i]) && tr[i + 1] == Apply(cap, tr[i], acts[i])
  }

  // ---------------------------------------------------------------- invariant

  predicate IsAwakePut<T>(t: Thread<T>) { t.Awake? && t.op.Put? }
  predicate IsAsleepGet<T>(t: Thread<T>) { t.Asleep? && t.op.Get? }
  predicate IsAsleepPut<T>(t: Thread<T>) { t.Asleep? && t.op.Put? }

  /** Putters that will test their predicate again without any further notification. */
  function AwakePuts<T>(ts: seq<Thread<T>>): nat {
    if ts == [] then 0 else AwakePuts(ts[..|ts| - 1]) + One(IsAwakePut(ts[|ts| - 1]))
  }

  lemma {:induction false} AwakePutsUpdate<T>(ts: seq<Thread<T>>, t: nat, th: Thread<T>)
    requires t < |ts|
    ensures AwakePuts(ts[t := th]) == AwakePuts(ts) - One(IsAwakePut(ts[t])) + One(IsAwakePut(th))
  {
    var k := |ts| - 1;
    if t < k {
      assert ts[t := th][..k] == ts[..k][t := th];
      AwakePutsUpdate(ts[..k], t, th);
    } else {
      assert ts[t := th][..k] == ts[..k];
    }
  }

  ghost predicate NoneAsleep<T>(ts: seq<Thread<T>>, put: bool) {
    forall i :: 0 <= i < |ts| ==> !(if put then IsAsleepPut(ts[i]) else IsAsleepGet(ts[i]))
  }

  /** A nonempty buffer leaves no getter asleep; a putter sleeps only behind a full buffer
      or behind enough awake putters to fill every free slot. */
  ghost predicate Inv<T>(cap: nat, s: State<T>) {
    && |s.buffer| <= cap
    && s.ins == s.outs + s.buffer
    && (s.buffer != [] ==> NoneAsleep(s.threads, false))
    && (!NoneAsleep(s.threads, true) ==> AwakePuts(s.threads) + |s.buffer| >= cap)
  }

  /** `get` wakes one sleeper without knowing its side; it is always a putter. */
  lemma PopKeeps<T>(cap: nat, s: State<T>, t: nat, i: nat)
    requires Inv(cap, s) && t < |s.threads| && s.buffer != [] && Notifies(s.threads, i)
    requires s.threads[t].Idle? || s.threads[t] == Awake(Get)
    ensures Inv(cap, Pop(s, t, i))
  {
    var s' := Pop(s, t, i);
    assert s'.ins == s'.outs + s'.buffer;
    if !NoneAsleep(s'.threads, true) { PopWakes(s, t, i); }
  }

  /** While a putter stays asleep, the one that was woken is a putter. */
  lemma PopWakes<T>(s: State<T>, t: nat, i: nat)
    requires t < |s.threads| && s.buffer != [] && Notifies(s.threads, i) && NoneAsleep(s.threads, false)
    requires s.threads[t].Idle? || s.threads[t] == Awake(Get)
    requires !NoneAsleep(Pop(s, t, i).threads, true)
    ensures !NoneAsleep(s.threads, true) && AwakePuts(Pop(s, t, i).threads) == AwakePuts(s.threads) + 1
  {
    var mid := s.threads[t := Idle];
    AwakePutsUpdate(s.threads, t, Idle);
    var j :| 0 <= j < |mid| && IsAsleepPut(Pop(s, t, i).threads[j]);
    assert IsAsleepPut(s.threads[j]);
    assert SomeoneSleeps(s.threads);
    assert IsAsleepPut(s.threads[i]) && mid[i] == s.threads[i];
    AwakePutsUpdate(mid, i, WakeThread(mid[i]));
  }

  lemma StepInv<T>(cap: nat, s: State<T>, a: Action<T>)
    requires Inv(cap, s) && Enabled(s, a)
    ensures Inv(cap, Apply(cap, s, a))
  {
    var th := s.threads[a.t];
    var s' := Apply(cap, s, a);
    match a {
      case RunGet(t, i) =>
        if s.buffer == [] {
          AwakePutsUpdate(s.threads, t, Asleep(Get));
          SameSleepers(s.threads, t, Asleep(Get));
        } else {
          PopKeeps(cap, s, t, i);
        }
      case TryGet(t, i) => if s.buffer != [] { PopKeeps(cap, s, t, i); }
      case RunPut(t) => if |s.buffer| >= cap { AwakePutsUpdate(s.threads, t, Asleep(th.op)); }
      case Call(t, op) =>
        AwakePutsUpdate(s.threads, t, Awake(op));
        SameSleepers(s.threads, t, Awake(op));
      case Spurious(t) =>
        AwakePutsUpdate(s.threads, t, Awake(th.op));
        SameSleepers(s.threads, t, Awake(th.op));
    }
  }

  lemma SameSleepers<T>(ts: seq<Thread<T>>, t: nat, th: Thread<T>)
    requires t < |ts| && !IsAsleepPut(th)
    ensures NoneAsleep(ts, true) ==> NoneAsleep(ts[t := th], true)
  {
  }

  lemma {:induction false} RunInv<T>(cap: nat, tr: seq<State<T>>, acts: seq<Action<T>>, i: nat)
    requires Run(cap, tr, acts) && i < |tr|
    ensures Inv(cap, tr[i])
  {
    if i > 0 {
      var j := i - 1;
      RunInv(cap, tr, acts, j);
      StepInv(cap, tr[j], acts[j]);
    }
  }

  /** No lost wakeup, for any number of getters and putters and any positive capacity: a
      thread asleep although it could proceed has an awake thread of its own side about to
      run; so when nobody is awake, sleeping getters face an empty buffer, sleeping putters
      a full one, and the two are never asleep together. */
  lemma NoLostWakeup<T>(cap: nat, tr: seq<State<T>>, acts: seq<Action<T>>, i: nat, t: nat)
    requires cap >= 1 && Run(cap, tr, acts) && i < |tr| && t < |tr[i].threads| && tr[i].threads[t].Asleep?
    ensures tr[i].threads[t].op.Get? ==> tr[i].buffer == []
    ensures tr[i].threads[t].op.Put? && |tr[i].buffer| < cap ==>
              exists u :: 0 <= u < |tr[i].threads| && IsAwakePut(tr[i].threads[u])
    ensures (forall u :: 0 <= u < |tr[i].threads| ==> !tr[i].threads[u].Awake?) ==>
              if tr[i].threads[t].op.Get? then NoneAsleep(tr[i].threads, true) else NoneAsleep(tr[i].threads, false)
  {
    RunInv(cap, tr, acts, i);
    var s := tr[i];
    assert IsAsleepGet(s.threads[t]) || IsAsleepPut(s.threads[t]);
    AwakePutsFound(s.threads);
  }

  lemma {:induction false} AwakePutsFound<T>(ts: seq<Thread<T>>)
    ensures AwakePuts(ts) > 0 ==> exists u :: 0 <= u < |ts| && IsAwakePut(ts[u])
  {
    if ts != [] && AwakePuts(ts) > 0 {
      var k := |ts| - 1;
      if IsAwakePut(ts[k]) {
      } else {
        AwakePutsFound(ts[..k]);
        var u :| 0 <= u < k && IsAwakePut(ts[..k][u]);
        assert IsAwakePut(ts[u]);
      }
    }
  }

  /** Items come out in the order they went in, and none is lost or repeated. */
  lemma FirstInFirstOut<T>(cap: nat, tr: seq<State<T>>, acts: seq<Action<T>>, i: nat)
    requires Run(cap, tr, acts) && i < |tr|
    ensures tr[i].ins == tr[i].outs + tr[i].buffer && |tr[i].buffer| <= cap
  {
    RunInv(cap, tr, acts, i);
  }

  /** A thread that is awake can always run, and ends its call if there is an item for it to get or
      room for what it puts; `try_get` never waits. */
  lemma AwakeMoves<T>(cap: nat, s: State<T>, t: nat) returns (a: Action<T>)
    requires t < |s.threads| && !s.threads[t].Asleep?
    ensures Enabled(s, a) && a.t == t && (s.threads[t].Idle? ==> a.TryGet?) && (s.threads[t].Awake? ==> !a.TryGet?)
    ensures t < |Apply(cap, s, a).threads|
    ensures (s.threads[t].Awake? && if s.threads[t].op.Get? then s.buffer != [] else |s.buffer| < cap) ==>
            Apply(cap, s, a).threads[t].Idle?
  {
    var i: nat := 0;
    if SomeoneSleeps(s.threads) { i :| 0 <= i < |s.threads| && s.threads[i].Asleep?; }
    a := if s.threads[t].Idle? then TryGet(t, i) else if s.threads[t].op.Get? then RunGet(t, i) else RunPut(t);
  }

  // ---------------------------------------------------------------- calls

  /** The last call of thread `t` among the first `i` actions, which it has not finished. */
  lemma {:induction false} UnfinishedCall<T>(cap: nat, tr: seq<State<T>>, acts: seq<Action<T>>, i: nat, t: nat)
    returns (c: nat)
    requires Run(cap, tr, acts) && i < |tr| && t < |tr[i].threads| && !tr[i].threads[t].Idle?
    ensures c < i && acts[c] == Call(t, tr[i].threads[t].op)
    ensures forall k :: c < k <= i ==> |tr[k].threads| == |tr[i].threads| && !tr[k].threads[t].Idle?
    decreases i
  {
    if i == 0 {
      assert false;
    } else {
      var j := i - 1;
      SameThreads(cap, tr[j], acts[j], t);
      if tr[j].threads[t].Idle? {
        c := j;
      } else {
        c := UnfinishedCall(cap, tr, acts, j, t);
      }
    }
  }

  lemma SameThreads<T>(cap: nat, s: State<T>, a: Action<T>, t: nat)
    requires Enabled(s, a) && t < |Apply(cap, s, a).threads|
    ensures t < |s.threads| == |Apply(cap, s, a).threads|
    ensures s.threads[t].Idle? && !Apply(cap, s, a).threads[t].Idle? ==> a == Call(t, Apply(cap, s, a).threads[t].op)
    ensures !s.threads[t].Idle? && !Apply(cap, s, a).threads[t].Idle? ==>
            Apply(cap, s, a).threads[t].op == s.threads[t].op
  {
  }

  /** The action ends the call of thread `t`. */
  ghost predicate Ends<T>(tr: seq<State<T>>, acts: seq<Action<T>>, i: nat, t: nat)
    requires i < |acts| && |tr| == |acts| + 1
  {
    t < |tr[i].threads| == |tr[i + 1].threads| && !tr[i].threads[t].Idle? && tr[i + 1].threads[t].Idle?
  }

  /** A put that ends has put its own item, behind all others, and a get that ends has taken the
      oldest item not yet taken: each exactly once, and nothing else changes what went in or out
      but `try_get`, which takes the oldest item if there is one. */
  lemma CallsMoveItems<T>(cap: nat, tr: seq<State<T>>, acts: seq<Action<T>>, i: nat, t: nat)
    requires Run(cap, tr, acts) && i < |acts| && t == acts[i].t
    ensures Ends(tr, acts, i, t) && tr[i].threads[t].op.Put? ==>
            tr[i + 1].ins == tr[i].ins + [tr[i].threads[t].op.x] && tr[i + 1].outs == tr[i].outs
    ensures (Ends(tr, acts, i, t) && tr[i].threads[t].op.Get?) || (acts[i].TryGet? && tr[i].outs != tr[i].ins) ==>
            |tr[i].outs| < |tr[i].ins| && tr[i + 1].outs == tr[i].outs + [tr[i].ins[|tr[i].outs|]]
            && tr[i + 1].ins == tr[i].ins
    ensures !Ends(tr, acts, i, t) && (acts[i].TryGet? ==> tr[i].outs == tr[i].ins) ==>
            tr[i + 1].ins == tr[i].ins && tr[i + 1].outs == tr[i].outs
    ensures forall u :: 0 <= u < |tr[i].threads| && Ends(tr, acts, i, u) ==> u == t
  {
    FirstInFirstOut(cap, tr, acts, i);
    FirstInFirstOut(cap, tr, acts, i + 1);
  }

  /** The threads waiting on the condition variable. */
  ghost function Sleepers<T>(ts: seq<Thread<T>>): set<nat> {
    set t: nat | t < |ts| && ts[t].Asleep?
  }

  /** Every item put wakes all sleepers; every item taken wakes exactly one, if there is one. */
  lemma WhoIsWoken<T>(cap: nat, tr: seq<State<T>>, acts: seq<Action<T>>, i: nat)
    requires Run(cap, tr, acts) && i < |acts|
    ensures tr[i + 1].ins != tr[i].ins ==> Sleepers(tr[i + 1].threads) == {}
    ensures tr[i + 1].outs != tr[i].outs && Sleepers(tr[i].threads) != {} ==>
            exists u :: u in Sleepers(tr[i].threads) && Sleepers(tr[i + 1].threads) == Sleepers(tr[i].threads) - {u}
    ensures tr[i + 1].outs != tr[i].outs && Sleepers(tr[i].threads) == {} ==> Sleepers(tr[i + 1].threads) == {}
  {
    var s, s', a := tr[i], tr[i + 1], acts[i];
    if s'.outs != s.outs {
      assert s' == Pop(s, a.t, a.notified);
      if Sleepers(s.threads) != {} {
        assert SomeoneSleeps(s.threads) by { var u :| u in Sleepers(s.threads); }
        assert a.notified in Sleepers(s.threads);
        assert Sleepers(s'.threads) == Sleepers(s.threads) - {a.notified};
      } else {
        forall u | 0 <= u < |s.threads| ensures !s'.threads[u].Asleep? {
          assert u !in Sleepers(s.threads);
        }
      }
    }
  }

  /** Any items can be handed over, one after the other, by a thread that puts to one that gets. */
  lemma {:induction false} HandsOver<T>(cap: nat, xs: seq<T>) returns (tr: seq<State<T>>, acts: seq<Action<T>>)
    requires cap >= 1
    ensures Run(cap, tr, acts) && tr[|acts|] == State([Idle, Idle], [], xs, xs)
    decreases |xs|
  {
    if xs == [] {
      tr, acts := [State([Idle, Idle], [], [], [])], [];
    } else {
      var k := |xs| - 1;
      tr, acts := HandsOver(cap, xs[..k]);
      var a1, a2, a3, a4 := Call(0, Put(xs[k])), RunPut(0), Call(1, Get), RunGet(1, 0);
      var s0 := tr[|acts|];
      assert xs == xs[..k] + [xs[k]];
      var s1 := Apply(cap, s0, a1);
      var s2 := Apply(cap, s1, a2);
      assert s2.threads == [Idle, Idle];
      var s3 := Apply(cap, s2, a3);
      var s4 := Apply(cap, s3, a4);
      assert s4.threads == [Idle, Idle];
      tr, acts := tr + [s1, s2, s3, s4], acts + [a1, a2, a3, a4];
    }
  }
}
