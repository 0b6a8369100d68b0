/** `queue_pair`: a getter hands out the pointer of its buffer, a putter takes it, writes
    the next message body through it and hands it back, over any number of rounds. One
    getter and one putter share the pair; both channels have capacity one. */
module Rendezvous {

  datatype Putter = Free | Holding(p: nat) | Wrote(p: nat)

  /** `asked`: the getter has put its pointer and waits for it to come back. `seen` records
      what its buffer held when each round's `get` returned. */
  datatype State<T> = State(
    round: nat, asked: bool,
    waitQ: seq<nat>, recvQ: seq<nat>,
    putter: Putter, written: nat,
    memory: map<nat, T>, seen: seq<T>)

  datatype Action = Ask | Take | Write | GiveBack | Return

  /** The getter's buffer in each round, and the bodies in arrival order. */
  datatype Plan<T> = Plan(buffers: seq<nat>, bodies: seq<T>)

  predicate Enabled<T>(plan: Plan<T>, s: State<T>, a: Action) {
    match a
    case Ask => !s.asked && s.round < |plan.buffers| && |s.waitQ| < 1
    case Take => s.putter.Free? && s.written < |plan.bodies| && s.waitQ != []
    case Write => s.putter.Holding? && s.written < |plan.bodies|
    case GiveBack => s.putter.Wrote? && |s.recvQ| < 1
    case Return => s.asked && s.recvQ != [] && s.round < |plan.buffers| && plan.buffers[s.round] in s.memory
  }

  function Apply<T>(plan: Plan<T>, s: State<T>, a: Action): State<T>
    requires Enabled(plan, s, a)
  {
    match a
    case Ask => s.(asked := true, waitQ := s.waitQ + [plan.buffers[s.round]])
    case Take => s.(putter := Holding(s.waitQ[0]), waitQ := s.waitQ[1..])
    case Write =>
      s.(putter := Wrote(s.putter.p), memory := s.memory[s.putter.p := plan.bodies[s.written]],
          written := s.written + 1)
    case GiveBack => s.(recvQ := s.recvQ + [s.putter.p], putter := Free)
    case Return =>
      s.(asked := false, recvQ := s.recvQ[1..], round := s.round + 1,
          seen := s.seen + [s.memory[plan.buffers[s.round]]])
  }

  ghost predicate Run<T>(plan: Plan<T>, tr: seq<State<T>>, acts: seq<Action>) {
    && |tr| == |acts| + 1
    && tr[0] == State(0, false, [], [], Free, 0, tr[0].memory, [])
    && forall i :: 0 <= i < |acts| ==> Enabled(plan, tr[i], acts[i]) && tr[i + 1] == Apply(plan, tr[i], acts[i])
  }

  /** Every pointer in the two queues and in the putter's hand. */
  function Held<T>(s: State<T>): seq<nat> {
    s.waitQ + (match s.putter case Free => [] case Holding(p) => [p] case Wrote(p) => [p]) + s.recvQ
  }

  /** The round's body is in the getter's buffer. */
  predicate Arrived<T>(s: State<T>) { s.putter.Wrote? || s.recvQ != [] }

  ghost predicate Inv<T>(plan: Plan<T>, s: State<T>) {
    && Held(s) == (if s.asked && s.round < |plan.buffers| then [plan.buffers[s.round]] else [])
    && (s.asked ==> s.round < |plan.buffers|)
    && s.written == s.round + (if Arrived(s) then 1 else 0) <= |plan.bodies|
    && (Arrived(s) ==> s.asked && plan.buffers[s.round] in s.memory)
    && (Arrived(s) ==> s.memory[plan.buffers[s.round]] == plan.bodies[s.round])
    && s.seen == plan.bodies[..s.round]
  }

  lemma HeldSize<T>(s: State<T>)
    ensures |Held(s)| == |s.waitQ| + (if s.putter.Free? then 0 else 1) + |s.recvQ|
  {
  }

  lemma StepHeld<T>(plan: Plan<T>, s: State<T>, a: Action)
    requires Inv(plan, s) && Enabled(plan, s, a)
    ensures Held(Apply(plan, s, a)) == if a.Ask? then [plan.buffers[s.round]] else if a.Return? then [] else Held(s)
  {
    HeldSize(s);
    if a.Take? { assert Held(s) == s.waitQ; }
    if a.Write? || a.GiveBack? { assert Held(s) == [s.putter.p]; }
  }

  lemma StepInv<T>(plan: Plan<T>, s: State<T>, a: Action)
    requires Inv(plan, s) && Enabled(plan, s, a)
    ensures Inv(plan, Apply(plan, s, a))
  {
    HeldSize(s);
    StepHeld(plan, s, a);
    if a.Write? { assert Held(s) == [s.putter.p]; }
    if a.Return? { assert plan.bodies[..s.round + 1] == plan.bodies[..s.round] + [plan.bodies[s.round]]; }
  }

  lemma {:induction false} RunInv<T>(plan: Plan<T>, tr: seq<State<T>>, acts: seq<Action>, i: nat)
    requires Run(plan, tr, acts) && i < |tr|
    ensures Inv(plan, tr[i])
  {
    if i > 0 {
      var j := i - 1;
      RunInv(plan, tr, acts, j);
      StepInv(plan, tr[j], acts[j]);
    }
  }

  /** The pair never holds more than the waiting getter's own pointer, so the pointer that
      comes back is the one handed out. */
  lemma OnlyTheGettersPointer<T>(plan: Plan<T>, tr: seq<State<T>>, acts: seq<Action>, i: nat)
    requires Run(plan, tr, acts) && i < |tr|
    ensures |Held(tr[i])| <= 1 && (Held(tr[i]) != [] <==> tr[i].asked)
    ensures tr[i].asked ==> tr[i].round < |plan.buffers| && Held(tr[i]) == [plan.buffers[tr[i].round]]
    ensures i < |acts| && acts[i] == Return ==> tr[i].recvQ[0] == plan.buffers[tr[i].round]
  {
    RunInv(plan, tr, acts, i);
    if i < |acts| && acts[i] == Return {
      assert Enabled(plan, tr[i], Return);
      assert |Held(tr[i])| == |tr[i].waitQ| + (if tr[i].putter.Free? then 0 else 1) + |tr[i].recvQ|;
      assert Held(tr[i]) == tr[i].recvQ;
    }
  }

  /** Each `get` returns only after its own buffer was written, with the next body in order. */
  lemma EachRoundGetsItsBody<T>(plan: Plan<T>, tr: seq<State<T>>, acts: seq<Action>, i: nat)
    requires Run(plan, tr, acts) && i < |tr|
    ensures tr[i].round <= |plan.bodies| && tr[i].seen == plan.bodies[..tr[i].round]
  {
    RunInv(plan, tr, acts, i);
  }

  /** No memory changes but the buffer of a `get` that waits, and that before it returns. */
  lemma OnlyTheBufferIsWritten<T>(plan: Plan<T>, tr: seq<State<T>>, acts: seq<Action>, i: nat, p: nat)
    requires Run(plan, tr, acts) && i < |acts|
    ensures (p in tr[i + 1].memory) != (p in tr[i].memory)
            || (p in tr[i].memory && tr[i + 1].memory[p] != tr[i].memory[p]) ==>
            tr[i].asked && tr[i + 1].asked && tr[i].round < |plan.buffers| && p == plan.buffers[tr[i].round]
  {
    RunInv(plan, tr, acts, i);
    if acts[i].Write? {
      OnlyTheGettersPointer(plan, tr, acts, i);
      assert tr[i].putter.p in Held(tr[i]);
    }
  }

  /** The rendezvous cannot get stuck while there is a further round and a further body. */
  lemma NeverStuck<T>(plan: Plan<T>, tr: seq<State<T>>, acts: seq<Action>, i: nat)
    requires Run(plan, tr, acts) && i < |tr|
    requires tr[i].round < |plan.buffers| && tr[i].round < |plan.bodies|
    ensures exists a :: Enabled(plan, tr[i], a)
  {
    RunInv(plan, tr, acts, i);
    var s := tr[i];
    assert |Held(s)| == |s.waitQ| + (if s.putter.Free? then 0 else 1) + |s.recvQ|;
    if !s.asked {
      assert Enabled(plan, s, Ask);
    } else if s.waitQ != [] {
      assert Enabled(plan, s, Take);
    } else {
      match s.putter {
        case Holding(_) => assert Enabled(plan, s, Write);
        case Wrote(_) => assert Enabled(plan, s, GiveBack);
        case Free => assert Enabled(plan, s, Return);
      }
    }
  }

  /** Nothing is under way. */
  ghost predicate AtRest<T>(s: State<T>, k: nat) {
    s.round == s.written == k && !s.asked && s.waitQ == s.recvQ == [] && s.putter == Free
  }

  lemma OneMoreRound<T>(plan: Plan<T>, tr: seq<State<T>>, acts: seq<Action>, k: nat)
    returns (tr': seq<State<T>>, acts': seq<Action>)
    requires Run(plan, tr, acts) && AtRest(tr[|acts|], k) && k < |plan.buffers| && k < |plan.bodies|
    ensures Run(plan, tr', acts') && AtRest(tr'[|acts'|], k + 1)
  {
    var s0 := tr[|acts|];
    var s1 := Apply(plan, s0, Ask);
    var s2 := Apply(plan, s1, Take);
    var s3 := Apply(plan, s2, Write);
    var s4 := Apply(plan, s3, GiveBack);
    tr', acts' := tr + [s1, s2, s3, s4, Apply(plan, s4, Return)], acts + [Ask, Take, Write, GiveBack, Return];
  }

  /** All rounds can be gone through, in every plan with a body for each of them. */
  lemma {:induction false} CompleteRun<T>(plan: Plan<T>, memory: map<nat, T>, k: nat)
    returns (tr: seq<State<T>>, acts: seq<Action>)
    requires k <= |plan.buffers| && k <= |plan.bodies|
    ensures Run(plan, tr, acts) && AtRest(tr[|acts|], k) && tr[|acts|].seen == plan.bodies[..k]
    decreases k
  {
    if k == 0 {
      tr, acts := [State(0, false, [], [], Free, 0, memory, [])], [];
    } else {
      tr, acts := CompleteRun(plan, memory, k - 1);
      tr, acts := OneMoreRound(plan, tr, acts, k - 1);
    }
    EachRoundGetsItsBody(plan, tr, acts, |acts|);
  }
}
