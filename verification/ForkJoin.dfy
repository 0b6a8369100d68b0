/** Nested fork-join on one pool of `m` workers, with leaves that finish by themselves: the
    caller submits one task per chunk; each chunk task runs a list of parallel steps, and each
    step adds its leaf tasks to the same pool and blocks its worker until they are done.
    `prog[i]` lists the numbers of leaves of chunk `i`'s steps. (Leaves that wait for a peer
    are the subject of `AsyncAllReduce`.) */
module ForkJoin {
  import opened Basics
  import opened Folds

  datatype Item = Chunk(i: nat) | Leaf(i: nat)

  datatype Worker = Free | OnChunk(i: nat) | OnLeaf(i: nat)

  datatype Where = Unsubmitted | Queued | On(w: nat) | Done

  /** `outstanding` is the wait group of the current step, `toAdd` its leaves not yet added. */
  datatype Task = Task(where: Where, rest: seq<nat>, outstanding: nat, toAdd: nat)

  datatype State = State(submitted: nat, queue: seq<Item>, workers: seq<Worker>, tasks: seq<Task>)

  datatype Action =
    | Submit
    | Take(w: nat)
    | ForkStep(w: nat)
    | AddLeaf(w: nat)
    | LeafDone(w: nat)
    | ChunkDone(w: nat)

  function Current(s: State, w: nat): Task
    requires w < |s.workers| && !s.workers[w].Free? && s.workers[w].i < |s.tasks|
  {
    s.tasks[s.workers[w].i]
  }

  ghost predicate Enabled(s: State, a: Action) {
    match a
    case Submit => s.submitted < |s.tasks|
    case Take(w) =>
      w < |s.workers| && s.workers[w].Free? && s.queue != []
      && (s.queue[0].Chunk? ==> s.queue[0].i < |s.tasks|)
    case ForkStep(w) => Holds(s, w) && Current(s, w).outstanding == 0 && Current(s, w).rest != []
    case AddLeaf(w) => Holds(s, w) && Current(s, w).toAdd > 0
    case ChunkDone(w) => Holds(s, w) && Current(s, w).outstanding == 0 && Current(s, w).rest == []
    case LeafDone(w) =>
      w < |s.workers| && s.workers[w].OnLeaf? && s.workers[w].i < |s.tasks| && Current(s, w).outstanding > 0
  }

  predicate Holds(s: State, w: nat) {
    w < |s.workers| && s.workers[w].OnChunk? && s.workers[w].i < |s.tasks|
  }

  ghost function Apply(s: State, a: Action): State
    requires Enabled(s, a)
  {
    match a
    case Submit =>
      var i := s.submitted;
      s.(submitted := i + 1, queue := s.queue + [Chunk(i)], tasks := s.tasks[i := s.tasks[i].(where := Queued)])
    case Take(w) =>
      var it := s.queue[0];
      if it.Leaf?
      then s.(queue := s.queue[1..], workers := s.workers[w := OnLeaf(it.i)])
      else s.(queue := s.queue[1..], workers := s.workers[w := OnChunk(it.i)],
              tasks := s.tasks[it.i := s.tasks[it.i].(where := On(w))])
    case ForkStep(w) =>
      var t := Current(s, w);
      s.(tasks := s.tasks[s.workers[w].i := t.(rest := t.rest[1..], outstanding := t.rest[0], toAdd := t.rest[0])])
    case AddLeaf(w) =>
      var i := s.workers[w].i;
      s.(queue := s.queue + [Leaf(i)], tasks := s.tasks[i := s.tasks[i].(toAdd := s.tasks[i].toAdd - 1)])
    case LeafDone(w) =>
      var i := s.workers[w].i;
      s.(workers := s.workers[w := Free], tasks := s.tasks[i := s.tasks[i].(outstanding := s.tasks[i].outstanding - 1)])
    case ChunkDone(w) =>
      var i := s.workers[w].i;
      s.(workers := s.workers[w := Free], tasks := s.tasks[i := s.tasks[i].(where := Done)])
  }

  ghost function Init(m: nat, prog: seq<seq<nat>>): State {
    State(0, [], seq(m, _ => Free), seq(|prog|, i requires 0 <= i < |prog| => Task(Unsubmitted, prog[i], 0, 0)))
  }

  ghost predicate Run(m: nat, prog: seq<seq<nat>>, tr: seq<State>, acts: seq<Action>) {
    && |tr| == |acts| + 1 && tr[0] == Init(m, prog)
    && forall k :: 0 <= k < |acts| ==> Enabled(tr[k], acts[k]) && tr[k + 1] == Apply(tr[k], acts[k])
  }

  ghost predicate AllDone(s: State) {
    forall i :: 0 <= i < |s.tasks| ==> s.tasks[i].where.Done?
  }

  // ---------------------------------------------------------------- invariant

  predicate Forks(steps: seq<nat>) {
    exists j :: 0 <= j < |steps| && steps[j] > 0
  }

  /** Chunk tasks that block their worker at some point. */
  ghost function ForkSet(prog: seq<seq<nat>>): set<nat> {
    set i: nat | i < |prog| && Forks(prog[i])
  }

  function InQueue(q: seq<Item>, i: nat): nat {
    if q == [] then 0 else InQueue(q[..|q| - 1], i) + One(q[|q| - 1] == Leaf(i))
  }

  function OnWorkers(ws: seq<Worker>, i: nat): nat {
    if ws == [] then 0 else OnWorkers(ws[..|ws| - 1], i) + One(ws[|ws| - 1] == OnLeaf(i))
  }

  lemma {:induction false} QueuePop(q: seq<Item>, i: nat)
    requires q != []
    ensures InQueue(q, i) == One(q[0] == Leaf(i)) + InQueue(q[1..], i)
  {
    var k := |q| - 1;
    if k == 0 {
      assert q[..0] == [] && q[1..] == [];
    } else {
      QueuePop(q[..k], i);
      assert q[..k][1..] == q[1..][..k - 1];
      assert q[1..][k - 1] == q[k];
    }
  }

  lemma QueuePush(q: seq<Item>, it: Item, i: nat)
    ensures InQueue(q + [it], i) == InQueue(q, i) + One(it == Leaf(i))
  {
    assert (q + [it])[..|q|] == q;
  }

  lemma {:induction false} WorkersUpdate(ws: seq<Worker>, w: nat, x: Worker, i: nat)
    requires w < |ws|
    ensures OnWorkers(ws[w := x], i) == OnWorkers(ws, i) - One(ws[w] == OnLeaf(i)) + One(x == OnLeaf(i))
  {
    var k := |ws| - 1;
    if w < k {
      assert ws[w := x][..k] == ws[..k][w := x];
      WorkersUpdate(ws[..k], w, x, i);
    } else {
      assert ws[w := x][..k] == ws[..k];
    }
  }

  lemma {:induction false} NoneOnWorkers(ws: seq<Worker>, i: nat)
    ensures OnWorkers(ws, i) == 0 <==> forall w :: 0 <= w < |ws| ==> ws[w] != OnLeaf(i)
  {
    if ws != [] {
      var k := |ws| - 1;
      NoneOnWorkers(ws[..k], i);
      assert forall w :: 0 <= w < k ==> ws[..k][w] == ws[w];
    }
  }

  /** Everything known about chunk `i`. */
  ghost predicate TaskOk(prog: seq<seq<nat>>, s: State, i: nat)
    requires |s.tasks| == |prog| && i < |prog|
  {
    var t := s.tasks[i];
    && t.outstanding == t.toAdd + InQueue(s.queue, i) + OnWorkers(s.workers, i)
    && (t.where.Unsubmitted? <==> i >= s.submitted)
    && (t.where.Unsubmitted? || t.where.Queued? ==> t.rest == prog[i] && t.outstanding == 0)
    && (t.where.Queued? ==> Chunk(i) in s.queue)
    && (t.where.Done? ==> t.rest == [] && t.outstanding == 0)
    && (t.where.On? ==> t.where.w < |s.workers| && s.workers[t.where.w] == OnChunk(i))
    && (Forks(t.rest) || t.outstanding > 0 ==> Forks(prog[i]))
  }

  ghost predicate QueueOk(s: State) {
    && (forall a :: 0 <= a < |s.queue| ==>
          s.queue[a].i < |s.tasks| && (s.queue[a].Chunk? ==> s.tasks[s.queue[a].i].where.Queued?))
    && (forall a, b :: 0 <= a < b < |s.queue| && s.queue[a].Chunk? ==> s.queue[a] != s.queue[b])
  }

  ghost predicate WorkersOk(s: State) {
    forall w :: 0 <= w < |s.workers| && !s.workers[w].Free? ==>
      s.workers[w].i < |s.tasks| && (s.workers[w].OnChunk? ==> s.tasks[s.workers[w].i].where == On(w))
  }

  ghost predicate Inv(prog: seq<seq<nat>>, m: nat, s: State) {
    && |s.workers| == m && |s.tasks| == |prog| && s.submitted <= |prog|
    && QueueOk(s) && WorkersOk(s)
    && forall i :: 0 <= i < |prog| ==> TaskOk(prog, s, i)
  }

  lemma StepTask(prog: seq<seq<nat>>, m: nat, s: State, a: Action, i: nat)
    requires Inv(prog, m, s) && Enabled(s, a) && i < |prog|
    ensures TaskOk(prog, Apply(s, a), i)
  {
    assert TaskOk(prog, s, i);
    match a {
      case Submit => SubmitTask(prog, s, i);
      case Take(w) => TakeTask(prog, s, w, i);
      case AddLeaf(w) => QueuePush(s.queue, Leaf(s.workers[w].i), i);
      case LeafDone(w) => FreeTask(prog, s, a, w, i);
      case ChunkDone(w) => FreeTask(prog, s, a, w, i);
      case ForkStep(w) => ForkTask(prog, s, w, i);
    }
  }

  lemma SubmitTask(prog: seq<seq<nat>>, s: State, i: nat)
    requires |s.tasks| == |prog| && i < |prog| && Enabled(s, Submit) && TaskOk(prog, s, i)
    ensures TaskOk(prog, Apply(s, Submit), i)
  {
    QueuePush(s.queue, Chunk(s.submitted), i);
  }

  lemma FreeTask(prog: seq<seq<nat>>, s: State, a: Action, w: nat, i: nat)
    requires |s.tasks| == |prog| && i < |prog| && TaskOk(prog, s, i) && WorkersOk(s)
    requires (a == LeafDone(w) || a == ChunkDone(w)) && Enabled(s, a)
    ensures TaskOk(prog, Apply(s, a), i)
  {
    WorkersUpdate(s.workers, w, Free, i);
  }

  lemma ForkTask(prog: seq<seq<nat>>, s: State, w: nat, i: nat)
    requires |s.tasks| == |prog| && i < |prog| && Enabled(s, ForkStep(w)) && TaskOk(prog, s, i)
    requires s.workers[w].i == i ==> s.tasks[i].where == On(w)
    ensures TaskOk(prog, Apply(s, ForkStep(w)), i)
  {
    if i == s.workers[w].i {
      ForksHead(s.tasks[i].rest);
    }
  }

  lemma TakeTask(prog: seq<seq<nat>>, s: State, w: nat, i: nat)
    requires |s.tasks| == |prog| && i < |prog| && s.submitted <= |prog| && Enabled(s, Take(w)) && TaskOk(prog, s, i)
    requires QueueOk(s)
    ensures TaskOk(prog, Apply(s, Take(w)), i)
  {
    QueuePop(s.queue, i);
    assert s.queue == [s.queue[0]] + s.queue[1..];
    WorkersUpdate(s.workers, w, if s.queue[0].Leaf? then OnLeaf(s.queue[0].i) else OnChunk(s.queue[0].i), i);
  }

  lemma ForksHead(steps: seq<nat>)
    requires steps != []
    ensures Forks(steps) <==> steps[0] > 0 || Forks(steps[1..])
  {
    if j :| 0 <= j < |steps| && steps[j] > 0 && j > 0 { assert steps[1..][j - 1] > 0; }
  }

  lemma StepPlaces(prog: seq<seq<nat>>, m: nat, s: State, a: Action)
    requires Inv(prog, m, s) && Enabled(s, a)
    ensures QueueOk(Apply(s, a)) && WorkersOk(Apply(s, a))
  {
    if a.Submit? {
      assert TaskOk(prog, s, s.submitted);
      PlacesAfterSubmit(s);
    } else if a.Take? {
      PlacesAfterTake(s, a.w);
    }
  }

  lemma PlacesAfterSubmit(s: State)
    requires QueueOk(s) && WorkersOk(s) && Enabled(s, Submit) && s.tasks[s.submitted].where.Unsubmitted?
    ensures QueueOk(Apply(s, Submit)) && WorkersOk(Apply(s, Submit))
  {
  }

  lemma PlacesAfterTake(s: State, w: nat)
    requires QueueOk(s) && WorkersOk(s) && Enabled(s, Take(w))
    ensures QueueOk(Apply(s, Take(w))) && WorkersOk(Apply(s, Take(w)))
  {
  }

  lemma StepInv(prog: seq<seq<nat>>, m: nat, s: State, a: Action)
    requires Inv(prog, m, s) && Enabled(s, a)
    ensures Inv(prog, m, Apply(s, a))
  {
    StepPlaces(prog, m, s, a);
    forall i: nat | i < |prog| ensures TaskOk(prog, Apply(s, a), i) { StepTask(prog, m, s, a, i); }
  }

  lemma InitInv(prog: seq<seq<nat>>, m: nat)
    ensures Inv(prog, m, Init(m, prog))
  {
    forall i: nat | i < |prog| ensures TaskOk(prog, Init(m, prog), i) {
      NoneOnWorkers(Init(m, prog).workers, i);
    }
  }

  lemma {:induction false} RunInv(m: nat, prog: seq<seq<nat>>, tr: seq<State>, acts: seq<Action>, k: nat)
    requires Run(m, prog, tr, acts) && k < |tr|
    ensures Inv(prog, m, tr[k])
  {
    if k == 0 {
      InitInv(prog, m);
    } else {
      var j := k - 1;
      RunInv(m, prog, tr, acts, j);
      StepInv(prog, m, tr[j], acts[j]);
    }
  }

  // ---------------------------------------------------------------- every leaf, step after step

  /** The leaves of chunk `i` that have finished after `k` actions. */
  ghost function Finished(m: nat, prog: seq<seq<nat>>, tr: seq<State>, acts: seq<Action>, k: nat, i: nat): nat
    requires Run(m, prog, tr, acts) && k <= |acts|
  {
    if k == 0 then 0 else Finished(m, prog, tr, acts, k - 1, i) + One(EndsLeaf(tr[k - 1], acts[k - 1], i))
  }

  predicate EndsLeaf(s: State, a: Action, i: nat) {
    a.LeafDone? && a.w < |s.workers| && s.workers[a.w] == OnLeaf(i)
  }

  /** The first steps have been begun, and all their leaves but `outstanding` have finished. */
  ghost predicate StepsOk(steps: seq<nat>, t: Task, finished: nat) {
    && |t.rest| <= |steps| && t.rest == steps[|steps| - |t.rest|..]
    && finished + t.outstanding == Sum(steps[..|steps| - |t.rest|])
  }

  lemma NextStep(steps: seq<nat>, t: Task, finished: nat)
    requires StepsOk(steps, t, finished) && t.rest != [] && t.outstanding == 0
    ensures StepsOk(steps, t.(rest := t.rest[1..], outstanding := t.rest[0], toAdd := t.rest[0]), finished)
  {
    var k := |steps| - |t.rest|;
    assert steps[..k + 1][..k] == steps[..k];
    assert t.rest[1..] == steps[k + 1..];
  }

  lemma StepSteps(steps: seq<nat>, s: State, a: Action, i: nat, finished: nat)
    requires Enabled(s, a) && i < |s.tasks| && StepsOk(steps, s.tasks[i], finished)
    ensures |Apply(s, a).tasks| == |s.tasks|
    ensures StepsOk(steps, Apply(s, a).tasks[i], finished + One(EndsLeaf(s, a, i)))
  {
    if a.ForkStep? && s.workers[a.w].i == i { NextStep(steps, s.tasks[i], finished); }
  }

  /** The leaves of a chunk run step after step: those finished are those of all earlier steps and
      some of the step under way. */
  lemma {:induction false} LeavesInSteps(m: nat, prog: seq<seq<nat>>, tr: seq<State>, acts: seq<Action>, k: nat, i: nat)
    requires Run(m, prog, tr, acts) && k <= |acts| && i < |prog|
    ensures i < |tr[k].tasks| && StepsOk(prog[i], tr[k].tasks[i], Finished(m, prog, tr, acts, k, i))
    decreases k
  {
    if k > 0 {
      var j := k - 1;
      LeavesInSteps(m, prog, tr, acts, j, i);
      StepSteps(prog[i], tr[j], acts[j], i, Finished(m, prog, tr, acts, j, i));
    } else {
      assert prog[i][..0] == [];
    }
  }

  /** A chunk that is done has run every leaf of every step. */
  lemma EveryLeafRuns(m: nat, prog: seq<seq<nat>>, tr: seq<State>, acts: seq<Action>, k: nat, i: nat)
    requires Run(m, prog, tr, acts) && k <= |acts| && i < |prog|
    ensures i < |tr[k].tasks|
    ensures tr[k].tasks[i].where.Done? ==> Finished(m, prog, tr, acts, k, i) == Sum(prog[i])
  {
    RunInv(m, prog, tr, acts, k);
    assert TaskOk(prog, tr[k], i);
    LeavesInSteps(m, prog, tr, acts, k, i);
    assert prog[i][..|prog[i]|] == prog[i];
  }

  /** A step begins only when every leaf of the steps before it has finished. */
  lemma StepsOneByOne(m: nat, prog: seq<seq<nat>>, tr: seq<State>, acts: seq<Action>, k: nat, w: nat)
    requires Run(m, prog, tr, acts) && k < |acts| && acts[k] == ForkStep(w)
    ensures Holds(tr[k], w) && tr[k].workers[w].i < |prog|
    ensures var i := tr[k].workers[w].i;
            |Current(tr[k], w).rest| <= |prog[i]|
            && Finished(m, prog, tr, acts, k, i) == Sum(prog[i][..|prog[i]| - |Current(tr[k], w).rest|])
  {
    RunInv(m, prog, tr, acts, k);
    LeavesInSteps(m, prog, tr, acts, k, tr[k].workers[w].i);
  }

  // ---------------------------------------------------------------- first in, first out

  function AddedNow(s: State, a: Action): seq<Item> {
    match a
    case Submit => [Chunk(s.submitted)]
    case AddLeaf(w) => if w < |s.workers| && !s.workers[w].Free? then [Leaf(s.workers[w].i)] else []
    case _ => []
  }

  function TakenNow(s: State, a: Action): seq<Item> {
    if a.Take? && s.queue != [] then [s.queue[0]] else []
  }

  /** The tasks added to the pool, and those its workers took, in the order of the run. */
  ghost function Added(m: nat, prog: seq<seq<nat>>, tr: seq<State>, acts: seq<Action>, k: nat): seq<Item>
    requires Run(m, prog, tr, acts) && k <= |acts|
  {
    if k == 0 then [] else Added(m, prog, tr, acts, k - 1) + AddedNow(tr[k - 1], acts[k - 1])
  }

  ghost function Taken(m: nat, prog: seq<seq<nat>>, tr: seq<State>, acts: seq<Action>, k: nat): seq<Item>
    requires Run(m, prog, tr, acts) && k <= |acts|
  {
    if k == 0 then [] else Taken(m, prog, tr, acts, k - 1) + TakenNow(tr[k - 1], acts[k - 1])
  }

  lemma StepQueue(s: State, a: Action)
    requires Enabled(s, a)
    ensures s.queue + AddedNow(s, a) == TakenNow(s, a) + Apply(s, a).queue
  {
  }

  /** Workers take the tasks, of chunks and leaves alike, in the order in which they were added. */
  lemma {:induction false} PoolIsFifo(m: nat, prog: seq<seq<nat>>, tr: seq<State>, acts: seq<Action>, k: nat)
    requires Run(m, prog, tr, acts) && k <= |acts|
    ensures Added(m, prog, tr, acts, k) == Taken(m, prog, tr, acts, k) + tr[k].queue
    decreases k
  {
    if k > 0 {
      var j := k - 1;
      PoolIsFifo(m, prog, tr, acts, j);
      StepQueue(tr[j], acts[j]);
      Regroup(Added(m, prog, tr, acts, j), Taken(m, prog, tr, acts, j), tr[j].queue, AddedNow(tr[j], acts[j]),
              TakenNow(tr[j], acts[j]), tr[k].queue);
    }
  }

  // ---------------------------------------------------------------- fewer forking chunks than workers

  lemma {:induction false} InjectionFits(f: set<nat>, to: nat -> nat, into: set<nat>)
    requires forall x :: x in f ==> to(x) in into
    requires forall x, y :: x in f && y in f && x != y ==> to(x) != to(y)
    ensures |f| <= |into|
    decreases |f|
  {
    if f != {} {
      var x :| x in f;
      InjectionFits(f - {x}, to, into - {to(x)});
    }
  }

  /** A worker blocked in a chunk whose step is not complete. */
  predicate Blocked(s: State, w: nat) {
    Holds(s, w) && Current(s, w).outstanding > 0
  }

  lemma SomeoneUnblocked(prog: seq<seq<nat>>, m: nat, s: State) returns (w: nat)
    requires Inv(prog, m, s) && |ForkSet(prog)| < m
    ensures w < m && !Blocked(s, w)
  {
    if forall v: nat :: v < m ==> Blocked(s, v) {
      var at := (v: nat) => if v < m && !s.workers[v].Free? then s.workers[v].i else 0;
      forall v | v in Ranks(m) ensures at(v) in ForkSet(prog) && s.tasks[at(v)].where == On(v) {
        assert Blocked(s, v) && TaskOk(prog, s, s.workers[v].i);
      }
      InjectionFits(Ranks(m), at, ForkSet(prog));
      RanksSize(m);
      assert false;
    }
    w :| w < m && !Blocked(s, w);
  }

  /** With fewer forking chunk tasks than workers, something can always move until all is done. */
  lemma Progress(prog: seq<seq<nat>>, m: nat, s: State)
    requires Inv(prog, m, s) && |ForkSet(prog)| < m
    ensures AllDone(s) || exists a :: Enabled(s, a)
  {
    if v: nat :| v < m && s.workers[v].OnLeaf? {
      var i := s.workers[v].i;
      assert TaskOk(prog, s, i);
      NoneOnWorkers(s.workers, i);
      assert Enabled(s, LeafDone(v));
    } else if v: nat :| v < m && Holds(s, v) && !Blocked(s, v) {
      assert Enabled(s, if Current(s, v).rest == [] then ChunkDone(v) else ForkStep(v));
    } else if v: nat :| v < m && Holds(s, v) && Current(s, v).toAdd > 0 {
      assert Enabled(s, AddLeaf(v));
    } else if s.submitted < |prog| {
      assert Enabled(s, Submit);
    } else if s.queue != [] {
      var w := SomeoneUnblocked(prog, m, s);
      assert s.workers[w].Free?;
      assert Enabled(s, Take(w));
    } else {
      forall i: nat | i < |prog| ensures s.tasks[i].where.Done? { AloneIsDone(prog, m, s, i); }
    }
  }

  lemma AloneIsDone(prog: seq<seq<nat>>, m: nat, s: State, i: nat)
    requires Inv(prog, m, s) && i < |prog| && s.queue == [] && s.submitted == |prog|
    requires forall v: nat :: v < m ==> !s.workers[v].OnLeaf? && (Holds(s, v) ==>
            Blocked(s, v) && Current(s, v).toAdd == 0)
    requires |ForkSet(prog)| < m
    ensures s.tasks[i].where.Done?
  {
    assert TaskOk(prog, s, i);
    NoneOnWorkers(s.workers, i);
    assert InQueue(s.queue, i) == 0;
  }

  // ---------------------------------------------------------------- termination

  function TaskWork(t: Task): int {
    t.outstanding + 2 * t.toAdd + if t.where.Done? then 0 else |t.rest| + 1 + 3 * Sum(t.rest)
  }

  function TaskWorks(ts: seq<Task>): (ws: seq<int>)
    ensures |ws| == |ts| && forall i :: 0 <= i < |ws| ==> ws[i] == TaskWork(ts[i])
  {
    seq(|ts|, i requires 0 <= i < |ts| => TaskWork(ts[i]))
  }

  /** Actions left in a run. */
  function Work(s: State): int {
    2 * (|s.tasks| - s.submitted) + |s.queue| + Sum(TaskWorks(s.tasks))
  }

  lemma OneTask(ts: seq<Task>, i: nat, t: Task)
    requires i < |ts|
    ensures Sum(TaskWorks(ts[i := t])) == Sum(TaskWorks(ts)) - TaskWork(ts[i]) + TaskWork(t)
  {
    assert TaskWorks(ts[i := t]) == TaskWorks(ts)[i := TaskWork(t)];
    SumUpdate(TaskWorks(ts), i, TaskWork(t));
  }

  lemma WorkNonNegative(s: State)
    requires s.submitted <= |s.tasks|
    ensures Work(s) >= 0
  {
    forall i | 0 <= i < |s.tasks| ensures TaskWork(s.tasks[i]) >= 0 { SumNonNegative(s.tasks[i].rest); }
    SumNonNegative(TaskWorks(s.tasks));
  }

  /** The work of the one task that an action changes, if it changes one. */
  lemma TaskStep(s: State, a: Action, i: nat)
    requires Enabled(s, a) && i < |s.tasks| && (a.ForkStep? || a.AddLeaf? || a.LeafDone? || a.ChunkDone?)
    requires a.w < |s.workers| && !s.workers[a.w].Free? && i == s.workers[a.w].i
    requires a.ChunkDone? ==> s.tasks[i].rest == [] && !s.tasks[i].where.Done?
    requires a.ForkStep? ==> s.tasks[i].outstanding == s.tasks[i].toAdd == 0 && !s.tasks[i].where.Done?
    ensures TaskWork(Apply(s, a).tasks[i]) == TaskWork(s.tasks[i]) - if a.AddLeaf? then 2 else 1
  {
    if a.ForkStep? { SumHead(s.tasks[i].rest); }
  }

  lemma StepWork(prog: seq<seq<nat>>, m: nat, s: State, a: Action)
    requires Inv(prog, m, s) && Enabled(s, a)
    ensures Work(Apply(s, a)) == Work(s) - 1
  {
    var s' := Apply(s, a);
    match a {
      case Submit =>
        assert TaskOk(prog, s, s.submitted);
        OneTask(s.tasks, s.submitted, s'.tasks[s.submitted]);
      case Take(w) =>
        if s.queue[0].Chunk? { OneTask(s.tasks, s.queue[0].i, s'.tasks[s.queue[0].i]); }
      case _ =>
        var i := s.workers[a.w].i;
        assert TaskOk(prog, s, i);
        TaskStep(s, a, i);
        OneTask(s.tasks, i, s'.tasks[i]);
    }
  }

  lemma {:induction false} RunsAreFinite(m: nat, prog: seq<seq<nat>>, tr: seq<State>, acts: seq<Action>, k: nat)
    requires Run(m, prog, tr, acts) && k <= |acts|
    ensures Work(tr[k]) == Work(tr[0]) - k && k <= Work(tr[0])
  {
    if k > 0 {
      var j := k - 1;
      RunsAreFinite(m, prog, tr, acts, j);
      RunInv(m, prog, tr, acts, j);
      StepWork(prog, m, tr[j], acts[j]);
    }
    RunInv(m, prog, tr, acts, k);
    WorkNonNegative(tr[k]);
  }

  // ---------------------------------------------------------------- as many forking chunks as workers

  /** Every chunk was submitted before any leaf was added, and no leaf has been taken. */
  ghost predicate Clogged(prog: seq<seq<nat>>, s: State) {
    && |s.tasks| == |prog| && s.submitted == |prog|
    && (forall w :: 0 <= w < |s.workers| ==> !s.workers[w].OnLeaf?)
    && (forall a, b :: 0 <= a < b < |s.queue| && s.queue[a].Leaf? ==> s.queue[b].Leaf?)
    && (forall i :: i in ForkSet(prog) ==>
        !s.tasks[i].where.Done? && (Forks(s.tasks[i].rest) || s.tasks[i].outstanding > 0))
  }

  /** A free worker then meets a chunk, not a leaf, at the head of the queue. */
  lemma FreeMeetsChunk(prog: seq<seq<nat>>, m: nat, s: State, w: nat)
    requires Inv(prog, m, s) && Clogged(prog, s) && |ForkSet(prog)| >= m && w < m && s.workers[w].Free? && s.queue != []
    ensures s.queue[0].Chunk?
  {
    var others := Ranks(m) - {w};
    RanksSize(m);
    assert |others| == m - 1;
    if s.queue[0].Leaf? {
      var at := (i: nat) => if i < |prog| && s.tasks[i].where.On? then s.tasks[i].where.w else 0;
      forall i | i in ForkSet(prog) ensures s.tasks[i].where.On? && at(i) in others {
        assert TaskOk(prog, s, i);
        assert Chunk(i) !in s.queue;
      }
      forall i, j | i in ForkSet(prog) && j in ForkSet(prog) && i != j ensures at(i) != at(j) {
        assert TaskOk(prog, s, i) && TaskOk(prog, s, j);
      }
      InjectionFits(ForkSet(prog), at, others);
      assert false;
    }
  }

  lemma CloggedStep(prog: seq<seq<nat>>, m: nat, s: State, a: Action)
    requires Inv(prog, m, s) && Clogged(prog, s) && |ForkSet(prog)| >= m && Enabled(s, a)
    ensures Clogged(prog, Apply(s, a))
  {
    match a {
      case Take(w) => FreeMeetsChunk(prog, m, s, w);
      case ForkStep(w) => ForksHead(Current(s, w).rest);
      case _ =>
    }
  }

  /** Submitting every chunk first leaves the pool clogged whatever happens next. */
  ghost predicate SubmitsFirst(prog: seq<seq<nat>>, acts: seq<Action>) {
    |acts| >= |prog| && forall k :: 0 <= k < |prog| ==> acts[k] == Submit
  }

  lemma {:induction false} OnlySubmitted(m: nat, prog: seq<seq<nat>>, tr: seq<State>, acts: seq<Action>, k: nat)
    requires Run(m, prog, tr, acts) && SubmitsFirst(prog, acts) && k <= |prog|
    ensures tr[k].submitted == k && |tr[k].queue| == k && |tr[k].tasks| == |prog| && |tr[k].workers| == m
    ensures forall a :: 0 <= a < k ==> tr[k].queue[a] == Chunk(a)
    ensures forall i :: 0 <= i < |prog| ==> tr[k].tasks[i] == Task(if i < k then Queued else Unsubmitted, prog[i], 0, 0)
    ensures forall w :: 0 <= w < m ==> tr[k].workers[w].Free?
  {
    if k > 0 {
      var j := k - 1;
      OnlySubmitted(m, prog, tr, acts, j);
      assert acts[j] == Submit;
    }
  }

  lemma {:induction false} StaysClogged(m: nat, prog: seq<seq<nat>>, tr: seq<State>, acts: seq<Action>, k: nat)
    requires Run(m, prog, tr, acts) && SubmitsFirst(prog, acts) && |prog| <= k < |tr| && |ForkSet(prog)| >= m
    ensures Clogged(prog, tr[k])
  {
    if k == |prog| {
      OnlySubmitted(m, prog, tr, acts, k);
    } else {
      var j := k - 1;
      StaysClogged(m, prog, tr, acts, j);
      RunInv(m, prog, tr, acts, j);
      CloggedStep(prog, m, tr[j], acts[j]);
    }
  }

  lemma {:induction false} ToTheEnd(m: nat, prog: seq<seq<nat>>, tr: seq<State>, acts: seq<Action>)
    returns (tr': seq<State>, acts': seq<Action>)
    requires Run(m, prog, tr, acts)
    ensures Run(m, prog, tr', acts') && acts <= acts' && forall a :: !Enabled(tr'[|acts'|], a)
    decreases Work(tr[0]) - |acts|
  {
    RunsAreFinite(m, prog, tr, acts, |acts|);
    var s := tr[|acts|];
    if a :| Enabled(s, a) {
      var tr2, acts2 := tr + [Apply(s, a)], acts + [a];
      assert Run(m, prog, tr2, acts2);
      RunsAreFinite(m, prog, tr2, acts2, |acts2|);
      tr', acts' := ToTheEnd(m, prog, tr2, acts2);
    } else {
      tr', acts' := tr, acts;
    }
  }

  lemma {:induction false} SubmitAll(m: nat, prog: seq<seq<nat>>, k: nat) returns (tr: seq<State>, acts: seq<Action>)
    requires k <= |prog|
    ensures Run(m, prog, tr, acts) && |acts| == k && tr[k].submitted == k && |tr[k].tasks| == |prog|
    ensures forall j :: 0 <= j < k ==> acts[j] == Submit
  {
    if k == 0 {
      tr, acts := [Init(m, prog)], [];
    } else {
      var tr1, acts1 := SubmitAll(m, prog, k - 1);
      tr, acts := tr1 + [Apply(tr1[k - 1], Submit)], acts1 + [Submit];
    }
  }

  /** All nested fork-joins complete in every run. */
  ghost predicate AlwaysCompletes(m: nat, prog: seq<seq<nat>>) {
    forall tr, acts :: Run(m, prog, tr, acts) ==> AllDone(tr[|acts|]) || exists a :: Enabled(tr[|acts|], a)
  }

  /** A pool of `m` workers completes nested fork-join in every run if and only if fewer
      than `m` of the outer tasks fork a nonempty inner step. */
  lemma PoolSizeIsExact(m: nat, prog: seq<seq<nat>>)
    requires m >= 1
    ensures AlwaysCompletes(m, prog) <==> |ForkSet(prog)| < m
  {
    if |ForkSet(prog)| < m {
      forall tr, acts | Run(m, prog, tr, acts) ensures AllDone(tr[|acts|]) || exists a :: Enabled(tr[|acts|], a) {
        RunInv(m, prog, tr, acts, |acts|);
        Progress(prog, m, tr[|acts|]);
      }
    } else {
      var tr, acts := Deadlock(m, prog);
    }
  }

  /** The deadlock: the caller submits all its chunks before the workers get going. */
  lemma Deadlock(m: nat, prog: seq<seq<nat>>) returns (tr: seq<State>, acts: seq<Action>)
    requires 1 <= m <= |ForkSet(prog)|
    ensures Run(m, prog, tr, acts) && !AllDone(tr[|acts|]) && forall a :: !Enabled(tr[|acts|], a)
  {
    var tr0, acts0 := SubmitAll(m, prog, |prog|);
    tr, acts := ToTheEnd(m, prog, tr0, acts0);
    assert SubmitsFirst(prog, acts);
    StaysClogged(m, prog, tr, acts, |acts|);
    var i :| i in ForkSet(prog);
    assert !tr[|acts|].tasks[i].where.Done?;
  }
}
