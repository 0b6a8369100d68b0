/** The semaphore-driven thread pool: any number of adders, `n` workers and the destructor,
    one action per critical section. Tasks are numbered in the order they are pushed. */
module ThreadPool {
  import opened Basics

  /** Where a worker is in its loop: before `sema.get_one`, holding a token, past the
      `is_stopped` test, inside a task, or out of the loop. */
  datatype Worker = Idle | GotToken | Passed | Running(task: nat) | Exited

  datatype Pool = Pool(
    sema: nat, queue: seq<nat>, waiting: int, running: int, stopped: bool,
    workers: seq<Worker>,
    adding: nat,          // calls of add between the push and the put_one
    stopPuts: nat,        // put_one calls the destructor still has to make
    started: seq<nat>,    // tasks in the order they were started
    finished: set<nat>)

  datatype Action =
    | Push | PutOne
    | GetToken(w: nat) | CheckStop(w: nat) | PopTask(w: nat) | Finish(w: nat)
    | Stop | StopPut

  function Added(s: Pool): nat { |s.started| + |s.queue| }

  predicate IsZero(s: Pool) { s.waiting == 0 && s.running == 0 }

  predicate Enabled(s: Pool, a: Action) {
    match a
    case Push => true
    case PutOne => s.adding > 0
    case GetToken(w) => w < |s.workers| && s.workers[w].Idle? && s.sema >= 1
    case CheckStop(w) => w < |s.workers| && s.workers[w].GotToken?
    case PopTask(w) => w < |s.workers| && s.workers[w].Passed?
    case Finish(w) => w < |s.workers| && s.workers[w].Running?
    case Stop => !s.stopped
    case StopPut => s.stopPuts > 0
  }

  /** `PopTask` reads the front of the queue, so the queue must not be empty there. */
  predicate Safe(s: Pool, a: Action) {
    && (a.PopTask? ==> s.queue != [] && s.waiting > 0)
    && (a.Finish? ==> s.running > 0)
  }

  function Apply(s: Pool, a: Action): Pool
    requires Enabled(s, a) && Safe(s, a)
  {
    match a
    case Push => s.(queue := s.queue + [Added(s)], waiting := s.waiting + 1, adding := s.adding + 1)
    case PutOne => s.(sema := s.sema + 1, adding := s.adding - 1)
    case GetToken(w) => s.(sema := s.sema - 1, workers := s.workers[w := GotToken])
    case CheckStop(w) => s.(workers := s.workers[w := if s.stopped then Exited else Passed])
    case PopTask(w) =>
      s.(queue := s.queue[1..], waiting := s.waiting - 1, running := s.running + 1,
         workers := s.workers[w := Running(s.queue[0])], started := s.started + [s.queue[0]])
    case Finish(w) =>
      s.(running := s.running - 1, workers := s.workers[w := Idle],
         finished := s.finished + {s.workers[w].task})
    case Stop => s.(stopped := true, stopPuts := |s.workers|)
    case StopPut => s.(sema := s.sema + 1, stopPuts := s.stopPuts - 1)
  }

  ghost predicate Init(s: Pool, n: nat) {
    s == Pool(0, [], 0, 0, false, seq(n, _ => Idle), 0, 0, [], {})
  }

  /** A run stops being described at an unsafe action; `PoolIsSafe` shows none occurs. */
  ghost predicate Run(n: nat, tr: seq<Pool>, acts: seq<Action>) {
    && |tr| == |acts| + 1 && Init(tr[0], n)
    && forall i :: 0 <= i < |acts| ==> Enabled(tr[i], acts[i]) && (Safe(tr[i], acts[i]) ==>
        tr[i + 1] == Apply(tr[i], acts[i]))
  }

  // ---------------------------------------------------------------- counting workers

  function Tag(w: Worker): nat {
    match w case Idle => 0 case GotToken => 1 case Passed => 2 case Running(_) => 3 case Exited => 4
  }

  function Count(ws: seq<Worker>, tag: nat): nat {
    if ws == [] then 0 else Count(ws[..|ws| - 1], tag) + One(Tag(ws[|ws| - 1]) == tag)
  }

  lemma {:induction false} CountUpdate(ws: seq<Worker>, w: nat, x: Worker, tag: nat)
    requires w < |ws|
    ensures Count(ws[w := x], tag) == Count(ws, tag) - One(Tag(ws[w]) == tag) + One(Tag(x) == tag)
  {
    var k := |ws| - 1;
    if w < k {
      assert ws[w := x][..k] == ws[..k][w := x];
      CountUpdate(ws[..k], w, x, tag);
    } else {
      assert ws[w := x][..k] == ws[..k];
    }
  }

  lemma CountsUpdate(ws: seq<Worker>, w: nat, x: Worker)
    requires w < |ws|
    ensures forall tag: nat {:trigger Count(ws[w := x], tag)} ::
              Count(ws[w := x], tag) == Count(ws, tag) - One(Tag(ws[w]) == tag) + One(Tag(x) == tag)
  {
    forall tag: nat { CountUpdate(ws, w, x, tag); }
  }

  lemma {:induction false} CountZero(ws: seq<Worker>, tag: nat)
    ensures Count(ws, tag) == 0 <==> forall i :: 0 <= i < |ws| ==> Tag(ws[i]) != tag
  {
    if ws != [] {
      var k := |ws| - 1;
      CountZero(ws[..k], tag);
      assert forall i :: 0 <= i < k ==> ws[..k][i] == ws[i];
    }
  }

  lemma {:induction false} CountsAddUp(ws: seq<Worker>)
    ensures Count(ws, 0) + Count(ws, 1) + Count(ws, 2) + Count(ws, 3) + Count(ws, 4) == |ws|
  {
    if ws != [] { CountsAddUp(ws[..|ws| - 1]); }
  }

  // ---------------------------------------------------------------- invariant

  ghost predicate TasksOk(s: Pool) {
    InOrder(s) && forall t: nat :: t < |s.started| && t !in s.finished ==> IsRunning(s.workers, t)
  }

  ghost predicate InOrder(s: Pool) {
    && (forall i :: 0 <= i < |s.started| ==> s.started[i] == i)
    && (forall i :: 0 <= i < |s.queue| ==> s.queue[i] == |s.started| + i)
    && (forall t :: t in s.finished ==> t < |s.started|)
    && (forall w :: 0 <= w < |s.workers| && s.workers[w].Running? ==>
          s.workers[w].task < |s.started| && s.workers[w].task !in s.finished)
    && (forall v, w :: 0 <= v < w < |s.workers| && s.workers[v].Running? && s.workers[w].Running? ==>
          s.workers[v].task != s.workers[w].task)
  }

  ghost predicate IsRunning(ws: seq<Worker>, t: nat) {
    exists w :: 0 <= w < |ws| && ws[w] == Running(t)
  }

  ghost predicate Inv(s: Pool) {
    && s.waiting == |s.queue|
    && s.running == Count(s.workers, 3)
    && Count(s.workers, 2) <= |s.queue|
    && (!s.stopped ==> s.stopPuts == 0 && s.sema + s.adding + Count(s.workers, 1) + Count(s.workers, 2) == |s.queue|)
    && TasksOk(s)
  }

  lemma {:induction false} AllIdle(n: nat, ws: seq<Worker>)
    requires |ws| == n && forall i :: 0 <= i < n ==> ws[i].Idle?
    ensures Count(ws, 1) == Count(ws, 2) == Count(ws, 3) == 0
  {
    CountZero(ws, 1);
    CountZero(ws, 2);
    CountZero(ws, 3);
  }

  /** A worker past the stop test finds a task, and a finishing one is counted as running. */
  lemma InvSafe(s: Pool, a: Action)
    requires Inv(s) && Enabled(s, a)
    ensures Safe(s, a)
  {
    if a.PopTask? { CountZero(s.workers, 2); }
    if a.Finish? { CountZero(s.workers, 3); }
  }

  lemma StepOrder(s: Pool, a: Action)
    requires InOrder(s) && Enabled(s, a) && Safe(s, a)
    ensures InOrder(Apply(s, a))
  {
  }

  lemma StepRunning(s: Pool, a: Action, t: nat)
    requires InOrder(s) && Enabled(s, a) && Safe(s, a)
    requires t < |s.started| && t !in s.finished ==> IsRunning(s.workers, t)
    requires t < |Apply(s, a).started| && t !in Apply(s, a).finished
    ensures IsRunning(Apply(s, a).workers, t)
  {
    var s' := Apply(s, a);
    if a.PopTask? && t == s.queue[0] {
      assert s'.workers[a.w] == Running(t);
    } else {
      var w :| 0 <= w < |s.workers| && s.workers[w] == Running(t);
      assert s'.workers[w] == Running(t);
    }
  }

  lemma StepTasks(s: Pool, a: Action)
    requires TasksOk(s) && Enabled(s, a) && Safe(s, a)
    ensures TasksOk(Apply(s, a))
  {
    StepOrder(s, a);
    forall t: nat | t < |Apply(s, a).started| && t !in Apply(s, a).finished ensures IsRunning(Apply(s, a).workers, t) {
      StepRunning(s, a, t);
    }
  }

  lemma StepCounts(s: Pool, a: Action)
    requires Inv(s) && Enabled(s, a) && Safe(s, a)
    ensures var s' := Apply(s, a);
            && s'.running == Count(s'.workers, 3) && Count(s'.workers, 2) <= |s'.queue|
            && (!s'.stopped ==> s'.stopPuts == 0)
            && (!s'.stopped ==> s'.sema + s'.adding + Count(s'.workers, 1) + Count(s'.workers, 2) == |s'.queue|)
  {
    match a {
      case GetToken(w) => CountsUpdate(s.workers, w, GotToken);
      case CheckStop(w) =>
        CountZero(s.workers, 1);
        CountsUpdate(s.workers, w, if s.stopped then Exited else Passed);
      case PopTask(w) => CountsUpdate(s.workers, w, Running(s.queue[0]));
      case Finish(w) => CountsUpdate(s.workers, w, Idle);
      case _ =>
    }
  }

  lemma StepInv(s: Pool, a: Action)
    requires Inv(s) && Enabled(s, a)
    ensures Safe(s, a) && Inv(Apply(s, a))
  {
    InvSafe(s, a);
    StepTasks(s, a);
    StepCounts(s, a);
  }

  lemma {:induction false} RunInv(n: nat, tr: seq<Pool>, acts: seq<Action>, i: nat)
    requires Run(n, tr, acts) && i < |tr|
    ensures Inv(tr[i]) && |tr[i].workers| == n
  {
    if i == 0 {
      AllIdle(n, tr[0].workers);
    } else {
      var j := i - 1;
      RunInv(n, tr, acts, j);
      StepInv(tr[j], acts[j]);
    }
  }

  /** No worker ever pops an empty queue, both assertions hold, and `waiting` is the queue length. */
  lemma PoolIsSafe(n: nat, tr: seq<Pool>, acts: seq<Action>, i: nat)
    requires Run(n, tr, acts) && i < |acts|
    ensures Safe(tr[i], acts[i]) && tr[i].waiting == |tr[i].queue|
    ensures acts[i].PopTask? ==> tr[i].queue != [] && tr[i].waiting > 0
    ensures acts[i].Finish? ==> tr[i].running > 0
  {
    RunInv(n, tr, acts, i);
    InvSafe(tr[i], acts[i]);
  }

  /** Tasks start in the order they were added, each at most once. */
  lemma FirstInFirstOut(n: nat, tr: seq<Pool>, acts: seq<Action>, i: nat)
    requires Run(n, tr, acts) && i < |tr|
    ensures tr[i].started + tr[i].queue == seq(Added(tr[i]), k => k)
  {
    RunInv(n, tr, acts, i);
  }

  /** Where `wait` may return, every task added so far has finished. */
  lemma WaitMeansFinished(n: nat, tr: seq<Pool>, acts: seq<Action>, i: nat, t: nat)
    requires Run(n, tr, acts) && i < |tr|
    ensures IsZero(tr[i]) ==> (t in tr[i].finished <==> t < Added(tr[i]))
  {
    RunInv(n, tr, acts, i);
    if IsZero(tr[i]) { CountZero(tr[i].workers, 3); }
  }

  /** Before the destructor, a pool with a worker never stalls while a task is queued. */
  lemma NeverStalls(n: nat, tr: seq<Pool>, acts: seq<Action>, i: nat)
    requires n >= 1 && Run(n, tr, acts) && i < |tr| && !tr[i].stopped && tr[i].queue != []
    ensures exists a :: Enabled(tr[i], a) && !a.Push? && !a.Stop?
  {
    RunInv(n, tr, acts, i);
    var s := tr[i];
    CountZero(s.workers, 1);
    CountZero(s.workers, 2);
    if s.adding > 0 {
      assert Enabled(s, PutOne);
    } else if w :| 0 <= w < n && s.workers[w].GotToken? {
      assert Enabled(s, CheckStop(w));
    } else if w :| 0 <= w < n && s.workers[w].Passed? {
      assert Enabled(s, PopTask(w));
    } else if w :| 0 <= w < n && s.workers[w].Running? {
      assert Enabled(s, Finish(w));
    } else {
      NoExitBeforeStop(n, tr, acts, i, 0);
      assert Enabled(s, GetToken(0));
    }
  }

  /** Workers do not wait for each other: before the destructor one that is not idle can always go
      on, and an idle one can while there are more tasks queued than workers on their way to one. */
  lemma WorkersAreIndependent(n: nat, tr: seq<Pool>, acts: seq<Action>, i: nat, w: nat)
    requires Run(n, tr, acts) && i < |tr| && !tr[i].stopped && w < n
    ensures |tr[i].workers| == n
    ensures !tr[i].workers[w].Idle? ==>
            Enabled(tr[i], CheckStop(w)) || Enabled(tr[i], PopTask(w)) || Enabled(tr[i], Finish(w))
    ensures var s := tr[i];
            s.workers[w].Idle? && s.adding == 0 && Count(s.workers, 1) + Count(s.workers, 2) < |s.queue| ==>
            Enabled(s, GetToken(w))
  {
    RunInv(n, tr, acts, i);
    NoExitBeforeStop(n, tr, acts, i, w);
  }

  lemma {:induction false} NoExitBeforeStop(n: nat, tr: seq<Pool>, acts: seq<Action>, i: nat, w: nat)
    requires Run(n, tr, acts) && i < |tr| && !tr[i].stopped && w < n
    ensures |tr[i].workers| == n && !tr[i].workers[w].Exited?
  {
    RunInv(n, tr, acts, i);
    if i > 0 {
      var j := i - 1;
      RunInv(n, tr, acts, j);
      StepInv(tr[j], acts[j]);
      NoExitBeforeStop(n, tr, acts, j, w);
    }
  }

  /** Any number of tasks can be added and finished, by a single worker. */
  lemma {:induction false} AllTasksRun(n: nat, k: nat) returns (tr: seq<Pool>, acts: seq<Action>)
    requires n >= 1
    ensures Run(n, tr, acts) && Added(tr[|acts|]) == k && IsZero(tr[|acts|])
    ensures tr[|acts|].workers == seq(n, _ => Idle) && !tr[|acts|].stopped && tr[|acts|].queue == []
    decreases k
  {
    if k == 0 {
      tr, acts := [Pool(0, [], 0, 0, false, seq(n, _ => Idle), 0, 0, [], {})], [];
    } else {
      tr, acts := AllTasksRun(n, k - 1);
      tr, acts := OneMoreTask(n, tr, acts);
    }
  }

  lemma OneMoreTask(n: nat, tr: seq<Pool>, acts: seq<Action>) returns (tr': seq<Pool>, acts': seq<Action>)
    requires n >= 1 && Run(n, tr, acts) && IsZero(tr[|acts|]) && tr[|acts|].queue == []
    requires tr[|acts|].workers == seq(n, _ => Idle) && !tr[|acts|].stopped
    ensures Run(n, tr', acts') && Added(tr'[|acts'|]) == Added(tr[|acts|]) + 1 && IsZero(tr'[|acts'|])
    ensures tr'[|acts'|].workers == seq(n, _ => Idle) && !tr'[|acts'|].stopped && tr'[|acts'|].queue == []
  {
    var s0 := tr[|acts|];
    var s1 := Apply(s0, Push);
    var s2 := Apply(s1, PutOne);
    var s3 := Apply(s2, GetToken(0));
    var s4 := Apply(s3, CheckStop(0));
    var s5 := Apply(s4, PopTask(0));
    tr', acts' := tr + [s1, s2, s3, s4, s5, Apply(s5, Finish(0))],
                  acts + [Push, PutOne, GetToken(0), CheckStop(0), PopTask(0), Finish(0)];
  }

  // ---------------------------------------------------------------- the destructor

  /** Stopped, every queued task already claimed by a worker past the test, and tokens
      enough for everyone who will ask again. */
  ghost predicate Draining(s: Pool) {
    && Inv(s) && s.stopped
    && |s.queue| == Count(s.workers, 2)
    && s.sema + s.stopPuts >= Count(s.workers, 0) + Count(s.workers, 2) + Count(s.workers, 3)
  }

  /** Steps left until every worker is out. */
  function Left(s: Pool): int {
    WorkersLeft(s.workers) + s.stopPuts + s.adding
  }

  function WorkersLeft(ws: seq<Worker>): nat {
    4 * Count(ws, 2) + 3 * Count(ws, 3) + 2 * Count(ws, 0) + Count(ws, 1)
  }

  lemma WorkersLeftUpdate(ws: seq<Worker>, w: nat, x: Worker)
    requires w < |ws|
    ensures WorkersLeft(ws[w := x]) == WorkersLeft(ws) - WorkersLeft([ws[w]]) + WorkersLeft([x])
  {
    CountsUpdate(ws, w, x);
    OneWorker(ws[w]);
    OneWorker(x);
  }

  lemma OneWorker(x: Worker)
    ensures forall tag: nat :: Count([x], tag) == One(Tag(x) == tag)
    ensures WorkersLeft([x])
         == match x case Idle => 2 case GotToken => 1 case Passed => 4 case Running(_) => 3 case Exited => 0
  {
    forall tag: nat ensures Count([x], tag) == One(Tag(x) == tag) { assert [x][..0] == []; }
  }

  lemma DrainCounts(s: Pool, a: Action)
    requires Draining(s) && Enabled(s, a) && Safe(s, a) && !a.Push?
    ensures var s' := Apply(s, a);
            && s'.sema + s'.stopPuts - Count(s'.workers, 0) - Count(s'.workers, 2) - Count(s'.workers, 3)
               >= s.sema + s.stopPuts - Count(s.workers, 0) - Count(s.workers, 2) - Count(s.workers, 3)
            && |s'.queue| - Count(s'.workers, 2) == |s.queue| - Count(s.workers, 2)
  {
    match a {
      case GetToken(w) => CountsUpdate(s.workers, w, GotToken);
      case CheckStop(w) => CountsUpdate(s.workers, w, Exited);
      case PopTask(w) => CountsUpdate(s.workers, w, Running(s.queue[0]));
      case Finish(w) => CountsUpdate(s.workers, w, Idle);
      case _ =>
    }
  }

  lemma DrainLeft(s: Pool, a: Action)
    requires Draining(s) && Enabled(s, a) && Safe(s, a) && !a.Push?
    ensures Left(Apply(s, a)) == Left(s) - 1
  {
    if a.GetToken? || a.CheckStop? || a.PopTask? || a.Finish? {
      var x := Apply(s, a).workers[a.w];
      WorkersLeftUpdate(s.workers, a.w, x);
      OneWorker(s.workers[a.w]);
      OneWorker(x);
    }
  }

  lemma DrainStep(s: Pool, a: Action)
    requires Draining(s) && Enabled(s, a) && !a.Push?
    ensures Safe(s, a) && Draining(Apply(s, a)) && Left(Apply(s, a)) == Left(s) - 1
  {
    StepInv(s, a);
    DrainCounts(s, a);
    DrainLeft(s, a);
  }

  ghost predicate AllExited(s: Pool) {
    forall w :: 0 <= w < |s.workers| ==> s.workers[w].Exited?
  }

  lemma DrainProgress(s: Pool)
    requires Draining(s)
    ensures AllExited(s) ==> IsZero(s)
    ensures !AllExited(s) ==> exists a :: Enabled(s, a) && !a.Push?
  {
    CountZero(s.workers, 2);
    CountZero(s.workers, 3);
    if !AllExited(s) {
      var w :| 0 <= w < |s.workers| && !s.workers[w].Exited?;
      match s.workers[w] {
        case GotToken => assert Enabled(s, CheckStop(w));
        case Passed => assert Enabled(s, PopTask(w));
        case Running(_) => assert Enabled(s, Finish(w));
        case Idle =>
          CountZero(s.workers, 0);
          if s.sema >= 1 { assert Enabled(s, GetToken(w)); } else { assert Enabled(s, StopPut); }
      }
    }
  }

  lemma {:induction false} DrainRun(n: nat, tr: seq<Pool>, acts: seq<Action>, i: nat, j: nat)
    requires Run(n, tr, acts) && i < j < |tr| && acts[i] == Stop
    requires forall k :: i < k < j ==> !acts[k].Push?
    requires |tr[i].queue| == Count(tr[i].workers, 2)
    ensures Draining(tr[j]) && Left(tr[j]) == Left(tr[i + 1]) - (j - i - 1)
  {
    RunInv(n, tr, acts, i);
    if j == i + 1 {
      StepInv(tr[i], acts[i]);
      CountsAddUp(tr[i].workers);
    } else {
      var k := j - 1;
      DrainRun(n, tr, acts, i, k);
      DrainStep(tr[k], acts[k]);
    }
  }

  /** A destructor entered with every queued task claimed (in particular with none waiting)
      and no further adds: the workers all leave after boundedly many actions, somebody can
      always move until then, and its `wait` is then satisfied. */
  lemma DestructorReturns(n: nat, tr: seq<Pool>, acts: seq<Action>, i: nat, j: nat)
    requires Run(n, tr, acts) && i < j < |tr| && acts[i] == Stop
    requires forall k :: i < k < j ==> !acts[k].Push?
    requires |tr[i].queue| == Count(tr[i].workers, 2)
    ensures if AllExited(tr[j]) then IsZero(tr[j]) else exists a :: Enabled(tr[j], a) && !a.Push?
    ensures j - i - 1 <= Left(tr[i + 1])
  {
    DrainRun(n, tr, acts, i, j);
    DrainProgress(tr[j]);
  }

  lemma HangStep(s: Pool, a: Action)
    requires Enabled(s, a) && Safe(s, a) && |s.queue| > Count(s.workers, 2) && s.stopped
    ensures |Apply(s, a).queue| > Count(Apply(s, a).workers, 2) && Apply(s, a).stopped
  {
    match a {
      case GetToken(w) => CountsUpdate(s.workers, w, GotToken);
      case CheckStop(w) => CountsUpdate(s.workers, w, if s.stopped then Exited else Passed);
      case PopTask(w) => CountsUpdate(s.workers, w, Running(s.queue[0]));
      case Finish(w) => CountsUpdate(s.workers, w, Idle);
      case _ =>
    }
  }

  /** With an unclaimed task in the queue the destructor's `wait` is never satisfied: that
      task is never started. */
  lemma {:induction false} DestructorHangs(n: nat, tr: seq<Pool>, acts: seq<Action>, i: nat, j: nat)
    requires Run(n, tr, acts) && i < j < |tr| && acts[i] == Stop
    requires |tr[i].queue| > Count(tr[i].workers, 2)
    ensures |tr[j].queue| > Count(tr[j].workers, 2) && tr[j].stopped && !IsZero(tr[j])
  {
    var k := j - 1;
    RunInv(n, tr, acts, k);
    StepInv(tr[k], acts[k]);
    if k > i {
      DestructorHangs(n, tr, acts, i, k);
      HangStep(tr[k], acts[k]);
    }
    RunInv(n, tr, acts, j);
  }
}
