/** The polled task tree: leaves, sequences and parallel groups, and `task::finish`.

    A leaf becomes finished with its `need`-th poll and counts how often it was polled. A
    parallel group with a runtime hands every child to the pool, which calls the child's
    own `finish`; method `Finish` ensures that this is `Complete`. */
module Tasks {
  import opened Basics

  datatype Task =
    | Leaf(id: nat, need: nat, polled: nat)
    | Sequence(tasks: seq<Task>, at: nat)
    | Parallel(tasks: seq<Task>, flags: seq<bool>, running: nat, rt: bool)

  predicate Finished(t: Task) {
    match t
    case Leaf(_, need, polled) => polled >= need
    case Sequence(ts, at) => at == |ts|
    case Parallel(_, _, running, _) => running == 0
  }

  function Unset(flags: seq<bool>): nat {
    if flags == [] then 0 else Unset(flags[..|flags| - 1]) + One(!flags[|flags| - 1])
  }

  /** How many flags one pass turned from false to true. */
  function NewlySet(before: seq<bool>, after: seq<bool>): nat
    requires |before| == |after|
  {
    if before == [] then 0 else
      var k := |before| - 1;
      NewlySet(before[..k], after[..k]) + One(!before[k] && after[k])
  }

  function Poll(t: Task): Task
    decreases t
  {
    match t
    case Leaf(id, need, polled) => Leaf(id, need, polled + 1)
    case Sequence(ts, at) =>
      if at >= |ts| then t else
        var c := Poll(ts[at]);
        Sequence(ts[at := c], if Finished(c) then at + 1 else at)
    case Parallel(ts, flags, running, rt) =>
      if running == 0 then t
      else if rt then Parallel(CompleteAll(ts), flags, 0, rt)
      else if |flags| != |ts| then t
      else
        var ps := seq(|ts|, i requires 0 <= i < |ts| => if flags[i] then ts[i] else Poll(ts[i]));
        var fs := seq(|ts|, i requires 0 <= i < |ts| => flags[i] || Finished(ps[i]));
        var newly := NewlySet(flags, fs);
        Parallel(ps, fs, if newly <= running then running - newly else 0, rt)
  }

  /** The tree after everything in it has run. */
  function Complete(t: Task): Task
    decreases t
  {
    match t
    case Leaf(id, need, _) => Leaf(id, need, need)
    case Sequence(ts, _) => Sequence(CompleteAll(ts), |ts|)
    case Parallel(ts, flags, _, rt) => Parallel(CompleteAll(ts), seq(|flags|, _ => !rt), 0, rt)
  }

  function CompleteAll(ts: seq<Task>): (r: seq<Task>)
    ensures |r| == |ts| && forall i :: 0 <= i < |ts| ==> r[i] == Complete(ts[i])
    decreases ts
  {
    seq(|ts|, i requires 0 <= i < |ts| => Complete(ts[i]))
  }

  /** As constructed: nothing polled yet, and no leaf finished from the start. */
  ghost predicate Fresh(t: Task)
    decreases t
  {
    match t
    case Leaf(_, need, polled) => polled == 0 && need >= 1
    case Sequence(ts, at) => at == 0 && forall i :: 0 <= i < |ts| ==> Fresh(ts[i])
    case Parallel(ts, flags, running, _) =>
      && flags == seq(|ts|, _ => false) && running == |ts|
      && forall i :: 0 <= i < |ts| ==> Fresh(ts[i])
  }

  ghost predicate Pollable(t: Task) { t.Leaf? ==> !Finished(t) }

  /** What every poll keeps: no leaf has been polled once too often, the children of a
      sequence before the current one are finished and those after it untouched, and
      `running_` counts the false flags of a group without runtime. */
  ghost predicate Ok(t: Task)
    decreases t
  {
    match t
    case Leaf(_, need, polled) => need >= 1 && polled <= need
    case Sequence(ts, at) =>
      && at <= |ts|
      && forall i :: 0 <= i < |ts| ==>
           if i < at then Ok(ts[i]) && Finished(ts[i])
           else if i == at then Ok(ts[i]) && Pollable(ts[i])
           else Fresh(ts[i])
    case Parallel(ts, flags, running, rt) =>
      && |flags| == |ts|
      && if rt
         then flags == seq(|ts|, _ => false) && (running == 0 || running == |ts|) &&
              forall i :: 0 <= i < |ts| ==> if running == 0 then Ok(ts[i]) && Finished(ts[i]) else Fresh(ts[i])
         else running == Unset(flags) &&
              forall i :: 0 <= i < |ts| ==> Ok(ts[i]) && if flags[i] then Finished(ts[i]) else Pollable(ts[i])
  }

  lemma {:induction false} UnsetAll(flags: seq<bool>)
    ensures Unset(flags) <= |flags|
    ensures Unset(flags) == 0 <==> forall i :: 0 <= i < |flags| ==> flags[i]
    ensures (forall i :: 0 <= i < |flags| ==> !flags[i]) ==> Unset(flags) == |flags|
  {
    if flags != [] {
      var k := |flags| - 1;
      UnsetAll(flags[..k]);
      assert forall i :: 0 <= i < k ==> flags[..k][i] == flags[i];
    }
  }

  lemma {:induction false} UnsetPass(before: seq<bool>, after: seq<bool>)
    requires |before| == |after| && forall i :: 0 <= i < |before| ==> before[i] ==> after[i]
    ensures Unset(after) == Unset(before) - NewlySet(before, after)
    decreases |before|
  {
    if before != [] {
      var k := |before| - 1;
      UnsetPass(before[..k], after[..k]);
    }
  }

  lemma {:induction false} NoneNewlySet(before: seq<bool>, after: seq<bool>)
    requires |before| == |after| && forall i :: 0 <= i < |before| ==> before[i] ==> after[i]
    ensures NewlySet(before, after) == 0 <==> before == after
    decreases |before|
  {
    if before != [] {
      var k := |before| - 1;
      NoneNewlySet(before[..k], after[..k]);
      assert before == before[..k] + [before[k]] && after == after[..k] + [after[k]];
    }
  }

  lemma {:induction false} FreshIsOk(t: Task)
    requires Fresh(t)
    ensures Ok(t) && Pollable(t)
    decreases t
  {
    match t {
      case Leaf(_, _, _) =>
      case Sequence(ts, _) =>
        forall i | 0 <= i < |ts| ensures Ok(ts[i]) && Pollable(ts[i]) { FreshIsOk(ts[i]); }
      case Parallel(ts, flags, _, _) =>
        UnsetAll(flags);
        forall i | 0 <= i < |ts| ensures Ok(ts[i]) && Pollable(ts[i]) { FreshIsOk(ts[i]); }
    }
  }

  /** Complete trees are sound and finished. */
  lemma {:induction false} CompleteIsOk(t: Task)
    requires Ok(t)
    ensures Ok(Complete(t)) && Finished(Complete(t))
    decreases t
  {
    match t {
      case Leaf(_, _, _) =>
      case Sequence(ts, at) =>
        forall i | 0 <= i < |ts| ensures Ok(Complete(ts[i])) && Finished(Complete(ts[i])) {
          if i > at { FreshIsOk(ts[i]); }
          CompleteIsOk(ts[i]);
        }
      case Parallel(ts, flags, running, rt) =>
        UnsetAll(Complete(t).flags);
        forall i | 0 <= i < |ts| ensures Ok(Complete(ts[i])) && Finished(Complete(ts[i])) {
          if rt && running != 0 { FreshIsOk(ts[i]); }
          CompleteIsOk(ts[i]);
        }
        assert seq(|flags|, _ => !rt) == if rt then seq(|ts|, _ => false) else seq(|ts|, _ => true);
    }
  }

  /** One pass over a group whose children each poll well. */
  lemma PassOk(t: Task)
    requires Ok(t) && t.Parallel? && !t.rt && t.running != 0
    requires forall i :: 0 <= i < |t.tasks| ==> PolledWell(t.tasks[i])
    ensures Ok(Poll(t)) && Complete(Poll(t)) == Complete(t)
  {
    var ts, flags, t' := t.tasks, t.flags, Poll(t);
    forall i | 0 <= i < |ts|
      ensures Ok(t'.tasks[i]) && (if t'.flags[i] then Finished(t'.tasks[i]) else Pollable(t'.tasks[i]))
      ensures Complete(t'.tasks[i]) == Complete(ts[i])
    {
      assert PolledWell(ts[i]);
    }
    UnsetPass(flags, t'.flags);
    assert CompleteAll(t'.tasks) == CompleteAll(ts);
  }

  ghost predicate PolledWell(t: Task) {
    Ok(t) && Pollable(t) ==> Ok(Poll(t)) && (!t.Leaf? ==> Pollable(Poll(t))) && Complete(Poll(t)) == Complete(t)
  }

  /** A group with a runtime completes in one poll. */
  lemma RunAllOk(t: Task)
    requires Ok(t) && t.Parallel? && t.rt && t.running != 0
    ensures Ok(Poll(t)) && Complete(Poll(t)) == Complete(t)
  {
    var ts, t' := t.tasks, Poll(t);
    forall i | 0 <= i < |ts|
      ensures Ok(t'.tasks[i]) && Finished(t'.tasks[i]) && Complete(t'.tasks[i]) == Complete(ts[i])
    {
      FreshIsOk(ts[i]);
      CompleteIsOk(ts[i]);
      CompleteTwice(ts[i]);
    }
    assert CompleteAll(t'.tasks) == CompleteAll(ts);
  }

  /** One poll of a sequence whose current child polls well. */
  lemma AdvanceOk(t: Task)
    requires Ok(t) && t.Sequence? && t.at < |t.tasks| && PolledWell(t.tasks[t.at])
    ensures Ok(Poll(t)) && Complete(Poll(t)) == Complete(t)
  {
    var ts, at := t.tasks, t.at;
    assert Ok(ts[at]) && Pollable(ts[at]);
    ReplaceCurrent(ts, at, Poll(ts[at]));
    SameCompletion(ts, at, Poll(ts[at]));
  }

  lemma ReplaceCurrent(ts: seq<Task>, at: nat, c: Task)
    requires Ok(Sequence(ts, at)) && at < |ts| && Ok(c) && (Finished(c) || Pollable(c))
    ensures Ok(Sequence(ts[at := c], if Finished(c) then at + 1 else at))
  {
    if at + 1 < |ts| { FreshIsOk(ts[at + 1]); }
  }

  lemma SameCompletion(ts: seq<Task>, at: nat, c: Task)
    requires at < |ts| && Complete(c) == Complete(ts[at])
    ensures CompleteAll(ts[at := c]) == CompleteAll(ts)
  {
  }

  /** One poll keeps the tree sound, and it still completes to the same tree. */
  lemma {:induction false} PollOk(t: Task)
    requires Ok(t) && Pollable(t)
    ensures Ok(Poll(t)) && (!t.Leaf? ==> Pollable(Poll(t)))
    ensures Complete(Poll(t)) == Complete(t)
    decreases t
  {
    match t {
      case Leaf(_, _, _) =>
      case Sequence(ts, at) =>
        if at < |ts| {
          PollOk(ts[at]);
          AdvanceOk(t);
        }
      case Parallel(ts, _, running, rt) =>
        if running != 0 && rt {
          RunAllOk(t);
        } else if running != 0 {
          forall i | 0 <= i < |ts| ensures PolledWell(ts[i]) {
            if Ok(ts[i]) && Pollable(ts[i]) { PollOk(ts[i]); }
          }
          PassOk(t);
        }
    }
  }

  lemma {:induction false} CompleteTwice(t: Task)
    ensures Complete(Complete(t)) == Complete(t)
    decreases t
  {
    match t {
      case Leaf(_, _, _) =>
      case Sequence(ts, _) =>
        forall i | 0 <= i < |ts| ensures Complete(CompleteAll(ts)[i]) == CompleteAll(ts)[i] { CompleteTwice(ts[i]); }
        assert CompleteAll(CompleteAll(ts)) == CompleteAll(ts);
      case Parallel(ts, flags, _, rt) =>
        forall i | 0 <= i < |ts| ensures Complete(CompleteAll(ts)[i]) == CompleteAll(ts)[i] { CompleteTwice(ts[i]); }
        assert CompleteAll(CompleteAll(ts)) == CompleteAll(ts);
    }
  }

  /** A sound finished tree has nothing left to do. */
  lemma {:induction false} FinishedIsComplete(t: Task)
    requires Ok(t) && Finished(t)
    ensures Complete(t) == t
    decreases t
  {
    match t {
      case Leaf(_, _, _) =>
      case Sequence(ts, _) =>
        forall i | 0 <= i < |ts| ensures Complete(ts[i]) == ts[i] { FinishedIsComplete(ts[i]); }
        assert CompleteAll(ts) == ts;
      case Parallel(ts, flags, _, rt) =>
        if !rt { UnsetAll(flags); }
        forall i | 0 <= i < |ts| ensures Complete(ts[i]) == ts[i] { FinishedIsComplete(ts[i]); }
        assert CompleteAll(ts) == ts;
        assert flags == seq(|flags|, _ => !rt);
    }
  }

  // ---------------------------------------------------------------- termination of finish

  /** Polls and completions still to come. */
  function Left(t: Task): nat
    decreases t
  {
    match t
    case Leaf(_, need, polled) => if polled <= need then need - polled else 0
    case Sequence(ts, at) => LeftAll(ts) + if at <= |ts| then |ts| - at else 0
    case Parallel(ts, _, running, _) => LeftAll(ts) + running
  }

  function LeftAll(ts: seq<Task>): nat
    decreases ts
  {
    if ts == [] then 0 else
      assert ts[..|ts| - 1] + [ts[|ts| - 1]] == ts;
      LeftAll(ts[..|ts| - 1]) + Left(ts[|ts| - 1])
  }

  lemma {:induction false} LeftUpdate(ts: seq<Task>, i: nat, c: Task)
    requires i < |ts|
    ensures LeftAll(ts[i := c]) == LeftAll(ts) - Left(ts[i]) + Left(c)
    decreases |ts|
  {
    var k := |ts| - 1;
    if i < k {
      assert ts[i := c][..k] == ts[..k][i := c];
      LeftUpdate(ts[..k], i, c);
    } else {
      assert ts[i := c][..k] == ts[..k];
    }
  }

  lemma {:induction false} LeftPointwise(a: seq<Task>, b: seq<Task>)
    requires |a| == |b| && forall i :: 0 <= i < |a| ==> Left(b[i]) <= Left(a[i])
    ensures LeftAll(b) <= LeftAll(a)
    ensures (exists i :: 0 <= i < |a| && Left(b[i]) < Left(a[i])) ==> LeftAll(b) < LeftAll(a)
    decreases |a|
  {
    if a != [] {
      var k := |a| - 1;
      LeftPointwise(a[..k], b[..k]);
      if i :| 0 <= i < |a| && Left(b[i]) < Left(a[i]) && i < k {
        assert Left(b[..k][i]) < Left(a[..k][i]);
      }
    }
  }

  lemma {:induction false} CompleteLeft(t: Task)
    requires Ok(t)
    ensures Left(Complete(t)) <= Left(t)
    decreases t
  {
    match t {
      case Leaf(_, _, _) =>
      case Sequence(ts, at) =>
        forall i | 0 <= i < |ts| ensures Left(Complete(ts[i])) <= Left(ts[i]) {
          if i > at { FreshIsOk(ts[i]); }
          CompleteLeft(ts[i]);
        }
        LeftPointwise(ts, CompleteAll(ts));
      case Parallel(ts, _, running, rt) =>
        forall i | 0 <= i < |ts| ensures Left(Complete(ts[i])) <= Left(ts[i]) {
          if rt && running != 0 { FreshIsOk(ts[i]); }
          CompleteLeft(ts[i]);
        }
        LeftPointwise(ts, CompleteAll(ts));
    }
  }

  /** Polling an unfinished tree makes progress; polling a finished one changes nothing. */
  lemma {:induction false} PollProgress(t: Task)
    requires Ok(t) && Pollable(t)
    ensures if Finished(t) then Poll(t) == t else Left(Poll(t)) < Left(t)
    decreases t
  {
    match t {
      case Leaf(_, _, _) =>
      case Sequence(ts, at) =>
        if at < |ts| {
          PollProgress(ts[at]);
          LeftUpdate(ts, at, Poll(ts[at]));
        }
      case Parallel(ts, flags, running, rt) =>
        if running != 0 {
          var t' := Poll(t);
          if rt {
            forall i | 0 <= i < |ts| ensures Left(t'.tasks[i]) <= Left(ts[i]) {
              FreshIsOk(ts[i]);
              CompleteLeft(ts[i]);
            }
            LeftPointwise(ts, t'.tasks);
          } else {
            PassProgress(t);
          }
        }
    }
  }

  lemma {:induction false} PassProgress(t: Task)
    requires Ok(t) && t.Parallel? && !t.rt && t.running != 0
    ensures Left(Poll(t)) < Left(t)
    decreases t, 0
  {
    var ts, flags := t.tasks, t.flags;
    var t' := Poll(t);
    forall i | 0 <= i < |ts| ensures Left(t'.tasks[i]) <= Left(ts[i])
      ensures !flags[i] && !t'.flags[i] ==> Left(t'.tasks[i]) < Left(ts[i])
    {
      if !flags[i] { PollProgress(ts[i]); }
    }
    UnsetPass(flags, t'.flags);
    NoneNewlySet(flags, t'.flags);
    UnsetAll(flags);
    LeftPointwise(ts, t'.tasks);
    var i :| 0 <= i < |flags| && !flags[i];
    assert t'.flags == flags ==> Left(t'.tasks[i]) < Left(ts[i]);
  }

  /** The loop of `parallel_tasks::poll` without a runtime: every unfinished child once, in
      order, and `running_` down by one for each that finishes. */
  method ParallelPass(ts: seq<Task>, flags: seq<bool>, running: nat)
    returns (ps: seq<Task>, fs: seq<bool>, left: nat)
    requires Ok(Parallel(ts, flags, running, false)) && running > 0
    ensures Parallel(ps, fs, left, false) == Poll(Parallel(ts, flags, running, false))
    ensures |ps| == |fs| == |ts|
    ensures forall i :: 0 <= i < |ts| ==> ps[i] == if flags[i] then ts[i] else Poll(ts[i])
    ensures forall i :: 0 <= i < |ts| ==> fs[i] == (flags[i] || Finished(ps[i]))
    ensures left == |Open(fs)|
  {
    ghost var after := Poll(Parallel(ts, flags, running, false));
    ps, fs, left := ts, flags, running;
    for i := 0 to |ts|
      invariant |ps| == |fs| == |ts|
      invariant forall j :: 0 <= j < i ==> ps[j] == after.tasks[j] && fs[j] == after.flags[j]
      invariant forall j :: i <= j < |ts| ==> ps[j] == ts[j] && fs[j] == flags[j]
      invariant left == Unset(fs)
    {
      if !fs[i] {
        ps := ps[i := Poll(ps[i])];
        if Finished(ps[i]) {
          UnsetFlip(fs, i);
          fs := fs[i := true];
          left := left - 1;
        }
      }
    }
    assert ps == after.tasks && fs == after.flags;
    UnsetPass(flags, fs);
    OpenSize(fs);
  }

  /** The children that are not flagged. */
  ghost function Open(flags: seq<bool>): set<nat> { set i: nat | i < |flags| && !flags[i] }

  lemma {:induction false} OpenSize(flags: seq<bool>)
    ensures |Open(flags)| == Unset(flags)
    decreases |flags|
  {
    if flags != [] {
      var k := |flags| - 1;
      OpenSize(flags[..k]);
      assert Open(flags) == Open(flags[..k]) + if flags[k] then {} else {k};
    }
  }

  lemma {:induction false} UnsetFlip(flags: seq<bool>, i: nat)
    requires i < |flags| && !flags[i]
    ensures Unset(flags[i := true]) == Unset(flags) - 1
    decreases |flags|
  {
    var k := |flags| - 1;
    if i < k {
      assert flags[i := true][..k] == flags[..k][i := true];
      UnsetFlip(flags[..k], i);
    } else {
      assert flags[i := true][..k] == flags[..k];
    }
  }

  /** `task::finish` terminates for every nested tree, with every leaf polled exactly as
      often as it needed. */
  method Finish(t: Task) returns (r: Task)
    requires Ok(t) && Pollable(t)
    ensures r == Complete(t) && Finished(r) && Ok(r)
  {
    r := t;
    while !Finished(r)
      invariant Ok(r) && Complete(r) == Complete(t) && (Finished(r) || Pollable(r))
      decreases Left(r)
    {
      PollOk(r);
      PollProgress(r);
      r := Poll(r);
    }
    FinishedIsComplete(r);
  }

  /** The state after `k` rounds of the loop of `finish`. */
  function PollTimes(t: Task, k: nat): Task {
    if k == 0 then t else
      var s := PollTimes(t, k - 1);
      if Finished(s) then s else Poll(s)
  }

  lemma {:induction false} PollTimesOk(t: Task, k: nat)
    requires Fresh(t)
    ensures Ok(PollTimes(t, k)) && (Finished(PollTimes(t, k)) || Pollable(PollTimes(t, k)))
    ensures Complete(PollTimes(t, k)) == Complete(t)
  {
    if k == 0 {
      FreshIsOk(t);
    } else {
      PollTimesOk(t, k - 1);
      if !Finished(PollTimes(t, k - 1)) { PollOk(PollTimes(t, k - 1)); }
    }
  }

  /** At any time a child of a sequence has been touched only if all before it are finished. */
  lemma SequenceIsStrict(t: Task, k: nat, i: nat, j: nat)
    requires Fresh(t) && t.Sequence? && i < j < |t.tasks|
    ensures PollTimes(t, k).Sequence? && |PollTimes(t, k).tasks| == |t.tasks|
    ensures Fresh(PollTimes(t, k).tasks[j]) || Finished(PollTimes(t, k).tasks[i])
  {
    PollTimesOk(t, k);
    assert Complete(PollTimes(t, k)).Sequence? && |CompleteAll(t.tasks)| == |t.tasks|;
  }

  // ---------------------------------------------------------------- each leaf exactly as often as needed

  function Polls(t: Task): seq<(nat, nat)>
    decreases t
  {
    match t
    case Leaf(id, _, polled) => [(id, polled)]
    case Sequence(ts, _) => PollsAll(ts)
    case Parallel(ts, _, _, _) => PollsAll(ts)
  }

  function PollsAll(ts: seq<Task>): seq<(nat, nat)>
    decreases ts
  {
    if ts == [] then [] else Polls(ts[0]) + PollsAll(ts[1..])
  }

  function Needs(t: Task): seq<(nat, nat)>
    decreases t
  {
    match t
    case Leaf(id, need, _) => [(id, need)]
    case Sequence(ts, _) => NeedsAll(ts)
    case Parallel(ts, _, _, _) => NeedsAll(ts)
  }

  function NeedsAll(ts: seq<Task>): seq<(nat, nat)>
    decreases ts
  {
    if ts == [] then [] else Needs(ts[0]) + NeedsAll(ts[1..])
  }

  lemma {:induction false} CompletePolls(t: Task)
    ensures Polls(Complete(t)) == Needs(t)
    decreases t, 0
  {
    if !t.Leaf? { CompletePollsAll(t.tasks); }
  }

  lemma {:induction false} CompletePollsAll(ts: seq<Task>)
    ensures PollsAll(CompleteAll(ts)) == NeedsAll(ts)
    decreases ts
  {
    if ts != [] {
      CompletePolls(ts[0]);
      CompletePollsAll(ts[1..]);
      assert CompleteAll(ts)[1..] == CompleteAll(ts[1..]);
    }
  }

  /** Whenever the loop of `finish` has ended, each leaf was polled exactly `need` times; a
      send task, which needs one poll and does not guard against a second, sent once. */
  lemma PolledExactly(t: Task, k: nat)
    requires Fresh(t) && Finished(PollTimes(t, k))
    ensures Polls(PollTimes(t, k)) == Needs(t)
  {
    PollTimesOk(t, k);
    FinishedIsComplete(PollTimes(t, k));
    CompletePolls(t);
  }

  // ---------------------------------------------------------------- how many rounds it takes

  function AtLeastOne(n: nat): nat { if n == 0 then 1 else n }

  /** Polls until a tree is finished: a sequence takes its children one after the other, a group
      all of them at once, and a child that has nothing to do still takes one. */
  function Rounds(t: Task): nat
    decreases t, 0
  {
    match t
    case Leaf(_, need, polled) => if polled <= need then need - polled else 0
    case Sequence(ts, at) => if at <= |ts| then RoundsFrom(ts, at) else 0
    case Parallel(ts, flags, running, rt) =>
      if rt then One(running != 0) else if |flags| == |ts| then MostRounds(ts, flags) else 0
  }

  function RoundsFrom(ts: seq<Task>, at: nat): nat
    requires at <= |ts|
    decreases ts, |ts| - at
  {
    if at == |ts| then 0 else AtLeastOne(Rounds(ts[at])) + RoundsFrom(ts, at + 1)
  }

  /** Over the children that are not flagged. */
  function MostRounds(ts: seq<Task>, flags: seq<bool>): (m: nat)
    requires |ts| == |flags|
    ensures forall i :: 0 <= i < |ts| && !flags[i] ==> 1 <= AtLeastOne(Rounds(ts[i])) <= m
    ensures m > 0 ==> exists i :: 0 <= i < |ts| && !flags[i] && m == AtLeastOne(Rounds(ts[i]))
    decreases ts, 1
  {
    MostOf(ts, flags, |ts|)
  }

  function MostOf(ts: seq<Task>, flags: seq<bool>, k: nat): (m: nat)
    requires k <= |ts| == |flags|
    ensures forall i :: 0 <= i < k && !flags[i] ==> 1 <= AtLeastOne(Rounds(ts[i])) <= m
    ensures m > 0 ==> exists i :: 0 <= i < k && !flags[i] && m == AtLeastOne(Rounds(ts[i]))
    decreases ts, 0, k
  {
    if k == 0 then 0 else
      var m := MostOf(ts, flags, k - 1);
      var r := AtLeastOne(Rounds(ts[k - 1]));
      if flags[k - 1] || r <= m then m else r
  }

  lemma SameRest(ts: seq<Task>, us: seq<Task>, at: nat)
    requires at <= |ts| == |us| && forall i :: at <= i < |ts| ==> us[i] == ts[i]
    ensures RoundsFrom(us, at) == RoundsFrom(ts, at)
    decreases |ts| - at
  {
    if at < |ts| { SameRest(ts, us, at + 1); }
  }

  lemma MostIs(ts: seq<Task>, flags: seq<bool>, m: nat)
    requires |ts| == |flags|
    requires forall i :: 0 <= i < |ts| && !flags[i] ==> AtLeastOne(Rounds(ts[i])) <= m
    requires m > 0 ==> exists i :: 0 <= i < |ts| && !flags[i] && m == AtLeastOne(Rounds(ts[i]))
    ensures MostRounds(ts, flags) == m
  {
  }

  lemma NoneLeft(t: Task)
    requires Ok(t)
    ensures Finished(t) <==> Rounds(t) == 0
  {
    if t.Parallel? { UnsetAll(t.flags); }
  }

  ghost predicate OneRound(t: Task) {
    Ok(t) && Pollable(t) && !Finished(t) ==> Rounds(Poll(t)) == Rounds(t) - 1
  }

  /** A child takes one round less after a poll, and is finished when that was its last. */
  lemma ChildRound(u: Task)
    requires Ok(u) && Pollable(u) && OneRound(u)
    ensures Finished(Poll(u)) <==> AtLeastOne(Rounds(u)) == 1
    ensures !Finished(Poll(u)) ==> AtLeastOne(Rounds(Poll(u))) == AtLeastOne(Rounds(u)) - 1
  {
    PollOk(u);
    PollProgress(u);
    NoneLeft(u);
    NoneLeft(Poll(u));
  }

  lemma SequenceRound(t: Task)
    requires Ok(t) && t.Sequence? && t.at < |t.tasks| && OneRound(t.tasks[t.at])
    ensures Rounds(Poll(t)) == Rounds(t) - 1
  {
    var ts, at := t.tasks, t.at;
    ChildRound(ts[at]);
    NextRounds(ts, at, Poll(ts[at]));
  }

  lemma NextRounds(ts: seq<Task>, at: nat, c: Task)
    requires at < |ts|
    ensures RoundsFrom(ts[at := c], at + 1) == RoundsFrom(ts, at) - AtLeastOne(Rounds(ts[at]))
    ensures RoundsFrom(ts[at := c], at) == RoundsFrom(ts, at) - AtLeastOne(Rounds(ts[at])) + AtLeastOne(Rounds(c))
  {
    SameRest(ts, ts[at := c], at + 1);
  }

  lemma GroupRound(t: Task)
    requires Ok(t) && t.Parallel? && !t.rt && t.running != 0
    requires forall i :: 0 <= i < |t.tasks| ==> OneRound(t.tasks[i])
    ensures Rounds(Poll(t)) == Rounds(t) - 1
  {
    var ts, flags, t' := t.tasks, t.flags, Poll(t);
    NoneLeft(t);
    var m := MostRounds(ts, flags);
    forall i: nat | i < |ts| && !flags[i]
      ensures var c, c' := AtLeastOne(Rounds(ts[i])), AtLeastOne(Rounds(t'.tasks[i]));
              (t'.flags[i] <==> c == 1) && (!t'.flags[i] ==> c' == c - 1)
    {
      assert OneRound(ts[i]) && Ok(ts[i]) && Pollable(ts[i]);
      ChildRound(ts[i]);
    }
    var top: nat :| top < |ts| && !flags[top] && m == AtLeastOne(Rounds(ts[top]));
    forall i | 0 <= i < |ts| && !t'.flags[i] ensures AtLeastOne(Rounds(t'.tasks[i])) <= m - 1 {
      assert !flags[i];
    }
    assert m - 1 > 0 ==> !t'.flags[top] && m - 1 == AtLeastOne(Rounds(t'.tasks[top]));
    MostIs(t'.tasks, t'.flags, m - 1);
  }

  /** Every poll of an unfinished tree takes exactly one round off. */
  lemma {:induction false} PollRound(t: Task)
    ensures OneRound(t)
    decreases t
  {
    if Ok(t) && Pollable(t) && !Finished(t) {
      match t {
        case Leaf(_, _, _) =>
        case Sequence(ts, at) =>
          PollRound(ts[at]);
          SequenceRound(t);
        case Parallel(ts, _, _, rt) =>
          forall i | 0 <= i < |ts| ensures OneRound(ts[i]) { PollRound(ts[i]); }
          if !rt { GroupRound(t); }
      }
    }
  }

  lemma {:induction false} RoundsLeft(t: Task, k: nat)
    requires Fresh(t)
    ensures Rounds(PollTimes(t, k)) == if k <= Rounds(t) then Rounds(t) - k else 0
    decreases k
  {
    if k > 0 {
      RoundsLeft(t, k - 1);
      PollTimesOk(t, k - 1);
      NoneLeft(PollTimes(t, k - 1));
      PollRound(PollTimes(t, k - 1));
    }
  }

  /** `finish` goes round exactly as often as the slowest path through the tree needs. */
  lemma RoundsAreExact(t: Task, k: nat)
    requires Fresh(t)
    ensures Finished(PollTimes(t, k)) <==> k >= Rounds(t)
  {
    RoundsLeft(t, k);
    PollTimesOk(t, k);
    NoneLeft(PollTimes(t, k));
  }

  // ---------------------------------------------------------------- leaves side by side, and in a row

  ghost predicate Leaves(ts: seq<Task>) {
    forall i :: 0 <= i < |ts| ==> ts[i].Leaf? && ts[i].polled == 0 && ts[i].need >= 1
  }

  function Fewer(a: nat, b: nat): nat { if a < b then a else b }

  ghost function Group(ts: seq<Task>): Task { Parallel(ts, seq(|ts|, _ => false), |ts|, false) }

  /** The group after `k` rounds. */
  ghost predicate GroupAt(ts: seq<Task>, t: Task, k: nat)
    requires Leaves(ts)
  {
    && t.Parallel? && !t.rt && |t.tasks| == |t.flags| == |ts|
    && (forall i :: 0 <= i < |ts| ==> t.tasks[i] == ts[i].(polled := Fewer(k, ts[i].need)))
    && (forall i :: 0 <= i < |ts| ==> (t.flags[i] <==> k >= ts[i].need))
    && t.running == Unset(t.flags)
  }

  lemma GroupNext(ts: seq<Task>, t: Task, k: nat)
    requires Leaves(ts) && GroupAt(ts, t, k)
    ensures GroupAt(ts, if Finished(t) then t else Poll(t), k + 1)
  {
    UnsetAll(t.flags);
    if !Finished(t) {
      var t' := Poll(t);
      forall i | 0 <= i < |ts|
        ensures t'.tasks[i] == ts[i].(polled := Fewer(k + 1, ts[i].need)) && (t'.flags[i] <==> k + 1 >= ts[i].need)
      {
        assert t.tasks[i] == ts[i].(polled := Fewer(k, ts[i].need)) && (t.flags[i] <==> k >= ts[i].need);
        if !t.flags[i] { assert t'.tasks[i] == Poll(t.tasks[i]); }
      }
      UnsetPass(t.flags, t'.flags);
    }
  }

  lemma {:induction false} GroupAfter(ts: seq<Task>, k: nat)
    requires Leaves(ts)
    ensures GroupAt(ts, PollTimes(Group(ts), k), k)
    decreases k
  {
    if k == 0 {
      UnsetAll(Group(ts).flags);
    } else {
      GroupAfter(ts, k - 1);
      GroupNext(ts, PollTimes(Group(ts), k - 1), k - 1);
    }
  }

  /** Polled side by side: each leaf in every round until it is finished, so after `k` rounds leaf
      `i` has had `min(k, need)` polls, and all is done when the slowest leaf is. */
  lemma LeavesSideBySide(ts: seq<Task>, k: nat)
    requires Leaves(ts)
    ensures PollTimes(Group(ts), k).Parallel? && |PollTimes(Group(ts), k).tasks| == |ts|
    ensures forall i :: 0 <= i < |ts| ==>
              PollTimes(Group(ts), k).tasks[i] == ts[i].(polled := Fewer(k, ts[i].need))
    ensures Finished(PollTimes(Group(ts), k)) <==> forall i :: 0 <= i < |ts| ==> k >= ts[i].need
  {
    GroupAfter(ts, k);
    UnsetAll(PollTimes(Group(ts), k).flags);
  }

  function Needed(ts: seq<Task>): int { if ts == [] then 0 else Needed(ts[..|ts| - 1]) + LeafNeed(ts[|ts| - 1]) }

  function LeafNeed(t: Task): nat { if t.Leaf? then t.need else 0 }

  /** Polled in a row: as many rounds as all the leaves need together. */
  lemma LeavesInARow(ts: seq<Task>, k: nat)
    requires Leaves(ts)
    ensures Finished(PollTimes(Sequence(ts, 0), k)) <==> k >= Needed(ts)
  {
    var t := Sequence(ts, 0);
    assert Fresh(t);
    RoundsAreExact(t, k);
    RowRounds(ts, 0);
    assert ts[..0] == [];
  }

  lemma {:induction false} RowRounds(ts: seq<Task>, at: nat)
    requires Leaves(ts) && at <= |ts|
    ensures RoundsFrom(ts, at) == Needed(ts) - Needed(ts[..at])
    decreases |ts| - at
  {
    if at < |ts| {
      RowRounds(ts, at + 1);
      assert ts[..at + 1][..at] == ts[..at];
    } else {
      assert ts[..at] == ts;
    }
  }
}
