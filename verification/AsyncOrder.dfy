/** In which order the tasks of the asynchronous all-reduce run: the pool of a rank takes every
    task once, in the order in which they were added, and a task is added only after the steps of
    its chunk before its own. */
module AsyncOrder {
  import opened Basics
  import opened Graphs
  import opened Topology
  import opened AsyncAllReduce
  import opened AsyncValues
  import AR = AllReduce

  // ---------------------------------------------------------------- the pool

  /** The tasks added to the pool of rank `v`, and those its workers took, in the order of the run. */
  ghost function Added(p: Plan, tr: seq<seq<Rank>>, acts: seq<Action>, i: nat, v: nat): seq<Item>
    requires p.Valid() && Run(p, tr, acts) && i <= |acts| && v < p.n
  {
    if i == 0 then [] else
      assert Stepped(p, tr[i - 1], tr[i], acts[i - 1]);
      Added(p, tr, acts, i - 1, v) + AddedNow(tr[i - 1][v], acts[i - 1], v)
  }

  function AddedNow(r: Rank, a: Action, v: nat): seq<Item> {
    match a
    case Submit(w) => if w == v then [Chunk(r.submitted)] else []
    case Add(w, it) => if w == v then [it] else []
    case _ => []
  }

  ghost function Taken(p: Plan, tr: seq<seq<Rank>>, acts: seq<Action>, i: nat, v: nat): seq<Item>
    requires p.Valid() && Run(p, tr, acts) && i <= |acts| && v < p.n
  {
    if i == 0 then [] else
      assert Stepped(p, tr[i - 1], tr[i], acts[i - 1]);
      Taken(p, tr, acts, i - 1, v) + TakenNow(tr[i - 1][v], acts[i - 1], v)
  }

  function TakenNow(r: Rank, a: Action, v: nat): seq<Item> {
    if a == Take(v) && r.queue != [] then [r.queue[0]] else []
  }

  lemma StepQueue(p: Plan, s: seq<Rank>, s': seq<Rank>, a: Action, v: nat)
    requires p.Valid() && Stepped(p, s, s', a) && v < p.n
    ensures s[v].queue + AddedNow(s[v], a, v) == TakenNow(s[v], a, v) + s'[v].queue
    ensures forall it: Item :: Has(s'[v], it) <==> Has(s[v], it) || it in AddedNow(s[v], a, v)
  {
    if a == Take(v) {
      var q := s[v].queue;
      assert q == [q[0]] + q[1..];
    }
  }

  lemma AddsNew(p: Plan, s: seq<Rank>, s': seq<Rank>, a: Action, v: nat)
    requires p.Valid() && Inv(p, s) && Stepped(p, s, s', a) && v < p.n
    ensures |AddedNow(s[v], a, v)| <= 1 && forall it: Item :: it in AddedNow(s[v], a, v) ==> !Has(s[v], it)
  {
    assert RankOk(p, v, s[v]);
  }

  lemma OneMoreDistinct<T>(xs: seq<T>, ys: seq<T>)
    requires Distinct(xs) && |ys| <= 1 && forall y :: y in ys ==> y !in xs
    ensures Distinct(xs + ys)
  {
    if ys != [] { assert ys == [ys[0]] && ys[0] in ys; }
  }

  /** At most `m` tasks run at a time. */
  lemma AtMostMRunning(p: Plan, tr: seq<seq<Rank>>, acts: seq<Action>, i: nat, v: nat)
    requires p.Valid() && Run(p, tr, acts) && i < |tr| && v < p.n
    ensures v < |tr[i]| && |tr[i][v].running| <= p.m
  {
    RunInv(p, tr, acts, i);
    assert RankOk(p, v, tr[i][v]);
  }

  /** Workers take the tasks in the order in which they were added. */
  lemma {:induction false} PoolIsFifo(p: Plan, tr: seq<seq<Rank>>, acts: seq<Action>, i: nat, v: nat)
    requires p.Valid() && Run(p, tr, acts) && i <= |acts| && v < p.n
    ensures v < |tr[i]| && Added(p, tr, acts, i, v) == Taken(p, tr, acts, i, v) + tr[i][v].queue
    decreases i
  {
    if i > 0 {
      var j := i - 1;
      PoolIsFifo(p, tr, acts, j, v);
      assert Stepped(p, tr[j], tr[i], acts[j]);
      StepQueue(p, tr[j], tr[i], acts[j], v);
      Regroup(Added(p, tr, acts, j, v), Taken(p, tr, acts, j, v), tr[j][v].queue,
              AddedNow(tr[j][v], acts[j], v), TakenNow(tr[j][v], acts[j], v), tr[i][v].queue);
    }
  }

  /** The list names each task the rank has ever had, and names it once. */
  ghost predicate EachOnce(r: Rank, added: seq<Item>) {
    Distinct(added) && forall it: Item :: it in added <==> Has(r, it)
  }

  lemma AddStep(p: Plan, s: seq<Rank>, s': seq<Rank>, a: Action, v: nat, added: seq<Item>)
    requires p.Valid() && Inv(p, s) && Stepped(p, s, s', a) && v < p.n
    requires EachOnce(s[v], added)
    ensures EachOnce(s'[v], added + AddedNow(s[v], a, v))
  {
    StepQueue(p, s, s', a, v);
    AddsNew(p, s, s', a, v);
    OneMoreDistinct(added, AddedNow(s[v], a, v));
  }

  /** No task is added twice. */
  lemma {:induction false} AddedOnce(p: Plan, tr: seq<seq<Rank>>, acts: seq<Action>, i: nat, v: nat)
    requires p.Valid() && Run(p, tr, acts) && i <= |acts| && v < p.n
    ensures v < |tr[i]| && EachOnce(tr[i][v], Added(p, tr, acts, i, v))
    decreases i
  {
    if i > 0 {
      var j := i - 1;
      AddedOnce(p, tr, acts, j, v);
      RunInv(p, tr, acts, j);
      assert Stepped(p, tr[j], tr[i], acts[j]);
      AddStep(p, tr[j], tr[i], acts[j], v, Added(p, tr, acts, j, v));
    }
  }

  // ---------------------------------------------------------------- the steps of a chunk

  /** The graphs of chunk `j` have a row for every rank. */
  ghost predicate HasRows(p: Plan, j: nat)
    requires j < |p.gps|
  {
    var gp := p.gps[j];
    |gp.reduce.nexts| == |gp.reduce.prevs| == |gp.bcast.nexts| == |gp.bcast.prevs| == p.n
  }

  /** The four steps of chunk `j` at rank `v`: all its children have been received from, its reduce
      parents sent to, the broadcast is here, its broadcast children have been sent to. */
  ghost predicate ReceivedAll(p: Plan, s: seq<Rank>, v: nat, j: nat)
    requires v < p.n && |s| == p.n && j < |p.gps| && HasRows(p, j)
  {
    forall u :: u in p.gps[j].reduce.prevs[v] ==> u < p.n && Recv(j, u) in s[v].done && SendReduce(j, v) in s[u].done
  }

  ghost predicate SentUp(p: Plan, s: seq<Rank>, v: nat, j: nat)
    requires v < p.n && |s| == p.n && j < |p.gps| && HasRows(p, j)
  {
    forall d :: d in p.gps[j].reduce.nexts[v] ==> SendReduce(j, d) in s[v].done
  }

  ghost predicate IsHere(p: Plan, s: seq<Rank>, v: nat, j: nat)
    requires v < p.n && |s| == p.n && j < |p.gps| && HasRows(p, j)
  {
    forall u :: u in p.gps[j].bcast.prevs[v] ==> u < p.n && SendBcast(j, v) in s[u].done
  }

  ghost predicate SentDown(p: Plan, s: seq<Rank>, v: nat, j: nat)
    requires v < p.n && |s| == p.n && j < |p.gps| && HasRows(p, j)
  {
    forall d :: d in p.gps[j].bcast.nexts[v] ==> SendBcast(j, d) in s[v].done
  }

  lemma RowsThere(p: Plan, j: nat)
    requires p.Valid() && j < |p.gps|
    ensures HasRows(p, j)
    ensures forall v: nat, u :: v < p.n && u in p.gps[j].reduce.prevs[v] ==> u < p.n
    ensures forall v: nat, u :: v < p.n && u in p.gps[j].bcast.prevs[v] ==> u < p.n
  {
    var up := p.gps[j].bcast.prevs;
    assert TreePair(p.gps[j], p.n, p.roots[j], p.rdepth[j], p.bdepth[j]);
    forall v: nat, u | v < p.n && u in up[v] ensures u < p.n {
      assert v != p.roots[j] ==> ParentOk(p.n, v, up, p.bdepth[j]) && u == up[v][0];
    }
  }

  lemma RecvsAre(p: Plan, s: seq<Rank>, v: nat, j: nat)
    requires p.Valid() && Placed(p, s) && v < p.n && j < |p.gps| && HasRows(p, j) && RecvsDone(p, s, v, j)
    ensures ReceivedAll(p, s, v, j)
  {
    RowsThere(p, j);
    forall u | u in p.gps[j].reduce.prevs[v]
      ensures u < p.n && Recv(j, u) in s[v].done && SendReduce(j, v) in s[u].done
    {
      assert IsLeaf(p, v, Recv(j, u));
      assert Ordered(p, s, v) && CanFinish(p, s, v, Recv(j, u));
    }
  }

  lemma SendsAre(p: Plan, s: seq<Rank>, v: nat, j: nat)
    requires p.Valid() && |s| == p.n && v < p.n && j < |p.gps| && HasRows(p, j)
    ensures ReduceDone(p, s, v, j) ==> SentUp(p, s, v, j)
    ensures (forall x: Item :: x.SendBcast? && x.j == j && IsLeaf(p, v, x) ==> x in s[v].done) ==> SentDown(p, s, v, j)
  {
    if ReduceDone(p, s, v, j) {
      forall d | d in p.gps[j].reduce.nexts[v] ensures SendReduce(j, d) in s[v].done {
        assert IsLeaf(p, v, SendReduce(j, d));
      }
    }
    if forall x: Item :: x.SendBcast? && x.j == j && IsLeaf(p, v, x) ==> x in s[v].done {
      forall d | d in p.gps[j].bcast.nexts[v] ensures SendBcast(j, d) in s[v].done {
        assert IsLeaf(p, v, SendBcast(j, d));
      }
    }
  }

  lemma HereIs(p: Plan, s: seq<Rank>, v: nat, j: nat)
    requires p.Valid() && |s| == p.n && v < p.n && j < |p.gps| && HasRows(p, j) && Arrived(p, s, v, j)
    ensures IsHere(p, s, v, j)
  {
    RowsThere(p, j);
  }

  /** The tasks of a chunk at a rank, in the order of the code: receives from the children, which
      end after the child's send; then the reduce sends; then, when the broadcast is there, the
      broadcast sends; and the chunk ends after all of them. */
  lemma StepsInOrder(p: Plan, tr: seq<seq<Rank>>, acts: seq<Action>, k: nat, v: nat, j: nat, d: nat)
    requires p.Valid() && Run(p, tr, acts) && k < |tr| && v < p.n && j < |p.gps|
    ensures |tr[k]| == p.n && HasRows(p, j)
    ensures Has(tr[k][v], Recv(j, d)) ==> d in p.gps[j].reduce.prevs[v]
    ensures Recv(j, d) in tr[k][v].done ==> d < p.n && SendReduce(j, v) in tr[k][d].done
    ensures Has(tr[k][v], SendReduce(j, d)) ==> d in p.gps[j].reduce.nexts[v] && ReceivedAll(p, tr[k], v, j)
    ensures Has(tr[k][v], SendBcast(j, d)) ==>
            && d in p.gps[j].bcast.nexts[v] && ReceivedAll(p, tr[k], v, j)
            && SentUp(p, tr[k], v, j) && IsHere(p, tr[k], v, j)
    ensures Chunk(j) in tr[k][v].done ==>
            && ReceivedAll(p, tr[k], v, j) && SentUp(p, tr[k], v, j)
            && IsHere(p, tr[k], v, j) && SentDown(p, tr[k], v, j)
  {
    RunPlaced(p, tr, acts, k);
    RowsThere(p, j);
    var s := tr[k];
    assert RankOk(p, v, s[v]) && Ordered(p, s, v);
    if Has(s[v], SendReduce(j, d)) { RecvsAre(p, s, v, j); }
    if Has(s[v], SendBcast(j, d)) {
      RecvsAre(p, s, v, j);
      SendsAre(p, s, v, j);
      HereIs(p, s, v, j);
    }
    if Chunk(j) in s[v].done {
      RecvsAre(p, s, v, j);
      SendsAre(p, s, v, j);
      HereIs(p, s, v, j);
    }
  }

  /** The four steps, as the tasks that have been done. */
  lemma StepsAreTasks(p: Plan, s: seq<Rank>, v: nat, j: nat)
    requires p.Valid() && Placed(p, s) && v < p.n && j < |p.gps|
    ensures HasRows(p, j)
    ensures RecvsDone(p, s, v, j) <==> ReceivedAll(p, s, v, j)
    ensures ReduceDone(p, s, v, j) <==> ReceivedAll(p, s, v, j) && SentUp(p, s, v, j)
    ensures Arrived(p, s, v, j) <==> IsHere(p, s, v, j)
  {
    RowsThere(p, j);
    if RecvsDone(p, s, v, j) { RecvsAre(p, s, v, j); }
    SendsAre(p, s, v, j);
  }

  lemma AddIsDue(p: Plan, s: seq<Rank>, v: nat, j: nat, d: nat)
    requires p.Valid() && Placed(p, s) && v < p.n && j < |p.gps|
    ensures HasRows(p, j)
    ensures Enabled(p, s, Add(v, Recv(j, d))) <==>
            Chunk(j) in s[v].running && d in p.gps[j].reduce.prevs[v] && !Has(s[v], Recv(j, d))
    ensures Enabled(p, s, Add(v, SendReduce(j, d))) <==>
            && Chunk(j) in s[v].running && d in p.gps[j].reduce.nexts[v] && !Has(s[v], SendReduce(j, d))
            && ReceivedAll(p, s, v, j)
    ensures Enabled(p, s, Add(v, SendBcast(j, d))) <==>
            && Chunk(j) in s[v].running && d in p.gps[j].bcast.nexts[v] && !Has(s[v], SendBcast(j, d))
            && ReceivedAll(p, s, v, j) && SentUp(p, s, v, j) && IsHere(p, s, v, j)
  {
    StepsAreTasks(p, s, v, j);
  }

  lemma EndIsDue(p: Plan, s: seq<Rank>, v: nat, j: nat)
    requires p.Valid() && Placed(p, s) && v < p.n && j < |p.gps|
    ensures HasRows(p, j)
    ensures Enabled(p, s, Finish(v, Chunk(j))) <==>
            && Chunk(j) in s[v].running && ReceivedAll(p, s, v, j) && SentUp(p, s, v, j)
            && IsHere(p, s, v, j) && SentDown(p, s, v, j)
  {
    StepsAreTasks(p, s, v, j);
    SendsAre(p, s, v, j);
  }

  /** In every reachable state, what the task of a running chunk can do next is exactly this. */
  lemma ExactlyWhatIsDue(p: Plan, tr: seq<seq<Rank>>, acts: seq<Action>, k: nat, v: nat, j: nat, d: nat)
    requires p.Valid() && Run(p, tr, acts) && k < |tr| && v < p.n && j < |p.gps|
    ensures |tr[k]| == p.n && HasRows(p, j)
    ensures Enabled(p, tr[k], Add(v, Recv(j, d))) <==>
            && Chunk(j) in tr[k][v].running && d in p.gps[j].reduce.prevs[v] && !Has(tr[k][v], Recv(j, d))
    ensures Enabled(p, tr[k], Add(v, SendReduce(j, d))) <==>
            && Chunk(j) in tr[k][v].running && d in p.gps[j].reduce.nexts[v] && !Has(tr[k][v], SendReduce(j, d))
            && ReceivedAll(p, tr[k], v, j)
    ensures Enabled(p, tr[k], Add(v, SendBcast(j, d))) <==>
            && Chunk(j) in tr[k][v].running && d in p.gps[j].bcast.nexts[v] && !Has(tr[k][v], SendBcast(j, d))
            && ReceivedAll(p, tr[k], v, j) && SentUp(p, tr[k], v, j) && IsHere(p, tr[k], v, j)
    ensures Enabled(p, tr[k], Finish(v, Chunk(j))) <==>
            && Chunk(j) in tr[k][v].running && ReceivedAll(p, tr[k], v, j) && SentUp(p, tr[k], v, j)
            && IsHere(p, tr[k], v, j) && SentDown(p, tr[k], v, j)
  {
    RunPlaced(p, tr, acts, k);
    AddIsDue(p, tr[k], v, j, d);
    EndIsDue(p, tr[k], v, j);
  }

  /** As with one thread per peer, a chunk ends at a rank only after every rank has left the
      chunk's reduce stage. */
  lemma ChunkIsBarrier<T>(q: AR.Plan<T>, m: nat, tr: seq<seq<Rank>>, acts: seq<Action>, k: nat, v: nat, u: nat, j: nat)
    requires q.Valid() && m >= 1 && Run(Pooled(q, m), tr, acts) && k < |tr| && v < q.n && u < q.n && j < |q.xs|
    ensures |tr[k]| == q.n && HasRows(Pooled(q, m), j)
    ensures Chunk(j) in tr[k][v].done ==> ReceivedAll(Pooled(q, m), tr[k], u, j) && SentUp(Pooled(q, m), tr[k], u, j)
  {
    var p, s := Pooled(q, m), tr[k];
    RunPlaced(p, tr, acts, k);
    RowsThere(p, j);
    if Chunk(j) in s[v].done {
      AR.RootInRange(q, j);
      assert Ordered(p, s, v) && CanFinish(p, s, v, Chunk(j));
      if v != q.Root(j) {
        ArrivedIsReached(q, m, s, v, j);
        BcastAfterReduce(q, m, s, q.BParent(j, v), v, j);
      }
      AllReduced(q, m, s, u, j);
      RecvsAre(p, s, u, j);
      SendsAre(p, s, u, j);
    }
  }
}
