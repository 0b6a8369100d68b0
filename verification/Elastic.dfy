/** Elastic membership: the agreement loop of `peer::resize`, the session replacement, and
    `elastic_state` with its progress counter, over whole runs. */
module Elastic {
  import opened Basics
  import opened Folds
  import opened Topology
  import opened Sessions
  import opened Clusters
  import opened Consistency
  import AR = AllReduce
  import ARP = AllReduceProgress

  // ---------------------------------------------------------------- the agreement loop

  function ValueOr(answer: Option<Config>, previous: Config): Config {
    if answer.Some? then answer.value else previous
  }

  /** A rank with these provider answers and these results of `consistent` leaves the loop in
      iteration `t` with `c`. */
  ghost predicate LeavesWith(previous: Config, answers: seq<Option<Config>>, verdicts: seq<bool>, t: nat, c: Config) {
    && t < |verdicts| && t < |answers| && verdicts[t] && (forall s :: 0 <= s < t ==> !verdicts[s])
    && c == ValueOr(answers[t], previous)
  }

  /** The loop at one rank, as far as the provider was asked. */
  method Agree(previous: Config, answers: seq<Option<Config>>, verdicts: seq<bool>)
    returns (t: nat, agreed: Option<Config>)
    requires |answers| == |verdicts|
    ensures agreed.Some? ==> t < |answers| && verdicts[t] && forall s :: 0 <= s < t ==> !verdicts[s]
    ensures agreed.Some? && answers[t] == None ==> agreed.value == previous
    ensures agreed.Some? && answers[t] != None ==> answers[t] == Some(agreed.value)
    ensures forall u: nat, c :: LeavesWith(previous, answers, verdicts, u, c) <==> agreed == Some(c) && u == t
    ensures agreed.None? ==> forall s :: 0 <= s < |verdicts| ==> !verdicts[s]
  {
    t := 0;
    while t < |answers|
      invariant t <= |answers| && forall s :: 0 <= s < t ==> !verdicts[s]
    {
      var config := ValueOr(answers[t], previous);
      if verdicts[t] {
        return t, Some(config);
      }
      t := t + 1;
    }
    agreed := None;
  }

  /** All the ranks of one session in the loop: what each provider answered in each iteration,
      and the run of `consistent` in each. */
  datatype Loop = Loop(answers: seq<seq<Option<Config>>>, traces: seq<seq<seq<Rank>>>)
  {
    ghost predicate Shape(n: nat) {
      |answers| == n && traces != [] && (forall v :: 0 <= v < n ==> |answers[v]| == |traces|)
      && forall t :: 0 <= t < |traces| ==> traces[t] != [] && |traces[t][|traces[t]| - 1]| == n
    }
    function Last(t: nat): seq<Rank>
      requires t < |traces| && traces[t] != []
    {
      traces[t][|traces[t]| - 1]
    }
    /** What rank `v` was told, iteration by iteration. */
    ghost function Verdicts(n: nat, v: nat): (b: seq<bool>)
      requires Shape(n) && v < n
      ensures |b| == |traces|
    {
      seq(|traces|, t requires 0 <= t < |traces| => Last(t)[v].pc == Answer(true))
    }
  }

  /** What all the ranks pass to `consistent` in iteration `t`. */
  function Digests(previous: Config, answers: seq<seq<Option<Config>>>, t: nat): (d: seq<seq<int>>)
    requires forall v :: 0 <= v < |answers| ==> t < |answers[v]|
    ensures |d| == |answers| && forall v :: 0 <= v < |d| ==> d[v] == ToBytes(ValueOr(answers[v][t], previous))
  {
    seq(|answers|, v requires 0 <= v < |answers| => ToBytes(ValueOr(answers[v][t], previous)))
  }

  ghost predicate Iteration(s: Session, previous: Config, l: Loop, t: nat)
    requires s.Valid() && l.Shape(s.n) && t < |l.traces|
  {
    && Run(s, Digests(previous, l.answers, t), l.traces[t]) && !CanStep(s, l.Last(t))
    && forall v :: 0 <= v < s.n ==> Countable(ValueOr(l.answers[v][t], previous))
  }

  /** Every iteration runs `consistent` to its end, and there is a next one only when it told
      every rank to stay. */
  ghost predicate LoopRun(s: Session, previous: Config, l: Loop)
    requires s.Valid()
  {
    && l.Shape(s.n) && (forall t: nat :: t < |l.traces| ==> Iteration(s, previous, l, t))
    && forall t: nat, v: nat :: t < |l.traces| - 1 && v < s.n ==> Stays(l, t, v)
  }

  ghost predicate Stays(l: Loop, t: nat, v: nat)
    requires t < |l.traces| && l.traces[t] != [] && v < |l.Last(t)|
  {
    l.Last(t)[v].pc == Answer(false)
  }

  /** The configuration rank `v` proposed in the last iteration. */
  function Proposed(previous: Config, l: Loop, v: nat): Config
    requires v < |l.answers| && l.answers[v] != []
  {
    ValueOr(l.answers[v][|l.answers[v]| - 1], previous)
  }

  /** Rank `v` is told to leave in the last iteration. */
  ghost predicate Leaves(l: Loop, v: nat) {
    l.traces != [] && l.traces[|l.traces| - 1] != [] &&
    var last: seq<Rank> := l.Last(|l.traces| - 1);
    v < |last| && last[v].pc == Answer(true)
  }

  ghost predicate AllLeave(s: Session, l: Loop) {
    forall v: nat :: v < s.n ==> Leaves(l, v)
  }

  lemma LeavesInLast(s: Session, previous: Config, l: Loop, v: nat, t: nat, c: Config)
    requires s.Valid() && LoopRun(s, previous, l) && v < s.n
    ensures LeavesWith(previous, l.answers[v], l.Verdicts(s.n, v), t, c) <==>
            t == |l.traces| - 1 && Leaves(l, v) && c == Proposed(previous, l, v)
  {
    forall t: nat | t < |l.traces| - 1 ensures !l.Verdicts(s.n, v)[t] { assert Stays(l, t, v); }
  }

  lemma SameDigests(s: Session, previous: Config, l: Loop, u: nat, v: nat, ds: seq<seq<int>>)
    requires s.Valid() && LoopRun(s, previous, l) && u < s.n && v < s.n
    requires ds == Digests(previous, l.answers, |l.traces| - 1) && ds[u] == ds[v]
    ensures Proposed(previous, l, u) == Proposed(previous, l, v)
  {
    assert Iteration(s, previous, l, |l.traces| - 1);
    DigestsAgree(Proposed(previous, l, u), Proposed(previous, l, v));
  }

  /** On any session: if all the ranks leave the loop, they leave with one configuration. */
  lemma AllLeaveWithOne(s: Session, previous: Config, l: Loop, u: nat, v: nat)
    requires s.Valid() && LoopRun(s, previous, l) && u < s.n && v < s.n && AllLeave(s, l)
    ensures Proposed(previous, l, u) == Proposed(previous, l, v)
  {
    var t := |l.traces| - 1;
    assert Iteration(s, previous, l, t);
    var ds, last := Digests(previous, l.answers, t), l.Last(t);
    forall v | 0 <= v < s.n ensures last[v].pc == Answer(true) { assert Leaves(l, v); }
    UnanimousYes(s, ds, l.traces[t], last);
    SameDigests(s, previous, l, u, v, ds);
  }

  /** Whenever one rank leaves, every rank leaves in the same iteration with the same cluster. */
  ghost predicate LeaveTogether(s: Session)
    requires s.Valid()
  {
    forall previous: Config, l: Loop :: LoopRun(s, previous, l) ==> TogetherIn(s, previous, l)
  }

  ghost predicate TogetherIn(s: Session, previous: Config, l: Loop)
    requires s.Valid() && LoopRun(s, previous, l)
  {
    forall u: nat, v: nat, t: nat, c: Config :: u < s.n && v < s.n ==> Follows(s, previous, l, u, v, t, c)
  }

  ghost predicate Follows(s: Session, previous: Config, l: Loop, u: nat, v: nat, t: nat, c: Config)
    requires s.Valid() && LoopRun(s, previous, l) && u < s.n && v < s.n
  {
    LeavesWith(previous, l.answers[u], l.Verdicts(s.n, u), t, c) ==>
      LeavesWith(previous, l.answers[v], l.Verdicts(s.n, v), t, c)
  }

  lemma TrustyVerdict(s: Session, previous: Config, l: Loop, u: nat, v: nat)
    requires s.Valid() && Trusty(s) && LoopRun(s, previous, l) && u < s.n && v < s.n && Leaves(l, u)
    ensures Leaves(l, v) && Proposed(previous, l, u) == Proposed(previous, l, v)
  {
    var t := |l.traces| - 1;
    assert Iteration(s, previous, l, t);
    var ds := Digests(previous, l.answers, t);
    TrustyYes(s, ds, l.traces[t], l.Last(t), u, v);
    SameDigests(s, previous, l, u, v, ds);
  }

  lemma TrustyFollows(s: Session, previous: Config, l: Loop, u: nat, v: nat, t: nat, c: Config)
    requires s.Valid() && Trusty(s) && LoopRun(s, previous, l) && u < s.n && v < s.n
    ensures Follows(s, previous, l, u, v, t, c)
  {
    LeavesInLast(s, previous, l, u, t, c);
    LeavesInLast(s, previous, l, v, t, c);
    if Leaves(l, u) { TrustyVerdict(s, previous, l, u, v); }
  }

  // ---------------------------------------------------------------- a ring can come apart in the loop

  function OneWorker(port: Port): Config { Config([], [PeerId(0, port)]) }

  /** Rank 0 proposes one configuration and the others another, that differ in one byte. */
  function SplitAnswers(n: nat): seq<seq<Option<Config>>> {
    seq(n, v => [Some(OneWorker(if v == 0 then 0 else 1))])
  }

  lemma OneByteApart(n: nat)
    requires n >= 2
    ensures var ds := Digests(Config([], []), SplitAnswers(n), 0);
            SameSizes(ds) && |ds[0]| == 14 && !AllSame(ds) && forall i: nat :: i < 14 && !SameAt(ds, i) ==> i == 12
  {
    var ds := Digests(Config([], []), SplitAnswers(n), 0);
    OneWorkerBytes(0);
    OneWorkerBytes(1);
    assert ds[0] == ToBytes(OneWorker(0)) && ds[1] == ToBytes(OneWorker(1));
    assert ds[0][12] == 0 && ds[1][12] == 1;
  }

  lemma OneWorkerBytes(port: Port)
    requires port < 256
    ensures ToBytes(OneWorker(port)) == [0, 0, 0, 0, 1, 0, 0, 0, 0, 0, 0, 0, port, 0]
  {
    var c := OneWorker(port);
    assert PeersBytes(c.workers) == PeerBytes(c.workers[0]) + PeersBytes([]);
  }

  /** Only the ranks that do not see that byte leave. */
  lemma SplitVerdict(s: Session, tr: seq<seq<Rank>>, v: nat)
    requires s.Valid() && s.n >= 2 && v < s.n
    requires var ds := Digests(Config([], []), SplitAnswers(s.n), 0);
             Run(s, ds, tr) && !CanStep(s, tr[|tr| - 1])
    ensures |tr[|tr| - 1]| == s.n
    ensures tr[|tr| - 1][v].pc == Answer(!Sees(s, s.byteRoot(14, 12), v))
  {
    var ds := Digests(Config([], []), SplitAnswers(s.n), 0);
    OneByteApart(s.n);
    FinishedAnswers(s, ds, tr);
    EachAnswer(s, ds, tr, v);
    if SameAt(ds, 12) { SameAtAll(ds); }
  }

  lemma SplitLoop(s: Session, tr: seq<seq<Rank>>)
    requires s.Valid() && s.n >= 2
    requires var ds := Digests(Config([], []), SplitAnswers(s.n), 0);
             Run(s, ds, tr) && !CanStep(s, tr[|tr| - 1])
    ensures LoopRun(s, Config([], []), Loop(SplitAnswers(s.n), [tr]))
  {
    var l := Loop(SplitAnswers(s.n), [tr]);
    SplitVerdict(s, tr, 0);
    assert l.Last(0) == tr[|tr| - 1] && l.Shape(s.n);
    forall v | 0 <= v < s.n ensures Countable(ValueOr(l.answers[v][0], Config([], []))) {
      assert ValueOr(l.answers[v][0], Config([], [])) == OneWorker(if v == 0 then 0 else 1);
    }
    assert Iteration(s, Config([], []), l, 0);
  }

  lemma RingLeavesApart(s: Session) returns (l: Loop)
    requires s.Valid() && s.n >= 2
    ensures LoopRun(s, Config([], []), l) && |l.traces| == 1
    ensures forall v: nat :: v < s.n ==> (Leaves(l, v) <==> !Sees(s, s.byteRoot(14, 12), v))
  {
    var previous, answers := Config([], []), SplitAnswers(s.n);
    var ds := Digests(previous, answers, 0);
    var tr := Finish(s, ds, [Start(ds)]);
    l := Loop(answers, [tr]);
    SplitLoop(s, tr);
    forall v: nat | v < s.n ensures Leaves(l, v) <==> !Sees(s, s.byteRoot(14, 12), v) {
      SplitVerdict(s, tr, v);
    }
  }

  lemma FinishedAnswers(s: Session, inputs: seq<seq<int>>, tr: seq<seq<Rank>>)
    requires s.Valid() && |inputs| == s.n && Run(s, inputs, tr) && SameSizes(inputs) && !CanStep(s, tr[|tr| - 1])
    ensures Answered(s, tr[|tr| - 1])
  {
    var i := |tr| - 1;
    RunIs(s, inputs, tr, i);
    if i <= 1 {
      SizeStep(s, inputs, tr[i], i);
    } else {
      SameSizesGoOn(s, inputs, tr[i], i);
    }
  }

  /** All ranks leave the loop in the same iteration with the same cluster, for every answer of
      every provider, if and only if the session is a star or has at most two ranks. */
  lemma LeaveTogetherIsExact(s: Session)
    requires s.Valid()
    ensures LeaveTogether(s) <==> Trusty(s)
  {
    if Trusty(s) {
      forall previous: Config, l: Loop | LoopRun(s, previous, l) ensures TogetherIn(s, previous, l) {
        forall u: nat, v: nat, t: nat, c: Config | u < s.n && v < s.n ensures Follows(s, previous, l, u, v, t, c) {
          TrustyFollows(s, previous, l, u, v, t, c);
        }
      }
    } else {
      var l := RingLeavesApart(s);
      NotTogether(s, l);
    }
  }

  lemma NotTogether(s: Session, l: Loop)
    requires s.Valid() && !Trusty(s) && LoopRun(s, Config([], []), l) && |l.traces| == 1
    requires forall v: nat :: v < s.n ==> (Leaves(l, v) <==> !Sees(s, s.byteRoot(14, 12), v))
    ensures !TogetherIn(s, Config([], []), l)
  {
    var r, previous := s.byteRoot(14, 12), Config([], []);
    TrustyIsExact(s, r);
    var u: nat :| u < s.n && !Sees(s, r, u);
    var c := Proposed(previous, l, u);
    assert Sees(s, r, r) && Leaves(l, u) && !Leaves(l, r);
    LeavesInLast(s, previous, l, u, 0, c);
    LeavesInLast(s, previous, l, r, 0, c);
    assert !Follows(s, previous, l, u, r, 0, c);
  }

  // ---------------------------------------------------------------- ranks

  /** `peer_list::rank`: the first position, or the length. */
  function RankOf(ps: seq<PeerId>, id: PeerId): (r: nat)
    ensures r <= |ps| && (r < |ps| ==> ps[r] == id) && (r < |ps| <==> id in ps)
    ensures forall i :: 0 <= i < r ==> ps[i] != id
  {
    if ps == [] || ps[0] == id then 0 else
      assert forall i :: 0 < i < |ps| ==> ps[i] == ps[1..][i - 1];
      1 + RankOf(ps[1..], id)
  }

  /** `peer_list::operator-`. */
  function Without(ps: seq<PeerId>, qs: seq<PeerId>): seq<PeerId> {
    if ps == [] then [] else Without(ps[..|ps| - 1], qs) + if ps[|ps| - 1] in qs then [] else [ps[|ps| - 1]]
  }

  /** A list without the members of another, each of the rest as often as before. */
  lemma {:induction false} WithoutCounts(ps: seq<PeerId>, qs: seq<PeerId>, id: PeerId)
    ensures multiset(Without(ps, qs))[id] == if id in qs then 0 else multiset(ps)[id]
    decreases |ps|
  {
    if ps != [] {
      var rest := ps[..|ps| - 1];
      assert ps == rest + [ps[|ps| - 1]];
      WithoutCounts(rest, qs, id);
    }
  }

  /** And in the same order. */
  lemma {:induction false} WithoutConcat(a: seq<PeerId>, b: seq<PeerId>, qs: seq<PeerId>)
    ensures Without(a + b, qs) == Without(a, qs) + Without(b, qs)
    decreases |b|
  {
    if b == [] {
      assert a + b == a;
    } else {
      assert (a + b)[..|a + b| - 1] == a + b[..|b| - 1];
      WithoutConcat(a, b[..|b| - 1], qs);
    }
  }

  // ---------------------------------------------------------------- one rank

  datatype Member = Member(version: nat, cluster: Config, progress: int, synced: bool, detached: bool)

  function Joiner(version: nat, c: Config): Member { Member(version, c, 0, false, false) }

  function Synced(m: Member, reduced: int): Member {
    if m.synced then m else m.(progress := reduced, synced := true)
  }

  function Resized(m: Member, self: PeerId, c: Config): Member {
    if c == m.cluster then m
    else if self in c.workers then m.(version := m.version + 1, cluster := c, synced := false)
    else m.(detached := true, synced := false)
  }

  function Advanced(m: Member, self: PeerId, reduced: int, c: Config): Member {
    var s := Synced(m, reduced);
    Resized(s.(progress := s.progress + 1), self, c)
  }

  datatype ResizeResult = ResizeResult(changed: bool, detached: bool)

  /** `elastic_state` and the session its `sess_` points to. `reduced` is what the all-reduce
      of the current session returned, `agreed` what the agreement loop returned. */
  class ElasticState {
    const self: PeerId
    const maxProgress: Option<int>
    var version: nat
    var cluster: Config
    var progress: int
    var synced: bool
    var detached: bool

    constructor (self: PeerId, version: nat, cluster: Config, maxProgress: Option<int>)
      ensures State() == Joiner(version, cluster) && this.self == self && this.maxProgress == maxProgress
    {
      this.self, this.version, this.cluster, this.maxProgress := self, version, cluster, maxProgress;
      progress, synced, detached := 0, false, false;
    }

    function State(): Member
      reads this
    {
      Member(version, cluster, progress, synced, detached)
    }

    method Sync(reduced: int)
      modifies this
      ensures State() == Synced(old(State()), reduced)
      ensures old(synced) ==> State() == old(State())
      ensures !old(synced) ==> State() == old(State()).(progress := reduced, synced := true)
    {
      if !synced {
        progress := reduced;
        synced := true;
      }
    }

    /** `peer::resize` after the loop. */
    method PeerResize(agreed: Config) returns (result: ResizeResult, dropped: seq<PeerId>)
      modifies this`version, this`cluster
      ensures result.changed <==> agreed != old(cluster)
      ensures result.detached <==> agreed != old(cluster) && self !in agreed.workers
      ensures if result.changed && !result.detached
              then version == old(version) + 1 && cluster == agreed
                   && dropped == Without(old(cluster).workers, agreed.workers)
              else version == old(version) && cluster == old(cluster)
    {
      dropped := [];
      if cluster == agreed {
        return ResizeResult(false, false), dropped;
      }
      result := ResizeResult(true, RankOf(agreed.workers, self) >= |agreed.workers|);
      var newVersion := version + 1;
      if result.detached {
        return;
      }
      dropped := Without(cluster.workers, agreed.workers);
      version, cluster := newVersion, agreed;
    }

    method CheckResize(agreed: Config)
      modifies this
      ensures State() == Resized(old(State()), self, agreed)
      ensures progress == old(progress)
      ensures agreed == old(cluster) ==> State() == old(State())
      ensures agreed != old(cluster) ==> !synced
      ensures agreed != old(cluster) && self in agreed.workers ==>
                version == old(version) + 1 && cluster == agreed && detached == old(detached)
      ensures agreed != old(cluster) && self !in agreed.workers ==>
                version == old(version) && cluster == old(cluster) && detached
    {
      var result, _ := PeerResize(agreed);
      if result.detached {
        detached := true;
      }
      if result.changed {
        synced := false;
      }
    }

    method Increment(reduced: int, agreed: Config)
      modifies this
      ensures State() == Advanced(old(State()), self, reduced, agreed)
      ensures progress == (if old(synced) then old(progress) else reduced) + 1
      ensures synced <==> agreed == old(cluster)
      ensures version == old(version) + if agreed != old(cluster) && self in agreed.workers then 1 else 0
      ensures cluster == if self in agreed.workers then agreed else old(cluster)
      ensures detached <==> old(detached) || (agreed != old(cluster) && self !in agreed.workers)
    {
      Sync(reduced);
      progress := progress + 1;
      CheckResize(agreed);
    }

    method ShouldStop(reduced: int) returns (stop: bool)
      modifies this
      ensures State() == Synced(old(State()), reduced)
      ensures stop <==> detached || (maxProgress.Some? && progress >= maxProgress.value)
    {
      Sync(reduced);
      stop := detached || (maxProgress.Some? && progress >= maxProgress.value);
    }
  }

  // ---------------------------------------------------------------- the members of one session

  type Fleet = map<PeerId, Member>

  /** The session that a number of members forms. */
  type Net = nat -> Session

  ghost predicate NetOk(net: Net) {
    forall n: nat :: n >= 1 ==> net(n).n == n && net(n).Valid()
  }

  ghost function SessionOf(net: Net, c: Config): (s: Session)
    requires NetOk(net) && c.workers != []
    ensures s.Valid() && s.n == |c.workers|
  {
    net(|c.workers|)
  }

  /** Every worker of the cluster is there, in one session, and either all of them have
      synced or none has. */
  ghost predicate InSession(f: Fleet, version: nat, c: Config) {
    && c.workers != []
    && (forall id :: id in f <==> id in c.workers)
    && (forall id :: id in f ==> MemberOk(f[id], version, c))
    && (forall i, j :: i in f && j in f ==> f[i].synced == f[j].synced)
  }

  ghost predicate MemberOk(m: Member, version: nat, c: Config) {
    m.version == version && m.cluster == c && !m.detached
  }

  /** What the members pass to the all-reduce of `sync`, in rank order. */
  function Progresses(f: Fleet, c: Config): (ps: seq<seq<int>>)
    requires forall id :: id in c.workers ==> id in f
    ensures |ps| == |c.workers| && forall i :: 0 <= i < |ps| ==> |ps[i]| == 1 && ps[i][0] == f[c.workers[i]].progress
  {
    seq(|c.workers|, i requires 0 <= i < |c.workers| => [f[c.workers[i]].progress])
  }

  /** The largest of them. */
  function Top(f: Fleet, c: Config): int
    requires c.workers != [] && forall id :: id in c.workers ==> id in f
  {
    var ps := Progresses(f, c);
    FoldLength(Max, ps, 1);
    LeftFold(Zip(Apply(Max)), ps)[0]
  }

  /** What the all-reduce of `sync` delivers to one member. */
  ghost function Reduced(net: Net, f: Fleet, c: Config, id: PeerId): int
    requires NetOk(net) && c.workers != [] && forall id :: id in c.workers ==> id in f
  {
    var s := SessionOf(net, c);
    Delivered(s, Apply(Max), Progresses(f, c), 1, Roots(s, false, 1), RankOf(c.workers, id))[0]
  }

  /** The member whose progress the others of a ring end with. */
  ghost function Leader(net: Net, c: Config): (id: PeerId)
    requires NetOk(net) && c.workers != []
    ensures id in c.workers
  {
    var s := SessionOf(net, c);
    c.workers[First(s.n, s.oneRoot)]
  }

  ghost predicate SeesTop(net: Net, c: Config, id: PeerId)
    requires NetOk(net) && c.workers != []
  {
    var s := SessionOf(net, c);
    Sees(s, s.oneRoot, RankOf(c.workers, id))
  }

  lemma ReducedIs(net: Net, f: Fleet, c: Config, id: PeerId)
    requires NetOk(net) && c.workers != [] && forall id :: id in c.workers ==> id in f
    ensures Reduced(net, f, c, id) == if SeesTop(net, c, id) then Top(f, c) else f[Leader(net, c)].progress
  {
    FoldLength(Max, Progresses(f, c), 1);
  }

  lemma {:induction false} MaxFold(ps: seq<seq<int>>)
    requires ps != [] && forall i :: 0 <= i < |ps| ==> |ps[i]| == 1
    ensures |LeftFold(Zip(Apply(Max)), ps)| == 1 && LeftFold(Zip(Apply(Max)), ps) in ps
    decreases |ps|
  {
    if |ps| > 1 {
      var rest := ps[..|ps| - 1];
      MaxFold(rest);
      assert forall x :: x in rest ==> x in ps;
      var m, l := LeftFold(Zip(Apply(Max)), rest), ps[|ps| - 1];
      assert Zip(Apply(Max))(m, l) == if m[0] < l[0] then l else m;
    }
  }

  lemma TopIsLargest(f: Fleet, c: Config)
    requires c.workers != [] && forall id :: id in c.workers ==> id in f
    ensures forall id :: id in c.workers ==> f[id].progress <= Top(f, c)
    ensures exists id :: id in c.workers && f[id].progress == Top(f, c)
  {
    var ps := Progresses(f, c);
    MaxFold(ps);
    forall id | id in c.workers ensures f[id].progress <= Top(f, c) {
      FoldBounds(ps, 1, RankOf(c.workers, id), 0);
    }
    var i :| 0 <= i < |ps| && ps[i] == LeftFold(Zip(Apply(Max)), ps);
    assert f[c.workers[i]].progress == Top(f, c);
  }

  /** What a member holds after `sync`. */
  ghost function After(net: Net, f: Fleet, c: Config, id: PeerId): int
    requires NetOk(net) && c.workers != [] && (forall id :: id in c.workers ==> id in f) && id in f
  {
    Synced(f[id], Reduced(net, f, c, id)).progress
  }

  /** After `sync` every member holds `x`, and none held more before. */
  ghost predicate Even(net: Net, f: Fleet, c: Config, x: int)
    requires NetOk(net) && c.workers != [] && forall id :: id in c.workers ==> id in f
  {
    forall id :: id in c.workers ==> After(net, f, c, id) == x && f[id].progress <= x
  }

  /** Distinct members of a session have distinct ranks, all in range. */
  lemma RanksAreDistinct(f: Fleet, version: nat, c: Config, a: PeerId, b: PeerId)
    requires InSession(f, version, c) && a in f && b in f && a != b
    ensures RankOf(c.workers, a) < |c.workers| && RankOf(c.workers, b) < |c.workers|
    ensures RankOf(c.workers, a) != RankOf(c.workers, b)
  {
  }

  lemma {:induction false} RankOfAt(ps: seq<PeerId>, i: nat)
    requires i < |ps| && Distinct(ps)
    ensures RankOf(ps, ps[i]) == i
  {
    var r := RankOf(ps, ps[i]);
    assert ps[r] == ps[i];
  }

  lemma SomebodyBlind(net: Net, c: Config) returns (id: PeerId)
    requires NetOk(net) && c.workers != [] && Distinct(c.workers) && !Trusty(SessionOf(net, c))
    ensures id in c.workers && !SeesTop(net, c, id)
  {
    var s := SessionOf(net, c);
    TrustyIsExact(s, s.oneRoot);
    var v: nat :| v < s.n && !Sees(s, s.oneRoot, v);
    id := c.workers[v];
    RankOfAt(c.workers, v);
  }

  lemma AfterUnsynced(net: Net, f: Fleet, version: nat, c: Config, id: PeerId)
    requires NetOk(net) && InSession(f, version, c) && id in f && !f[id].synced
    ensures After(net, f, c, id) == if SeesTop(net, c, id) then Top(f, c) else f[Leader(net, c)].progress
    ensures Trusty(SessionOf(net, c)) ==> SeesTop(net, c, id)
  {
    ReducedIs(net, f, c, id);
  }

  lemma LeaderDecides(net: Net, f: Fleet, version: nat, c: Config, x: int)
    requires NetOk(net) && InSession(f, version, c) && (forall id :: id in f ==> !f[id].synced) && x == Top(f, c)
    ensures Trusty(SessionOf(net, c)) || f[Leader(net, c)].progress == x ==> Even(net, f, c, x)
    ensures Distinct(c.workers) && Even(net, f, c, x) ==> Trusty(SessionOf(net, c)) || f[Leader(net, c)].progress == x
  {
    TopIsLargest(f, c);
    if Trusty(SessionOf(net, c)) || f[Leader(net, c)].progress == x {
      forall id | id in c.workers ensures After(net, f, c, id) == x { AfterUnsynced(net, f, version, c, id); }
    } else if Distinct(c.workers) {
      var id := SomebodyBlind(net, c);
      AfterUnsynced(net, f, version, c, id);
    }
  }

  /** All members of a session that has not synced take the largest progress exactly when the
      session is a star, has at most two members, or the leader of its ring holds it. */
  lemma SyncIsExact(net: Net, f: Fleet, version: nat, c: Config)
    requires NetOk(net) && InSession(f, version, c) && Distinct(c.workers) && forall id :: id in f ==> !f[id].synced
    ensures Even(net, f, c, Top(f, c)) <==> Trusty(SessionOf(net, c)) || f[Leader(net, c)].progress == Top(f, c)
  {
    LeaderDecides(net, f, version, c, Top(f, c));
  }

  // ---------------------------------------------------------------- one round

  /** All members go through `operator++`: they sync, count, and leave the loop. */
  ghost predicate RoundOk(net: Net, f: Fleet, version: nat, c: Config, l: Loop)
    requires NetOk(net)
  {
    InSession(f, version, c) && LoopRun(SessionOf(net, c), c, l) && AllLeave(SessionOf(net, c), l)
  }

  /** The cluster they agreed on. */
  ghost function Next(net: Net, f: Fleet, version: nat, c: Config, l: Loop): Config
    requires NetOk(net) && RoundOk(net, f, version, c, l)
  {
    Proposed(c, l, 0)
  }

  /** One member after the round, with the cluster it left the loop with itself. */
  ghost function MemberNext(net: Net, f: Fleet, version: nat, c: Config, l: Loop, id: PeerId): Member
    requires NetOk(net) && RoundOk(net, f, version, c, l) && id in f
  {
    Advanced(f[id], id, Reduced(net, f, c, id), Proposed(c, l, RankOf(c.workers, id)))
  }

  function NextVersion(version: nat, c: Config, next: Config): nat {
    if next == c then version else version + 1
  }

  /** The members of the next session: the survivors, and fresh joiners. */
  ghost function NextFleet(net: Net, f: Fleet, version: nat, c: Config, l: Loop): Fleet
    requires NetOk(net) && RoundOk(net, f, version, c, l)
  {
    var next := Next(net, f, version, c, l);
    map id | id in next.workers :: if id in f then MemberNext(net, f, version, c, l, id) else Joiner(version + 1, next)
  }

  ghost predicate Survivor(c: Config, next: Config, id: PeerId) {
    id in c.workers && id in next.workers
  }

  ghost predicate SomeSurvive(c: Config, next: Config) {
    exists id :: Survivor(c, next, id)
  }

  /** Every member's state after the round: one more than it synced, new version for the
      survivors of a change, and detached exactly when it is no longer a worker. */
  lemma RoundAt(net: Net, f: Fleet, version: nat, c: Config, l: Loop, id: PeerId)
    requires NetOk(net) && RoundOk(net, f, version, c, l) && id in f
    ensures var m, next := MemberNext(net, f, version, c, l, id), Next(net, f, version, c, l);
            && m.progress == After(net, f, c, id) + 1
            && (m.detached <==> id !in next.workers)
            && (id in next.workers ==> m.version == NextVersion(version, c, next) && m.cluster == next)
            && (id !in next.workers ==> m.version == version && m.cluster == c)
            && (m.synced <==> next == c)
  {
    AllLeaveWithOne(SessionOf(net, c), c, l, RankOf(c.workers, id), 0);
    assert MemberOk(f[id], version, c);
  }

  /** A provider that fails leaves everything as it was: with no answer from anybody in the last
      iteration, every member leaves with the cluster it had, in the session it had; and with an
      answer of anybody, that is the next cluster. */
  lemma SilentRound(net: Net, f: Fleet, version: nat, c: Config, l: Loop, v: nat)
    requires NetOk(net) && RoundOk(net, f, version, c, l) && v < |c.workers|
    ensures var last := |l.traces| - 1;
            && l.Shape(|c.workers|) && last >= 0
            && (l.answers[v][last] == None ==> Next(net, f, version, c, l) == c)
            && (l.answers[v][last] != None ==> l.answers[v][last] == Some(Next(net, f, version, c, l)))
            && (l.answers[v][last] == None ==> forall id :: id in f ==>
                  var m := MemberNext(net, f, version, c, l, id);
                  m.version == f[id].version && m.cluster == f[id].cluster && m.synced && !m.detached)
  {
    AllLeaveWithOne(SessionOf(net, c), c, l, v, 0);
    if l.answers[v][|l.traces| - 1] == None {
      forall id | id in f
        ensures var m := MemberNext(net, f, version, c, l, id);
                m.version == f[id].version && m.cluster == f[id].cluster && m.synced && !m.detached
      {
        RoundAt(net, f, version, c, l, id);
        assert MemberOk(f[id], version, c);
      }
    }
  }

  /** A round leads from a session to a session. */
  lemma RoundKeepsSession(net: Net, f: Fleet, version: nat, c: Config, l: Loop, next: Config)
    requires NetOk(net) && RoundOk(net, f, version, c, l)
    requires next == Next(net, f, version, c, l) && next.workers != []
    ensures InSession(NextFleet(net, f, version, c, l), NextVersion(version, c, next), next)
  {
    var g := NextFleet(net, f, version, c, l);
    forall id | id in g ensures MemberOk(g[id], NextVersion(version, c, next), next) && (g[id].synced <==> next == c) {
      if id in f { RoundAt(net, f, version, c, l, id); }
    }
  }

  /** What the members of the next session hold. */
  lemma NextProgress(net: Net, f: Fleet, version: nat, c: Config, l: Loop, x: int, id: PeerId)
    requires NetOk(net) && RoundOk(net, f, version, c, l) && Even(net, f, c, x)
    requires id in Next(net, f, version, c, l).workers
    ensures NextFleet(net, f, version, c, l)[id].progress == if id in c.workers then x + 1 else 0
    ensures NextFleet(net, f, version, c, l)[id].synced <==> Next(net, f, version, c, l) == c
  {
    if id in f { RoundAt(net, f, version, c, l, id); }
  }

  /** The progress goes on: the session is a star or has at most two members, or nothing
      changed, or the leader of the new ring was there before, or nobody was. */
  ghost predicate Carries(net: Net, c: Config, next: Config)
    requires NetOk(net) && next.workers != []
  {
    Trusty(SessionOf(net, next)) || next == c || Leader(net, next) in c.workers || !SomeSurvive(c, next)
  }

  function Counted(survive: bool, x: int): int { if survive then x + 1 else 0 }

  lemma TopOfNext(g: Fleet, c: Config, next: Config, x: nat)
    requires next.workers != [] && forall id :: id in next.workers ==> id in g
    requires forall id :: id in next.workers ==> g[id].progress == if id in c.workers then x + 1 else 0
    ensures Top(g, next) == Counted(SomeSurvive(c, next), x)
  {
    TopIsLargest(g, next);
    var top :| top in next.workers && g[top].progress == Top(g, next);
    if id :| Survivor(c, next, id) {
      assert g[id].progress == x + 1;
    } else {
      assert !Survivor(c, next, top);
    }
  }

  lemma NextTop(net: Net, f: Fleet, version: nat, c: Config, l: Loop, next: Config, x: nat)
    requires NetOk(net) && RoundOk(net, f, version, c, l) && Even(net, f, c, x)
    requires next == Next(net, f, version, c, l) && next.workers != []
    ensures Top(NextFleet(net, f, version, c, l), next) == Counted(SomeSurvive(c, next), x)
  {
    var g := NextFleet(net, f, version, c, l);
    forall id | id in next.workers ensures g[id].progress == if id in c.workers then x + 1 else 0 {
      NextProgress(net, f, version, c, l, x, id);
    }
    TopOfNext(g, c, next, x);
  }

  /** After a round every member of the new session syncs to the next count exactly when the
      progress carries over. */
  lemma RoundCounts(net: Net, f: Fleet, version: nat, c: Config, l: Loop, next: Config, x: nat)
    requires NetOk(net) && RoundOk(net, f, version, c, l) && Even(net, f, c, x)
    requires next == Next(net, f, version, c, l) && next.workers != []
    ensures forall id :: id in next.workers ==> id in NextFleet(net, f, version, c, l)
    ensures Carries(net, c, next) ==>
            Even(net, NextFleet(net, f, version, c, l), next, Counted(SomeSurvive(c, next), x))
    ensures Distinct(next.workers) &&
            Even(net, NextFleet(net, f, version, c, l), next, Counted(SomeSurvive(c, next), x))
        ==> Carries(net, c, next)
  {
    var g, y := NextFleet(net, f, version, c, l), Counted(SomeSurvive(c, next), x);
    RoundKeepsSession(net, f, version, c, l, next);
    NextTop(net, f, version, c, l, next, x);
    if next == c {
      assert Survivor(c, next, c.workers[0]);
      forall id | id in next.workers ensures After(net, g, next, id) == y && g[id].progress <= y {
        NextProgress(net, f, version, c, l, x, id);
      }
    } else {
      forall id | id in g ensures !g[id].synced { NextProgress(net, f, version, c, l, x, id); }
      LeaderDecides(net, g, NextVersion(version, c, next), next, y);
      NextProgress(net, f, version, c, l, x, Leader(net, next));
      if SomeSurvive(c, next) {
        assert g[Leader(net, next)].progress == y <==> Leader(net, next) in c.workers;
      } else {
        assert !Survivor(c, next, Leader(net, next));
      }
    }
  }

  // ---------------------------------------------------------------- whole runs

  /** A run of rounds: the fleets, the clusters they form, and the agreement loop of every
      round, with whatever the providers of all the members answered. */
  datatype History = History(fs: seq<Fleet>, cs: seq<Config>, loops: seq<Loop>)

  /** The version after `i` rounds, one agreement a round. */
  function VersionAt(v0: nat, cs: seq<Config>, i: nat): nat
    requires i < |cs|
  {
    if i == 0 then v0 else NextVersion(VersionAt(v0, cs, i - 1), cs[i - 1], cs[i])
  }

  ghost predicate RoundStep(net: Net, f: Fleet, version: nat, c: Config, l: Loop, f': Fleet, next: Config)
    requires NetOk(net)
  {
    && RoundOk(net, f, version, c, l)
    && next == Next(net, f, version, c, l) && next.workers != []
    && f' == NextFleet(net, f, version, c, l)
  }

  /** The first session is of fresh members. */
  function FreshFleet(v0: nat, c: Config): Fleet {
    map id | id in c.workers :: Joiner(v0, c)
  }

  ghost predicate FleetRun(net: Net, h: History, v0: nat)
    requires NetOk(net)
  {
    && |h.fs| == |h.cs| == |h.loops| + 1 && h.cs[0].workers != [] && h.fs[0] == FreshFleet(v0, h.cs[0])
    && forall i: nat {:trigger h.loops[i]} :: i < |h.loops| ==>
         RoundStep(net, h.fs[i], VersionAt(v0, h.cs, i), h.cs[i], h.loops[i], h.fs[i + 1], h.cs[i + 1])
  }

  lemma RunsStart(net: Net, v0: nat, c: Config)
    requires NetOk(net) && c.workers != []
    ensures InSession(FreshFleet(v0, c), v0, c) && Even(net, FreshFleet(v0, c), c, 0)
  {
    var f := FreshFleet(v0, c);
    TopIsLargest(f, c);
    LeaderDecides(net, f, v0, c, 0);
  }

  lemma {:induction false} RunKeepsSession(net: Net, h: History, v0: nat, i: nat)
    requires NetOk(net) && FleetRun(net, h, v0) && i < |h.fs|
    ensures InSession(h.fs[i], VersionAt(v0, h.cs, i), h.cs[i])
  {
    if i > 0 {
      var j := i - 1;
      assert RoundStep(net, h.fs[j], VersionAt(v0, h.cs, j), h.cs[j], h.loops[j], h.fs[j + 1], h.cs[j + 1]);
      RoundKeepsSession(net, h.fs[j], VersionAt(v0, h.cs, j), h.cs[j], h.loops[j], h.cs[j + 1]);
    } else {
      RunsStart(net, v0, h.cs[0]);
    }
  }

  /** Rounds since the last time the whole membership was replaced. */
  ghost function Rounds(cs: seq<Config>, i: nat): nat
    requires i < |cs|
  {
    if i == 0 then 0 else Counted(SomeSurvive(cs[i - 1], cs[i]), Rounds(cs, i - 1))
  }

  /** After `i` rounds, every member syncs to the number of rounds. */
  ghost predicate CountsAt(net: Net, h: History, v0: nat, i: nat)
    requires NetOk(net) && FleetRun(net, h, v0) && i < |h.fs|
  {
    InSession(h.fs[i], VersionAt(v0, h.cs, i), h.cs[i]) && Even(net, h.fs[i], h.cs[i], Rounds(h.cs, i))
  }

  ghost predicate CarriesAt(net: Net, h: History, v0: nat, i: nat)
    requires NetOk(net) && FleetRun(net, h, v0) && i < |h.loops|
  {
    assert RoundStep(net, h.fs[i], VersionAt(v0, h.cs, i), h.cs[i], h.loops[i], h.fs[i + 1], h.cs[i + 1]);
    Carries(net, h.cs[i], h.cs[i + 1])
  }

  lemma StepCounts(net: Net, f: Fleet, version: nat, c: Config, l: Loop, f': Fleet, next: Config, x: nat)
    requires NetOk(net) && RoundStep(net, f, version, c, l, f', next) && Even(net, f, c, x)
    ensures InSession(f', NextVersion(version, c, next), next)
    ensures Carries(net, c, next) ==> Even(net, f', next, Counted(SomeSurvive(c, next), x))
    ensures Distinct(next.workers) && Even(net, f', next, Counted(SomeSurvive(c, next), x)) ==> Carries(net, c, next)
  {
    RoundKeepsSession(net, f, version, c, l, next);
    RoundCounts(net, f, version, c, l, next, x);
  }

  lemma CountsNext(net: Net, h: History, v0: nat, i: nat)
    requires NetOk(net) && FleetRun(net, h, v0) && i < |h.loops| && CountsAt(net, h, v0, i)
    ensures CarriesAt(net, h, v0, i) ==> CountsAt(net, h, v0, i + 1)
    ensures Distinct(h.cs[i + 1].workers) && CountsAt(net, h, v0, i + 1) ==> CarriesAt(net, h, v0, i)
  {
    var c, next := h.cs[i], h.cs[i + 1];
    StepCounts(net, h.fs[i], VersionAt(v0, h.cs, i), c, h.loops[i], h.fs[i + 1], next, Rounds(h.cs, i));
    assert Rounds(h.cs, i + 1) == Counted(SomeSurvive(c, next), Rounds(h.cs, i));
    assert VersionAt(v0, h.cs, i + 1) == NextVersion(VersionAt(v0, h.cs, i), c, next);
  }

  lemma {:induction false} CountsUpTo(net: Net, h: History, v0: nat, i: nat)
    requires NetOk(net) && FleetRun(net, h, v0) && i < |h.fs|
    requires forall j: nat :: j < i ==> CarriesAt(net, h, v0, j)
    ensures CountsAt(net, h, v0, i)
    decreases i
  {
    if i == 0 {
      CountsFirst(net, h, v0);
    } else {
      CountsUpTo(net, h, v0, i - 1);
      CountsNext(net, h, v0, i - 1);
    }
  }

  lemma CountsFirst(net: Net, h: History, v0: nat)
    requires NetOk(net) && FleetRun(net, h, v0)
    ensures CountsAt(net, h, v0, 0)
  {
    RunsStart(net, v0, h.cs[0]);
  }

  ghost predicate AlwaysCounts(net: Net, h: History, v0: nat)
    requires NetOk(net) && FleetRun(net, h, v0)
  {
    forall i: nat :: i < |h.fs| ==> CountsAt(net, h, v0, i)
  }

  ghost predicate AlwaysCarries(net: Net, h: History, v0: nat)
    requires NetOk(net) && FleetRun(net, h, v0)
  {
    forall i: nat :: i < |h.loops| ==> CarriesAt(net, h, v0, i)
  }

  /** Over every run, whatever the providers answered: every member of every session syncs to
      the number of rounds since the membership was last replaced as a whole, and never below
      what it held, if and only if the progress carries over in every round. (A session of n
      ranks is formed by n processes: no cluster names a worker twice.) */
  lemma RunCountsRounds(net: Net, h: History, v0: nat)
    requires NetOk(net) && FleetRun(net, h, v0)
    ensures AlwaysCarries(net, h, v0) ==> AlwaysCounts(net, h, v0)
    ensures AlwaysCounts(net, h, v0) && (forall i :: 0 <= i < |h.cs| ==> Distinct(h.cs[i].workers)) ==>
            AlwaysCarries(net, h, v0)
  {
    if AlwaysCarries(net, h, v0) {
      forall i: nat | i < |h.fs| ensures CountsAt(net, h, v0, i) { CountsUpTo(net, h, v0, i); }
    }
    if AlwaysCounts(net, h, v0) && forall i :: 0 <= i < |h.cs| ==> Distinct(h.cs[i].workers) {
      forall i: nat | i < |h.loops| ensures CarriesAt(net, h, v0, i) {
        assert CountsAt(net, h, v0, i) && CountsAt(net, h, v0, i + 1);
        CountsNext(net, h, v0, i);
      }
    }
  }

  /** On stars, without a further condition. */
  lemma StarRunCounts(net: Net, h: History, v0: nat, i: nat)
    requires NetOk(net) && FleetRun(net, h, v0) && i < |h.fs| && forall n: nat :: n >= 1 ==> Trusty(net(n))
    ensures CountsAt(net, h, v0, i)
  {
    forall j: nat | j < i ensures CarriesAt(net, h, v0, j) {
      assert RoundStep(net, h.fs[j], VersionAt(v0, h.cs, j), h.cs[j], h.loops[j], h.fs[j + 1], h.cs[j + 1]);
    }
    CountsUpTo(net, h, v0, i);
  }

  // ---------------------------------------------------------------- detached ranks

  ghost predicate SameSession(a: Member, b: Member) {
    a.version == b.version && a.cluster == b.cluster
  }

  /** A run of the old session's all-reduce in which only the ranks that were detached make
      the call: the survivors make theirs on the new session, and only their message handlers
      still serve the old one. */
  ghost predicate OnlyDetached(c: Config, next: Config, acts: seq<AR.Action>) {
    forall i :: 0 <= i < |acts| ==>
        acts[i].Handle? || (acts[i].v < |c.workers| && c.workers[acts[i].v] !in next.workers)
  }

  ghost predicate CanReturn<T(!new)>(p: AR.Plan<T>, c: Config, next: Config, v: nat)
    requires p.Valid() && v < p.n
  {
    exists tr, acts :: AR.Run(p, tr, acts) && OnlyDetached(c, next, acts) && ReturnedIn(p, tr, acts, v)
  }

  ghost predicate ReturnedIn<T>(p: AR.Plan<T>, tr: seq<AR.Sys<T>>, acts: seq<AR.Action>, v: nat) {
    |tr| == |acts| + 1 && v < |tr[|acts|].ranks| && tr[|acts|].ranks[v].round > 0
  }

  lemma SurvivorBlocks<T(!new)>(p: AR.Plan<T>, c: Config, next: Config, v: nat, b: nat)
    requires p.Valid() && p.n == |c.workers| >= 2 && v < p.n && b < p.n && c.workers[b] in next.workers
    ensures !CanReturn(p, c, next, v)
  {
    forall tr, acts | AR.Run(p, tr, acts) && OnlyDetached(c, next, acts) ensures !ReturnedIn(p, tr, acts, v) {
      ARP.AbsentRankBlocks(p, tr, acts, b, v, |acts|);
    }
  }

  lemma NobodyBlocks<T(!new)>(p: AR.Plan<T>, c: Config, next: Config, v: nat)
    requires p.Valid() && p.n == |c.workers| && v < p.n && p.xs != [] && forall w :: w in c.workers ==>
            w !in next.workers
    ensures CanReturn(p, c, next, v)
  {
    var tr, acts := ARP.CompleteRun(p);
    forall i | 0 <= i < |acts| ensures acts[i].v < |c.workers| && c.workers[acts[i].v] !in next.workers {
      assert AR.Enabled(p, tr[i], acts[i]);
    }
    assert OnlyDetached(c, next, acts);
    assert tr[|acts|].ranks[v].round == |p.xs|;
    assert ReturnedIn(p, tr, acts, v);
  }

  /** `should_stop` makes a detached rank call the all-reduce of its old session before it
      looks at `detached`. The survivors are in another session by then, and the call can
      return exactly when there are none. */
  lemma DetachedSync<T(!new)>(net: Net, f: Fleet, version: nat, c: Config, l: Loop, next: Config, d: PeerId,
                       p: AR.Plan<T>)
    requires NetOk(net) && RoundOk(net, f, version, c, l) && next == Next(net, f, version, c, l)
    requires d in f && d !in next.workers
    requires p.Valid() && p.n == |c.workers| && p.xs != []
    ensures !MemberNext(net, f, version, c, l, d).synced
    ensures forall w :: w in c.workers ==>
              (SameSession(MemberNext(net, f, version, c, l, w), MemberNext(net, f, version, c, l, d)) <==>
                  w !in next.workers)
    ensures CanReturn(p, c, next, RankOf(c.workers, d)) <==> !SomeSurvive(c, next)
  {
    RoundAt(net, f, version, c, l, d);
    forall w | w in c.workers
      ensures SameSession(MemberNext(net, f, version, c, l, w), MemberNext(net, f, version, c, l, d)) <==>
              w !in next.workers
    {
      RoundAt(net, f, version, c, l, w);
    }
    var v := RankOf(c.workers, d);
    if w :| Survivor(c, next, w) {
      var b := RankOf(c.workers, w);
      assert b != v;
      SurvivorBlocks(p, c, next, v, b);
    } else {
      forall w | w in c.workers ensures w !in next.workers { assert !Survivor(c, next, w); }
      NobodyBlocks(p, c, next, v);
    }
  }
}
