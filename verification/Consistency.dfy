/** `session::consistent` at all the ranks of a session: at most four all-reduces with
    separate buffers, and a comparison at every rank.

    One step is one all-reduce: it happens when every rank asks for the same operator and
    the same number of elements, and gives each rank what the session delivers to it. */
module Consistency {
  import opened Folds
  import opened Topology
  import opened Sessions
  import AR = AllReduce
  import opened Chunking
  import opened ChunkedAllReduce

  datatype Op = Min | Max

  function Apply(op: Op): (int, int) -> int {
    match op
    case Min => (a, b) => if b < a then b else a
    case Max => (a, b) => if a < b then b else a
  }

  /** Both answer with one of the two numbers, the smaller and the larger one. */
  lemma OpMeaning(a: int, b: int)
    ensures Apply(Min)(a, b) in {a, b} && Apply(Min)(a, b) <= a && Apply(Min)(a, b) <= b
    ensures Apply(Max)(a, b) in {a, b} && Apply(Max)(a, b) >= a && Apply(Max)(a, b) >= b
  {
  }

  datatype Pc = AskMin | AskMax(least: int) | BytesMin | BytesMax(y: seq<int>) | Answer(same: bool)

  /** One rank, the bytes it was called with, and where it is in the code. */
  datatype Rank = Rank(input: seq<int>, pc: Pc)

  datatype Call = Call(op: Op, bytes: bool, data: seq<int>)

  function Asks(r: Rank): Call
    requires !r.pc.Answer?
  {
    match r.pc
    case AskMin => Call(Min, false, [|r.input|])
    case AskMax(_) => Call(Max, false, [|r.input|])
    case BytesMin => Call(Min, true, r.input)
    case BytesMax(_) => Call(Max, true, r.input)
  }

  /** The code up to the next all-reduce or `return`. */
  function Resume(r: Rank, result: seq<int>): Rank
    requires !r.pc.Answer? && |result| == |Asks(r).data|
  {
    r.(pc := match r.pc
             case AskMin => AskMax(result[0])
             case AskMax(least) =>
               if least != result[0] then Answer(false)
               else if |r.input| == 0 then Answer(true)
               else BytesMin
             case BytesMin => BytesMax(result)
             case BytesMax(y) => Answer(y == result))
  }

  /** Two calls that meet in one all-reduce. */
  predicate Match(a: Call, b: Call) {
    a.op == b.op && a.bytes == b.bytes && |a.data| == |b.data|
  }

  /** Every rank is at an all-reduce, and they match. */
  predicate CanStep(s: Session, rs: seq<Rank>) {
    && |rs| == s.n >= 1
    && (forall v :: 0 <= v < |rs| ==> !rs[v].pc.Answer?)
    && forall v :: 0 <= v < |rs| ==> Match(Asks(rs[v]), Asks(rs[0]))
  }

  function Datas(s: Session, rs: seq<Rank>): (ds: seq<seq<int>>)
    requires CanStep(s, rs)
    ensures |ds| == |rs| && forall v :: 0 <= v < |ds| ==> ds[v] == Asks(rs[v]).data
  {
    seq(|rs|, v requires 0 <= v < |rs| => Asks(rs[v]).data)
  }

  /** The roots of a call's elements. */
  function Roots(s: Session, bytes: bool, count: nat): nat -> nat {
    if bytes then i => s.byteRoot(count, i) else i => s.oneRoot
  }

  function Result(s: Session, rs: seq<Rank>, v: nat): (r: seq<int>)
    requires s.Valid() && CanStep(s, rs)
    ensures |r| == |Asks(rs[0]).data|
  {
    var c := Asks(rs[0]);
    Delivered(s, Apply(c.op), Datas(s, rs), |c.data|, Roots(s, c.bytes, |c.data|), v)
  }

  function Step(s: Session, rs: seq<Rank>): (rs': seq<Rank>)
    requires s.Valid() && CanStep(s, rs)
    ensures |rs'| == |rs|
  {
    seq(|rs|, v requires 0 <= v < |rs| => Resume(rs[v], Result(s, rs, v)))
  }

  function Start(inputs: seq<seq<int>>): seq<Rank> {
    seq(|inputs|, v requires 0 <= v < |inputs| => Rank(inputs[v], AskMin))
  }

  ghost predicate Run(s: Session, inputs: seq<seq<int>>, tr: seq<seq<Rank>>)
    requires s.Valid()
  {
    && tr != [] && tr[0] == Start(inputs)
    && forall i :: 0 <= i < |tr| - 1 ==> CanStep(s, tr[i]) && tr[i + 1] == Step(s, tr[i])
  }

  // ---------------------------------------------------------------- minimum and maximum

  lemma {:induction false} FoldLength(op: Op, xs: seq<seq<int>>, n: nat)
    requires xs != [] && forall v :: 0 <= v < |xs| ==> |xs[v]| == n
    ensures |LeftFold(Zip(Apply(op)), xs)| == n
    decreases |xs|
  {
    if |xs| > 1 { FoldLength(op, xs[..|xs| - 1], n); }
  }

  /** Between the elementwise minimum and maximum lies every input. */
  lemma {:induction false} FoldBounds(xs: seq<seq<int>>, n: nat, v: nat, i: nat)
    requires v < |xs| && i < n && forall u :: 0 <= u < |xs| ==> |xs[u]| == n
    ensures |LeftFold(Zip(Apply(Min)), xs)| == |LeftFold(Zip(Apply(Max)), xs)| == n
    ensures LeftFold(Zip(Apply(Min)), xs)[i] <= xs[v][i] <= LeftFold(Zip(Apply(Max)), xs)[i]
    decreases |xs|
  {
    if |xs| > 1 {
      var rest, last := xs[..|xs| - 1], xs[|xs| - 1];
      FoldBounds(rest, n, if v < |xs| - 1 then v else 0, i);
      ZipAt(Apply(Min), LeftFold(Zip(Apply(Min)), rest), last, i);
      ZipAt(Apply(Max), LeftFold(Zip(Apply(Max)), rest), last, i);
    }
  }

  ghost predicate SameAt(xs: seq<seq<int>>, i: nat) {
    forall v :: 0 <= v < |xs| ==> i < |xs[v]| && i < |xs[0]| && xs[v][i] == xs[0][i]
  }

  lemma {:induction false} FoldSameAt(op: Op, xs: seq<seq<int>>, n: nat, i: nat)
    requires xs != [] && i < n && (forall u :: 0 <= u < |xs| ==> |xs[u]| == n) && SameAt(xs, i)
    ensures |LeftFold(Zip(Apply(op)), xs)| == n && LeftFold(Zip(Apply(op)), xs)[i] == xs[0][i]
    decreases |xs|
  {
    if |xs| > 1 { FoldSameAt(op, xs[..|xs| - 1], n, i); }
  }

  /** At one element, minimum is maximum exactly when all the inputs are the same there. */
  lemma MinIsMax(xs: seq<seq<int>>, n: nat, i: nat)
    requires xs != [] && i < n && forall v :: 0 <= v < |xs| ==> |xs[v]| == n
    ensures |LeftFold(Zip(Apply(Min)), xs)| == |LeftFold(Zip(Apply(Max)), xs)| == n
    ensures LeftFold(Zip(Apply(Min)), xs)[i] == LeftFold(Zip(Apply(Max)), xs)[i] <==> SameAt(xs, i)
  {
    FoldBounds(xs, n, 0, i);
    if LeftFold(Zip(Apply(Min)), xs)[i] == LeftFold(Zip(Apply(Max)), xs)[i] {
      forall v | 0 <= v < |xs| ensures xs[v][i] == xs[0][i] { FoldBounds(xs, n, v, i); }
    }
    if SameAt(xs, i) {
      FoldSameAt(Min, xs, n, i);
      FoldSameAt(Max, xs, n, i);
    }
  }

  // ---------------------------------------------------------------- where a run is

  function Sizes(inputs: seq<seq<int>>): (z: seq<seq<int>>)
    ensures |z| == |inputs| && forall v :: 0 <= v < |z| ==> z[v] == [|inputs[v]|]
  {
    seq(|inputs|, v requires 0 <= v < |inputs| => [|inputs[v]|])
  }

  ghost predicate SameSizes(inputs: seq<seq<int>>) {
    forall v :: 0 <= v < |inputs| ==> |inputs[v]| == |inputs[0]|
  }

  ghost predicate AllSame(inputs: seq<seq<int>>) {
    forall v :: 0 <= v < |inputs| ==> inputs[v] == inputs[0]
  }

  /** What rank `v` gets for the sizes, and for the bytes. */
  function SizeResult(s: Session, inputs: seq<seq<int>>, op: Op, v: nat): (r: seq<int>)
    requires s.Valid() && |inputs| == s.n
    ensures |r| == 1
  {
    Delivered(s, Apply(op), Sizes(inputs), 1, Roots(s, false, 1), v)
  }

  ghost function BytesResult(s: Session, inputs: seq<seq<int>>, op: Op, v: nat): seq<int>
    requires s.Valid() && |inputs| == s.n && SameSizes(inputs)
  {
    var n := |inputs[0]|;
    Delivered(s, Apply(op), inputs, n, Roots(s, true, n), v)
  }

  /** Where rank `v` is after `i` steps. */
  ghost function PcAt(s: Session, inputs: seq<seq<int>>, i: nat, v: nat): Pc
    requires s.Valid() && |inputs| == s.n && v < s.n && i <= 4 && (i >= 3 ==> SameSizes(inputs))
  {
    if i == 0 then AskMin
    else if i == 1 then AskMax(SizeResult(s, inputs, Min, v)[0])
    else if i == 2 then
      (if SizeResult(s, inputs, Min, v) != SizeResult(s, inputs, Max, v) then Answer(false)
       else if |inputs[v]| == 0 then Answer(true) else BytesMin)
    else if i == 3 then BytesMax(BytesResult(s, inputs, Min, v))
    else Answer(BytesResult(s, inputs, Min, v) == BytesResult(s, inputs, Max, v))
  }

  ghost predicate At(s: Session, inputs: seq<seq<int>>, rs: seq<Rank>, i: nat)
    requires s.Valid() && |inputs| == s.n && i <= 4 && (i >= 3 ==> SameSizes(inputs))
  {
    |rs| == s.n && forall v :: 0 <= v < s.n ==> rs[v] == Rank(inputs[v], PcAt(s, inputs, i, v))
  }

  lemma AsksSizes(s: Session, inputs: seq<seq<int>>, rs: seq<Rank>, i: nat)
    requires s.Valid() && |inputs| == s.n && i <= 1 && At(s, inputs, rs, i)
    ensures CanStep(s, rs) && Datas(s, rs) == Sizes(inputs)
    ensures Asks(rs[0]) == Call(if i == 0 then Min else Max, false, [|inputs[0]|])
  {
    forall v | 0 <= v < s.n
      ensures !rs[v].pc.Answer? && Asks(rs[v]) == Call(if i == 0 then Min else Max, false, [|inputs[v]|])
    {
      assert rs[v] == Rank(inputs[v], PcAt(s, inputs, i, v));
    }
  }

  lemma SizeStep(s: Session, inputs: seq<seq<int>>, rs: seq<Rank>, i: nat)
    requires s.Valid() && |inputs| == s.n && i <= 1 && At(s, inputs, rs, i)
    ensures CanStep(s, rs) && At(s, inputs, Step(s, rs), i + 1)
  {
    AsksSizes(s, inputs, rs, i);
    forall v | 0 <= v < s.n ensures Step(s, rs)[v] == Rank(inputs[v], PcAt(s, inputs, i + 1, v)) {
      assert rs[v] == Rank(inputs[v], PcAt(s, inputs, i, v));
      assert Result(s, rs, v) == SizeResult(s, inputs, if i == 0 then Min else Max, v);
    }
  }

  /** After the sizes, a further all-reduce is possible exactly when all ranks go on to bytes
      of one length. */
  lemma BytesStep(s: Session, inputs: seq<seq<int>>, rs: seq<Rank>, i: nat)
    requires s.Valid() && |inputs| == s.n && 2 <= i <= 4 && (i >= 3 ==> SameSizes(inputs) && |inputs[0]| > 0)
    requires At(s, inputs, rs, i) && CanStep(s, rs)
    ensures i < 4 && SameSizes(inputs) && |inputs[0]| > 0 && At(s, inputs, Step(s, rs), i + 1)
  {
    assert rs[0] == Rank(inputs[0], PcAt(s, inputs, i, 0));
    forall v | 0 <= v < s.n ensures |inputs[v]| == |inputs[0]| {
      assert rs[v] == Rank(inputs[v], PcAt(s, inputs, i, v));
      assert Match(Asks(rs[v]), Asks(rs[0]));
    }
    assert Datas(s, rs) == inputs;
    var op := if i == 2 then Min else Max;
    forall v | 0 <= v < s.n ensures Step(s, rs)[v] == Rank(inputs[v], PcAt(s, inputs, i + 1, v)) {
      assert rs[v] == Rank(inputs[v], PcAt(s, inputs, i, v));
      assert Result(s, rs, v) == BytesResult(s, inputs, op, v);
    }
  }

  lemma {:induction false} RunIs(s: Session, inputs: seq<seq<int>>, tr: seq<seq<Rank>>, i: nat)
    requires s.Valid() && |inputs| == s.n && Run(s, inputs, tr) && i < |tr|
    ensures i <= 4 && (i >= 3 ==> SameSizes(inputs) && |inputs[0]| > 0) && At(s, inputs, tr[i], i)
  {
    if i > 0 {
      var j := i - 1;
      RunIs(s, inputs, tr, j);
      if j <= 1 {
        SizeStep(s, inputs, tr[j], j);
      } else {
        BytesStep(s, inputs, tr[j], j);
      }
    }
  }

  // ---------------------------------------------------------------- what each rank answers

  lemma SizeResultIs(s: Session, inputs: seq<seq<int>>, op: Op, v: nat)
    requires s.Valid() && |inputs| == s.n && v < s.n
    ensures |LeftFold(Zip(Apply(op)), Sizes(inputs))| == 1
    ensures SizeResult(s, inputs, op, v)
         == if Sees(s, s.oneRoot, v) then LeftFold(Zip(Apply(op)), Sizes(inputs)) else Sizes(inputs)[First(s.n,
             s.oneRoot)]
  {
    FoldLength(op, Sizes(inputs), 1);
  }

  lemma SizesFold(inputs: seq<seq<int>>)
    requires inputs != []
    ensures LeftFold(Zip(Apply(Min)), Sizes(inputs)) == LeftFold(Zip(Apply(Max)), Sizes(inputs)) <==> SameSizes(inputs)
  {
    var z := Sizes(inputs);
    var a, b := LeftFold(Zip(Apply(Min)), z), LeftFold(Zip(Apply(Max)), z);
    MinIsMax(z, 1, 0);
    SizesAre(inputs);
    OneElement(a, b);
  }

  lemma OneElement(a: seq<int>, b: seq<int>)
    requires |a| == |b| == 1
    ensures a == b <==> a[0] == b[0]
  {
    assert a == [a[0]] && b == [b[0]];
  }

  /** Whether the sizes look the same to rank `v`. */
  lemma SizeAnswer(s: Session, inputs: seq<seq<int>>, v: nat)
    requires s.Valid() && |inputs| == s.n && v < s.n
    ensures SizeResult(s, inputs, Min, v) == SizeResult(s, inputs, Max, v)
       <==> SameSizes(inputs) || !Sees(s, s.oneRoot, v)
  {
    SizeResultIs(s, inputs, Min, v);
    SizeResultIs(s, inputs, Max, v);
    SizesFold(inputs);
  }

  lemma SizesAre(inputs: seq<seq<int>>)
    requires inputs != []
    ensures SameAt(Sizes(inputs), 0) <==> SameSizes(inputs)
  {
    var z := Sizes(inputs);
    forall u | 0 <= u < |inputs| ensures |z[u]| == 1 && z[u][0] == |inputs[u]| {}
  }

  /** Rank `v` finds the bytes the same exactly when they are at every element it sees. */
  lemma BytesAnswer(s: Session, inputs: seq<seq<int>>, v: nat)
    requires s.Valid() && |inputs| == s.n && v < s.n && SameSizes(inputs)
    ensures BytesResult(s, inputs, Min, v) == BytesResult(s, inputs, Max, v)
       <==> forall i: nat :: i < |inputs[0]| && Sees(s, s.byteRoot(|inputs[0]|, i), v) ==> SameAt(inputs, i)
  {
    var n := |inputs[0]|;
    var y, z := BytesResult(s, inputs, Min, v), BytesResult(s, inputs, Max, v);
    forall i: nat | i < n ensures y[i] == z[i] <==> (Sees(s, s.byteRoot(n, i), v) ==> SameAt(inputs, i)) {
      MinIsMax(inputs, n, i);
    }
  }

  /** Rank `v` sees a difference. */
  ghost predicate Notices(s: Session, inputs: seq<seq<int>>, v: nat)
    requires s.Valid() && |inputs| == s.n
  {
    if SameSizes(inputs)
    then exists i: nat :: i < |inputs[0]| && Sees(s, s.byteRoot(|inputs[0]|, i), v) && !SameAt(inputs, i)
    else Sees(s, s.oneRoot, v)
  }

  lemma SameAtAll(inputs: seq<seq<int>>)
    requires inputs != [] && SameSizes(inputs)
    ensures AllSame(inputs) <==> forall i: nat :: i < |inputs[0]| ==> SameAt(inputs, i)
  {
    if forall i: nat :: i < |inputs[0]| ==> SameAt(inputs, i) {
      forall v | 0 <= v < |inputs| ensures inputs[v] == inputs[0] {
        forall i: nat | i < |inputs[0]| ensures inputs[v][i] == inputs[0][i] { assert SameAt(inputs, i); }
      }
    }
  }

  ghost predicate Answered(s: Session, rs: seq<Rank>) {
    |rs| == s.n && forall v :: 0 <= v < s.n ==> rs[v].pc.Answer?
  }

  /** Each answer of a run: a rank answers no exactly when it notices a difference. */
  lemma EachAnswer(s: Session, inputs: seq<seq<int>>, tr: seq<seq<Rank>>, v: nat)
    requires s.Valid() && |inputs| == s.n && Run(s, inputs, tr) && v < s.n
    ensures |tr| <= 5 && |tr[|tr| - 1]| == s.n
    ensures tr[|tr| - 1][v].pc.Answer? ==> (!tr[|tr| - 1][v].pc.same <==> Notices(s, inputs, v))
  {
    var i := |tr| - 1;
    RunIs(s, inputs, tr, i);
    assert tr[i][v] == Rank(inputs[v], PcAt(s, inputs, i, v));
    SizeAnswer(s, inputs, v);
    if SameSizes(inputs) { BytesAnswer(s, inputs, v); }
    if i == 2 && |inputs[v]| > 0 && SameSizes(inputs) { assert !tr[i][v].pc.Answer?; }
  }

  /** Every answer there is is right, and the run stops only when all have answered. */
  ghost predicate Correct(s: Session, inputs: seq<seq<int>>)
    requires s.Valid() && |inputs| == s.n
  {
    forall tr :: Run(s, inputs, tr) ==> RightEnd(s, inputs, tr[|tr| - 1])
  }

  ghost predicate RightEnd(s: Session, inputs: seq<seq<int>>, rs: seq<Rank>) {
    CanStep(s, rs) || (Answered(s, rs) && forall v :: 0 <= v < s.n ==> rs[v].pc.same == AllSame(inputs))
  }

  lemma SameSizesGoOn(s: Session, inputs: seq<seq<int>>, rs: seq<Rank>, i: nat)
    requires s.Valid() && |inputs| == s.n && 2 <= i <= 4 && SameSizes(inputs) && At(s, inputs, rs, i)
    requires i >= 3 ==> |inputs[0]| > 0
    ensures CanStep(s, rs) <==> i < 4 && |inputs[0]| > 0
    ensures !CanStep(s, rs) ==> Answered(s, rs)
  {
    forall v | 0 <= v < s.n
      ensures rs[v] == Rank(inputs[v], PcAt(s, inputs, i, v)) && (rs[v].pc.Answer? <==> i == 4 || |inputs[0]| == 0)
    {
      SizeAnswer(s, inputs, v);
    }
    assert rs[0].pc.Answer? <==> i == 4 || |inputs[0]| == 0;
  }

  lemma NoticedByAll(s: Session, inputs: seq<seq<int>>, rs: seq<Rank>)
    requires s.Valid() && |inputs| == s.n && !SameSizes(inputs) && At(s, inputs, rs, 2)
    requires forall v: nat :: v < s.n ==> Notices(s, inputs, v)
    ensures Answered(s, rs)
  {
    forall v | 0 <= v < s.n ensures rs[v].pc.Answer? {
      assert rs[v] == Rank(inputs[v], PcAt(s, inputs, 2, v));
      assert Notices(s, inputs, v);
      SizeAnswer(s, inputs, v);
    }
  }

  /** A run that cannot go on has answered, when the sizes agree or all ranks see that not. */
  lemma StopsAnswered(s: Session, inputs: seq<seq<int>>, rs: seq<Rank>, i: nat)
    requires s.Valid() && |inputs| == s.n && i <= 4 && (i >= 3 ==> SameSizes(inputs) && |inputs[0]| > 0)
    requires At(s, inputs, rs, i) && !CanStep(s, rs)
    requires SameSizes(inputs) || forall v: nat :: v < s.n ==> Notices(s, inputs, v)
    ensures Answered(s, rs)
  {
    if i <= 1 {
      SizeStep(s, inputs, rs, i);
    } else if SameSizes(inputs) {
      SameSizesGoOn(s, inputs, rs, i);
    } else {
      NoticedByAll(s, inputs, rs);
    }
  }

  lemma RightAnswer(s: Session, inputs: seq<seq<int>>, tr: seq<seq<Rank>>, v: nat)
    requires s.Valid() && |inputs| == s.n && Run(s, inputs, tr) && v < s.n
    requires AllSame(inputs) || Notices(s, inputs, v)
    ensures |tr[|tr| - 1]| == s.n
    ensures tr[|tr| - 1][v].pc.Answer? ==> tr[|tr| - 1][v].pc.same == AllSame(inputs)
  {
    EachAnswer(s, inputs, tr, v);
    AllSameIsNotNoticed(s, inputs, v);
  }

  lemma RightRun(s: Session, inputs: seq<seq<int>>, tr: seq<seq<Rank>>)
    requires s.Valid() && |inputs| == s.n && Run(s, inputs, tr)
    requires AllSame(inputs) || forall v: nat :: v < s.n ==> Notices(s, inputs, v)
    ensures RightEnd(s, inputs, tr[|tr| - 1])
  {
    var last := tr[|tr| - 1];
    if !CanStep(s, last) {
      RunIs(s, inputs, tr, |tr| - 1);
      StopsAnswered(s, inputs, last, |tr| - 1);
      forall v: nat | v < s.n ensures last[v].pc.same == AllSame(inputs) { RightAnswer(s, inputs, tr, v); }
    }
  }

  lemma RightWhenNoticed(s: Session, inputs: seq<seq<int>>)
    requires s.Valid() && |inputs| == s.n
    requires AllSame(inputs) || forall v: nat :: v < s.n ==> Notices(s, inputs, v)
    ensures Correct(s, inputs)
  {
    forall tr: seq<seq<Rank>> | Run(s, inputs, tr) ensures RightEnd(s, inputs, tr[|tr| - 1]) {
      RightRun(s, inputs, tr);
    }
  }

  lemma AllSameIsNotNoticed(s: Session, inputs: seq<seq<int>>, v: nat)
    requires s.Valid() && |inputs| == s.n
    ensures AllSame(inputs) ==> !Notices(s, inputs, v)
  {
    if AllSame(inputs) { SameAtAll(inputs); }
  }

  /** The run of a call as far as it goes. */
  lemma {:induction false} Finish(s: Session, inputs: seq<seq<int>>, tr: seq<seq<Rank>>) returns (tr': seq<seq<Rank>>)
    requires s.Valid() && |inputs| == s.n && Run(s, inputs, tr)
    ensures Run(s, inputs, tr') && !CanStep(s, tr'[|tr'| - 1])
    decreases 5 - |tr|
  {
    RunIs(s, inputs, tr, |tr| - 1);
    if CanStep(s, tr[|tr| - 1]) {
      var more := tr + [Step(s, tr[|tr| - 1])];
      assert Run(s, inputs, more);
      RunIs(s, inputs, more, |more| - 1);
      tr' := Finish(s, inputs, more);
    } else {
      tr' := tr;
    }
  }

  /** For given inputs, `consistent` is right at every rank exactly when they are all the same
      or every rank notices a difference. */
  lemma CorrectIsExact(s: Session, inputs: seq<seq<int>>)
    requires s.Valid() && |inputs| == s.n
    ensures Correct(s, inputs) <==> AllSame(inputs) || forall v: nat :: v < s.n ==> Notices(s, inputs, v)
  {
    if AllSame(inputs) || forall v: nat :: v < s.n ==> Notices(s, inputs, v) {
      RightWhenNoticed(s, inputs);
    } else {
      var tr := Finish(s, inputs, [Start(inputs)]);
      var v: nat :| v < s.n && !Notices(s, inputs, v);
      EachAnswer(s, inputs, tr, v);
      assert !RightEnd(s, inputs, tr[|tr| - 1]);
    }
  }

  lemma TrustyNotices(s: Session, inputs: seq<seq<int>>, v: nat)
    requires s.Valid() && |inputs| == s.n && v < s.n && Trusty(s) && !AllSame(inputs)
    ensures Notices(s, inputs, v)
  {
    if SameSizes(inputs) {
      SameAtAll(inputs);
      var i: nat :| i < |inputs[0]| && !SameAt(inputs, i);
      assert Sees(s, s.byteRoot(|inputs[0]|, i), v);
    }
  }

  /** On a ring of three or more, one rank with a byte among ranks with none: a rank that does
      not see the sizes goes its own way. */
  lemma RingSplits(s: Session) returns (inputs: seq<seq<int>>)
    requires s.Valid() && !Trusty(s)
    ensures |inputs| == s.n && !Correct(s, inputs)
  {
    inputs := seq(s.n, v requires 0 <= v < s.n => if v == 0 then [0] else []);
    assert |inputs[0]| == 1 && |inputs[1]| == 0;
    TrustyIsExact(s, s.oneRoot);
    var v: nat :| v < s.n && !Sees(s, s.oneRoot, v);
    assert !SameSizes(inputs) && !AllSame(inputs);
    assert !Notices(s, inputs, v);
    CorrectIsExact(s, inputs);
  }

  /** `consistent` answers at every rank, with whether all ranks passed the same bytes, for
      all inputs, if and only if the session is a star or has at most two ranks. */
  lemma ConsistentIsAgreement(s: Session)
    requires s.Valid()
    ensures (forall inputs: seq<seq<int>> :: |inputs| == s.n ==> Correct(s, inputs)) <==> Trusty(s)
  {
    if Trusty(s) {
      forall inputs: seq<seq<int>> | |inputs| == s.n ensures Correct(s, inputs) {
        if !AllSame(inputs) {
          forall v: nat | v < s.n ensures Notices(s, inputs, v) { TrustyNotices(s, inputs, v); }
        }
        CorrectIsExact(s, inputs);
      }
    } else {
      var inputs := RingSplits(s);
    }
  }

  /** On a star or with two ranks: one yes is everybody's. */
  lemma TrustyYes(s: Session, inputs: seq<seq<int>>, tr: seq<seq<Rank>>, last: seq<Rank>, u: nat, v: nat)
    requires s.Valid() && Trusty(s) && |inputs| == s.n && Run(s, inputs, tr) && last == tr[|tr| - 1] &&
            !CanStep(s, last)
    requires |last| == s.n && u < s.n && v < s.n && last[u].pc == Answer(true)
    ensures AllSame(inputs) && last[v].pc == Answer(true)
  {
    ConsistentIsAgreement(s);
    assert Correct(s, inputs) && RightEnd(s, inputs, last);
  }

  /** On any session: when every rank answers yes, they did pass the same bytes. */
  lemma UnanimousYes(s: Session, inputs: seq<seq<int>>, tr: seq<seq<Rank>>, last: seq<Rank>)
    requires s.Valid() && |inputs| == s.n && Run(s, inputs, tr) && last == tr[|tr| - 1]
    requires |last| == s.n && forall v :: 0 <= v < s.n ==> last[v].pc == Answer(true)
    ensures AllSame(inputs)
  {
    EachAnswer(s, inputs, tr, s.oneRoot);
    assert SameSizes(inputs);
    SameAtAll(inputs);
    forall i: nat | i < |inputs[0]| ensures SameAt(inputs, i) {
      EachAnswer(s, inputs, tr, s.byteRoot(|inputs[0]|, i));
    }
  }

  // ---------------------------------------------------------------- the calls that are made

  /** In every run: first the minimum and then the maximum of the sizes, as one number each, and
      then, of nonempty inputs only, the minimum and the maximum of the bytes. */
  lemma CallsInOrder(s: Session, inputs: seq<seq<int>>, tr: seq<seq<Rank>>, i: nat, v: nat)
    requires s.Valid() && |inputs| == s.n && Run(s, inputs, tr) && i < |tr| && v < s.n
    ensures i < 4 && |tr[i]| == s.n && !tr[i][v].pc.Answer? ==>
              Asks(tr[i][v]) == if i < 2 then Call(if i == 0 then Min else Max, false, [|inputs[v]|])
                                else Call(if i == 2 then Min else Max, true, inputs[v])
    ensures i < |tr| - 1 ==> i < 4 && |tr[i]| == s.n && !tr[i][v].pc.Answer? && |Asks(tr[i][v]).data| > 0
    ensures inputs[v] == [] ==> |tr| <= 3
  {
    RunIs(s, inputs, tr, i);
    RunIs(s, inputs, tr, |tr| - 1);
    assert tr[i][v] == Rank(inputs[v], PcAt(s, inputs, i, v));
    if i < |tr| - 1 {
      RunIs(s, inputs, tr, i + 1);
      assert CanStep(s, tr[i]);
      if i == 2 { BytesStep(s, inputs, tr[i], i); }
    }
  }

  // ---------------------------------------------------------------- over the real protocol

  lemma OpLaws(op: Op)
    ensures Associative(Apply(op)) && Commutative(Apply(op))
  {
  }

  /** What a step gives rank `v` is what complete runs of the protocol leave in its receive
      buffer, whichever chunks and pairs the call is carried out with. */
  lemma StepIsAllReduce(s: Session, rs: seq<Rank>, w: Workspace, k: nat, p: AR.Plan<seq<int>>,
                        tr: seq<AR.Sys<seq<int>>>, acts: seq<AR.Action>, v: nat, buffer: seq<int>)
    requires s.Valid() && CanStep(s, rs) && v < s.n && 0 < k && w.count == |Asks(rs[0]).data|
    requires IsCall(Apply(Asks(rs[0]).op), Datas(s, rs), w, k, s.strategy, p) && SessionPlan(s, p)
    requires RootsOf(w, k, p, Roots(s, Asks(rs[0]).bytes, w.count))
    requires AR.Run(p, tr, acts) && AR.Finished(p, tr[|acts|])
    requires MakesUp(w, k, tr[|acts|].ranks[v].outs, buffer)
    ensures buffer == Result(s, rs, v)
  {
    var c := Asks(rs[0]);
    OpLaws(c.op);
    CallDelivers(s, Apply(c.op), Datas(s, rs), w, k, Roots(s, c.bytes, w.count), p, tr, acts, v, buffer);
  }
}
