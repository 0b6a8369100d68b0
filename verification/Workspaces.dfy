/** Reduction buffers: the elementwise `reduce`, and `workspace_state` with its receive
    counter, on real arrays that may be one and the same. */
module Workspaces {
  import opened Folds

  /** `std::transform` over two inputs, written in place. The output may be the second input. */
  method Reduce<E>(op: (E, E) -> E, out: array<E>, x: array<E>, y: array<E>, n: nat)
    requires n <= out.Length && n <= x.Length && n <= y.Length && x != out
    modifies out
    ensures out[..n] == Zip(op)(old(x[..n]), old(y[..n]))
    ensures out[n..] == old(out[n..])
  {
    for i := 0 to n
      invariant forall k :: 0 <= k < i ==> out[k] == op(x[k], old(y[k]))
      invariant forall k :: i <= k < out.Length ==> out[k] == old(out[k])
    {
      out[i] := op(x[i], y[i]);
    }
  }

  /** What a rank holds after adding `got` to its input, newest on the left. */
  function Accumulated<E>(op: (E, E) -> E, input: seq<E>, got: seq<seq<E>>): seq<E> {
    if got == [] then input else Zip(op)(got[|got| - 1], Accumulated(op, input, got[..|got| - 1]))
  }

  /** Newest first, then the input. */
  function Newest<E>(input: seq<E>, got: seq<seq<E>>): seq<seq<E>> {
    if got == [] then [input] else [got[|got| - 1]] + Newest(input, got[..|got| - 1])
  }

  lemma {:induction false} FoldFromRight<T(!new)>(op: (T, T) -> T, x: T, xs: seq<T>)
    requires Associative(op) && xs != []
    ensures LeftFold(op, [x] + xs) == op(x, LeftFold(op, xs))
    decreases |xs|
  {
    var s := [x] + xs;
    if |xs| == 1 {
      assert s[..1] == [x];
    } else {
      assert s[..|s| - 1] == [x] + xs[..|xs| - 1];
      FoldFromRight(op, x, xs[..|xs| - 1]);
    }
  }

  /** What was accumulated is the fold of everything received, newest first, ending with the
      rank's own input; only associativity is needed. */
  lemma {:induction false} AccumulatedIsFold<E(!new)>(op: (E, E) -> E, input: seq<E>, got: seq<seq<E>>)
    requires Associative(Zip(op))
    ensures Newest(input, got) != []
    ensures Accumulated(op, input, got) == LeftFold(Zip(op), Newest(input, got))
    decreases |got|
  {
    if got != [] {
      var rest := got[..|got| - 1];
      AccumulatedIsFold(op, input, rest);
      FoldFromRight(Zip(op), got[|got| - 1], Newest(input, rest));
    }
  }

  const RECV_LIMIT: nat := 0x1_0000_0000

  class WorkspaceState<E> {
    const op: (E, E) -> E
    const send: array<E>
    const recv: array<E>
    const count: nat
    var recvCount: nat

    ghost const input: seq<E>
    ghost var got: seq<seq<E>>

    ghost predicate Valid()
      reads this, send, recv
    {
      && count <= send.Length && count <= recv.Length
      && |input| == count && recvCount == |got| < RECV_LIMIT
      && EffectiveData()[..count] == Accumulated(op, input, got)
    }

    constructor (op: (E, E) -> E, send: array<E>, recv: array<E>, count: nat)
      requires count <= send.Length && count <= recv.Length
      ensures Valid() && this.op == op && this.send == send && this.recv == recv && this.count == count
      ensures input == send[..count] && got == []
    {
      this.op, this.send, this.recv, this.count := op, send, recv, count;
      recvCount := 0;
      input, got := send[..count], [];
    }

    /** The receive buffer once something was added to it, the caller's input before. */
    function EffectiveData(): array<E>
      reads this
    {
      if recvCount > 0 then recv else send
    }

    method AddTo(data: array<E>)
      requires Valid() && recvCount + 1 < RECV_LIMIT
      requires data != recv && data.Length == count
      modifies this, recv
      ensures Valid() && got == old(got) + [data[..]] && recvCount > 0
      ensures recv[count..] == old(recv[count..])
      ensures recv[..count] == Zip(op)(data[..], old(EffectiveData()[..count]))
    {
      var from := EffectiveData();
      Reduce(op, recv, data, from, count);
      assert data[..count] == data[..];
      got := got + [data[..]];
      assert got[..|got| - 1] == old(got);
      recvCount := recvCount + 1;
    }

    /** `memcpy` unless the two buffers are one. */
    method Forward()
      requires Valid()
      modifies recv
      ensures recv[..count] == old(send[..count]) && recv[count..] == old(recv[count..])
      ensures recvCount == 0 ==> Valid()
    {
      if recv != send {
        for i := 0 to count
          invariant forall k :: 0 <= k < i ==> recv[k] == send[k]
          invariant forall k :: i <= k < recv.Length ==> recv[k] == old(recv[k])
        {
          recv[i] := send[i];
        }
      }
      assert recv[..count] == old(send[..count]);
    }
  }

  method AddAll<E>(state: WorkspaceState<E>, messages: seq<seq<E>>)
    requires state.Valid() && state.got == [] && |messages| + 1 < RECV_LIMIT
    requires forall i :: 0 <= i < |messages| ==> |messages[i]| == state.count
    modifies state, state.recv
    ensures state.Valid() && state.got == messages
    ensures messages == [] ==> state.recv[..] == old(state.recv[..])
  {
    for i := 0 to |messages|
      invariant state.Valid() && state.got == messages[..i]
      invariant i == 0 ==> state.recv[..] == old(state.recv[..])
    {
      var b := new E[state.count](k requires 0 <= k < state.count => messages[i][k]);
      assert b[..] == messages[i];
      state.AddTo(b);
    }
    assert messages[..|messages|] == messages;
  }

  /** The reduce half of one rank's call: with two buffers or one, in the arrival order of
      the messages, the receive buffer ends as the fold of the messages, newest first, and
      the input; a rank that receives nothing keeps its receive buffer. */
  method ReducePhase<E(!new)>(op: (E, E) -> E, send: array<E>, recv: array<E>, messages: seq<seq<E>>)
    requires send.Length == recv.Length && |messages| + 1 < RECV_LIMIT
    requires forall i :: 0 <= i < |messages| ==> |messages[i]| == send.Length
    requires Associative(Zip(op))
    modifies recv
    ensures recv[..] == if messages == [] then old(recv[..])
                        else LeftFold(Zip(op), Newest(old(send[..]), messages))
  {
    var state := new WorkspaceState(op, send, recv, send.Length);
    AddAll(state, messages);
    AccumulatedIsFold(op, old(send[..]), messages);
    assert recv[..] == recv[..state.count];
    assert old(send[..]) == old(send[..send.Length]);
  }
}
