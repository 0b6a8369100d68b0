/** Combining the inputs of a set of ranks with one reduce operator.

    `LeftFold` is the reference meaning of an all-reduce: the inputs combined in
    rank order. `FoldSet` is the same combination over any nonempty set of ranks;
    for an associative and commutative operator the order no longer matters. */
module Folds {

  ghost predicate Associative<T(!new)>(op: (T, T) -> T) {
    forall x, y, z :: op(op(x, y), z) == op(x, op(y, z))
  }

  ghost predicate Commutative<T(!new)>(op: (T, T) -> T) {
    forall x, y :: op(x, y) == op(y, x)
  }

  /** The inputs combined in the order of the sequence. */
  function LeftFold<T>(op: (T, T) -> T, xs: seq<T>): T
    requires xs != []
  {
    if |xs| == 1 then xs[0] else op(LeftFold(op, xs[..|xs| - 1]), xs[|xs| - 1])
  }

  predicate Below(i: nat, n: nat) { i < n }

  function Ranks(n: nat): (s: set<nat>)
    ensures forall i: nat :: i in s <==> i < n
    ensures s == {} <==> n == 0
  {
    var s := set i: nat | i < n && Below(i, n);
    assert n > 0 ==> 0 in s;
    s
  }

  lemma {:induction false} RanksSize(n: nat)
    ensures |Ranks(n)| == n
  {
    if n > 0 {
      RanksSize(n - 1);
      assert Ranks(n) == Ranks(n - 1) + {n - 1};
    }
  }

  ghost predicate Within(s: set<nat>, n: nat) {
    forall i :: i in s ==> i < n
  }

  ghost predicate IsLast(m: nat, s: set<nat>) {
    m in s && forall i :: i in s ==> i <= m
  }

  lemma {:induction false} LastExists(s: set<nat>)
    requires s != {}
    ensures exists m :: IsLast(m, s)
    decreases |s|
  {
    var x :| x in s;
    if s == {x} {
      assert IsLast(x, s);
    } else {
      assert |s - {x}| == |s| - 1;
      assert s - {x} != {};
      LastExists(s - {x});
      var m :| IsLast(m, s - {x});
      var top := if m < x then x else m;
      forall i | i in s ensures i <= top {
        assert i == x || i in s - {x};
      }
      assert IsLast(top, s);
    }
  }

  ghost function Last(s: set<nat>): (m: nat)
    requires s != {}
    ensures IsLast(m, s)
  {
    LastExists(s);
    var m :| IsLast(m, s); m
  }

  ghost function FoldSet<T>(op: (T, T) -> T, xs: seq<T>, s: set<nat>): T
    requires s != {} && Within(s, |xs|)
    decreases |s|
  {
    var m := Last(s);
    if s == {m} then xs[m] else op(FoldSet(op, xs, s - {m}), xs[m])
  }

  lemma {:induction false} SwapLast<T(!new)>(op: (T, T) -> T, a: T, b: T, c: T)
    requires Associative(op) && Commutative(op)
    ensures op(op(a, b), c) == op(op(a, c), b)
  {
    assert op(op(a, b), c) == op(a, op(b, c));
    assert op(op(a, c), b) == op(a, op(c, b));
  }

  /** Any member can be the one combined last. */
  lemma {:induction false} FoldInsert<T(!new)>(op: (T, T) -> T, xs: seq<T>, s: set<nat>, m: nat)
    requires Associative(op) && Commutative(op)
    requires Within(s, |xs|) && m in s && s != {m}
    ensures FoldSet(op, xs, s) == op(FoldSet(op, xs, s - {m}), xs[m])
    decreases |s|
  {
    var l := Last(s);
    if m != l {
      var rest := s - {m};
      assert IsLast(l, rest);
      assert Last(rest) == l;
      if s == {m, l} {
        assert s - {l} == {m} && rest == {l};
        assert Last({m}) == m;
      } else {
        assert s - {l} - {m} == rest - {l};
        FoldInsert(op, xs, s - {l}, m);
        assert s == rest + {m};
        SwapLast(op, FoldSet(op, xs, rest - {l}), xs[m], xs[l]);
      }
    }
  }

  /** Disjoint groups of ranks can be combined separately. */
  lemma {:induction false} FoldUnion<T(!new)>(op: (T, T) -> T, xs: seq<T>, a: set<nat>, b: set<nat>)
    requires Associative(op) && Commutative(op)
    requires a != {} && b != {} && a !! b && Within(a, |xs|) && Within(b, |xs|)
    ensures FoldSet(op, xs, a + b) == op(FoldSet(op, xs, a), FoldSet(op, xs, b))
    decreases |b|
  {
    var m := Last(b);
    FoldInsert(op, xs, a + b, m);
    if b == {m} {
      assert a + b - {m} == a;
    } else {
      assert a + b - {m} == a + (b - {m});
      FoldUnion(op, xs, a, b - {m});
    }
  }

  /** Over all the ranks, the set fold is the fold in rank order. */
  lemma {:induction false} FoldAllRanks<T>(op: (T, T) -> T, xs: seq<T>, n: nat)
    requires 0 < n <= |xs|
    ensures FoldSet(op, xs, Ranks(n)) == LeftFold(op, xs[..n])
    decreases n
  {
    assert IsLast(n - 1, Ranks(n));
    assert Last(Ranks(n)) == n - 1;
    if n == 1 {
      assert Ranks(1) == {0};
    } else {
      assert 0 in Ranks(n);
      assert Ranks(n) - {n - 1} == Ranks(n - 1);
      FoldAllRanks(op, xs, n - 1);
      assert xs[..n][..n - 1] == xs[..n - 1];
    }
  }

  /** The elementwise operator on buffers, as one `std::transform` over both inputs. */
  function Zip<E>(op: (E, E) -> E): (seq<E>, seq<E>) -> seq<E> {
    (a, b) => seq(if |a| <= |b| then |a| else |b|, i requires 0 <= i < |a| && i < |b| => op(a[i], b[i]))
  }

  lemma ZipLaws<E(!new)>(op: (E, E) -> E)
    requires Associative(op) && Commutative(op)
    ensures Associative(Zip(op)) && Commutative(Zip(op))
  {
    var z := Zip(op);
    forall a, b, c ensures z(z(a, b), c) == z(a, z(b, c)) {
      assert |z(z(a, b), c)| == |z(a, z(b, c))|;
      forall i | 0 <= i < |z(z(a, b), c)| ensures z(z(a, b), c)[i] == z(a, z(b, c))[i] {
        assert op(op(a[i], b[i]), c[i]) == op(a[i], op(b[i], c[i]));
      }
    }
    forall a, b ensures z(a, b) == z(b, a) {
      forall i | 0 <= i < |z(a, b)| ensures z(a, b)[i] == z(b, a)[i] {
        assert op(a[i], b[i]) == op(b[i], a[i]);
      }
    }
  }

  /** A left fold is what it says: with concatenation it puts the inputs one behind the other, and
      it groups from the left. */
  lemma {:induction false} FoldOfSequences<T>(x: seq<T>, op: (seq<T>, seq<T>) -> seq<T>)
    requires x != [] && forall a, b :: op(a, b) == a + b
    ensures LeftFold(op, seq(|x|, i requires 0 <= i < |x| => [x[i]])) == x
    decreases |x|
  {
    var s := seq(|x|, i requires 0 <= i < |x| => [x[i]]);
    if |x| > 1 {
      var y := x[..|x| - 1];
      assert s[..|s| - 1] == seq(|y|, i requires 0 <= i < |y| => [y[i]]);
      FoldOfSequences(y, op);
      assert x == y + [x[|x| - 1]];
    } else {
      assert s[0] == x;
    }
  }

  lemma FoldOfThree<T>(op: (T, T) -> T, a: T, b: T, c: T)
    ensures LeftFold(op, [a, b, c]) == op(op(a, b), c)
  {
    assert [a, b, c][..2] == [a, b] && [a, b][..1] == [a];
    assert LeftFold(op, [a, b]) == op(LeftFold(op, [a]), b);
  }

  /** Element by element. */
  lemma ZipAt<E>(op: (E, E) -> E, a: seq<E>, b: seq<E>, i: nat)
    requires |a| == |b|
    ensures |Zip(op)(a, b)| == |a| && (i < |a| ==> Zip(op)(a, b)[i] == op(a[i], b[i]))
  {
  }
}
