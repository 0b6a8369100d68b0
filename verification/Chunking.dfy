/** Splitting one all-reduce into byte-bounded chunks: `ceil_div`, `even_partition`,
    `workspace::slice` and `split`, `name_based_hash`, `choose` and `split_work`. */
module Chunking {
  import opened Basics
  import opened Graphs

  // ---------------------------------------------------------------- arithmetic

  lemma MulStep(j: nat, q: nat)
    ensures (j + 1) * q == j * q + q
  {
  }

  /** The least `k` with `k * b >= a`. */
  function CeilDiv(a: nat, b: nat): (k: nat)
    requires b > 0
    ensures a <= k * b && (k > 0 ==> (k - 1) * b < a)
  {
    var q, r := a / b, a % b;
    assert a == q * b + r;
    assert r > 0 ==> (q + 1) * b == q * b + b by { MulStep(q, b); }
    q + if r > 0 then 1 else 0
  }

  // ---------------------------------------------------------------- even_partition

  datatype Interval = Interval(begin: nat, end: nat) {
    function Len(): int { end - begin }
  }

  /** Where part `j` of `k` starts: the first `len % k` parts are one longer than the rest. */
  function Begin(len: nat, k: nat, j: nat): nat
    requires k > 0
  {
    j * (len / k) + if j < len % k then j else len % k
  }

  lemma BeginStep(len: nat, k: nat, j: nat)
    requires k > 0
    ensures Begin(len, k, j + 1) == Begin(len, k, j) + len / k + if j < len % k then 1 else 0
    ensures Begin(len, k, 0) == 0
  {
    MulStep(j, len / k);
  }

  lemma BeginLast(len: nat, k: nat)
    requires k > 0
    ensures Begin(len, k, k) == len
  {
    assert len == k * (len / k) + len % k;
  }

  function Part(i: Interval, k: nat, j: nat): Interval
    requires k > 0 && i.begin <= i.end
  {
    Interval(i.begin + Begin(i.Len(), k, j), i.begin + Begin(i.Len(), k, j + 1))
  }

  method EvenPartition(i: Interval, k: nat) returns (ps: seq<Interval>)
    requires k > 0 && i.begin <= i.end
    ensures |ps| == k && forall j :: 0 <= j < k ==> ps[j] == Part(i, k, j)
  {
    var len: nat := i.end - i.begin;
    var q := len / k;
    var r := len - k * q;
    assert len == k * (len / k) + len % k;
    ps := [];
    var off := i.begin;
    BeginStep(len, k, 0);
    for j := 0 to k
      invariant |ps| == j && off == i.begin + Begin(len, k, j)
      invariant forall h :: 0 <= h < j ==> ps[h] == Part(i, k, h)
    {
      BeginStep(len, k, j);
      var size := if j < r then q + 1 else q;
      ps := ps + [Interval(off, off + size)];
      off := off + size;
    }
  }

  lemma PartLen(i: Interval, k: nat, j: nat)
    requires k > 0 && i.begin <= i.end
    ensures Part(i, k, j).Len() == i.Len() / k + if j < i.Len() % k then 1 else 0
  {
    BeginStep(i.Len(), k, j);
  }

  lemma Quotient(len: nat, k: nat)
    requires k > 0
    ensures 0 <= len % k < k && (len / k == 0 <==> len < k) && (len < k ==> len % k == len)
  {
    if len / k >= 1 { MulMono(1, len / k, k); }
  }

  /** The parts tile the interval in order. */
  lemma PartsTile(i: Interval, k: nat, j: nat)
    requires k > 0 && i.begin <= i.end && j < k
    ensures Part(i, k, 0).begin == i.begin && Part(i, k, k - 1).end == i.end
    ensures j > 0 ==> Part(i, k, j).begin == Part(i, k, j - 1).end
  {
    BeginStep(i.Len(), k, 0);
    BeginLast(i.Len(), k);
  }

  /** They differ in length by at most one, the longer ones first. */
  lemma PartsAreEven(i: Interval, k: nat, j: nat, h: nat)
    requires k > 0 && i.begin <= i.end && j <= h < k
    ensures Part(i, k, h).Len() <= Part(i, k, j).Len() <= Part(i, k, h).Len() + 1
  {
    PartLen(i, k, j);
    PartLen(i, k, h);
  }

  /** All are nonempty exactly when there are no more parts than elements. */
  lemma PartsAreNonempty(i: Interval, k: nat)
    requires k > 0 && i.begin <= i.end
    ensures (forall j: nat :: j < k ==> Part(i, k, j).Len() > 0) <==> k <= i.Len()
  {
    Quotient(i.Len(), k);
    forall j: nat | j < k ensures Part(i, k, j).Len() == i.Len() / k + if j < i.Len() % k then 1 else 0 {
      PartLen(i, k, j);
    }
    assert k > i.Len() ==> Part(i, k, k - 1).Len() == 0;
  }

  /** Every element lies in one part only. */
  lemma {:induction false} BeginMono(len: nat, k: nat, a: nat, b: nat)
    requires k > 0 && a <= b
    ensures Begin(len, k, a) <= Begin(len, k, b)
    decreases b - a
  {
    if a < b {
      BeginMono(len, k, a, b - 1);
      BeginStep(len, k, b - 1);
    }
  }

  lemma {:induction false} PartOf(len: nat, k: nat, x: nat, n: nat) returns (j: nat)
    requires k > 0 && n <= k && x < Begin(len, k, n)
    ensures j < n && Begin(len, k, j) <= x < Begin(len, k, j + 1)
    ensures forall h :: 0 <= h && Begin(len, k, h) <= x < Begin(len, k, h + 1) ==> h == j
  {
    BeginStep(len, k, 0);
    assert n > 0;
    if Begin(len, k, n - 1) <= x {
      j := n - 1;
      forall h | 0 <= h && Begin(len, k, h) <= x < Begin(len, k, h + 1) ensures h == j {
        if h < j { BeginMono(len, k, h + 1, j); }
        if h > j { BeginMono(len, k, j + 1, h); }
      }
    } else {
      j := PartOf(len, k, x, n - 1);
    }
  }

  // ---------------------------------------------------------------- the byte bound

  /** The number of chunks of a call. */
  function Chunks(count: nat, esize: nat, limit: nat): (k: nat)
    requires count > 0 && esize > 0 && limit > 0
    ensures k > 0 && (k - 1) * limit < count * esize <= k * limit
  {
    assert count * esize > 0;
    CeilDiv(count * esize, limit)
  }

  /** Bytes of the first chunk. */
  function LargestChunk(count: nat, esize: nat, limit: nat): nat
    requires count > 0 && esize > 0 && limit > 0
  {
    Begin(count, Chunks(count, esize, limit), 1) * esize
  }

  lemma LargestIsFirst(count: nat, esize: nat, limit: nat, k: nat, j: nat)
    requires count > 0 && esize > 0 && limit > 0 && j < k == Chunks(count, esize, limit)
    ensures Part(Interval(0, count), k, j).Len() * esize <= LargestChunk(count, esize, limit)
  {
    PartsAreEven(Interval(0, count), k, 0, j);
    BeginStep(count, k, 0);
    assert Part(Interval(0, count), k, 0).Len() == Begin(count, k, 1);
    BeginMono(count, k, j, j + 1);
    MulMono(Part(Interval(0, count), k, j).Len(), Begin(count, k, 1), esize);
  }

  /** With elements no larger than a chunk, no chunk is empty. */
  lemma NoMoreChunksThanElements(count: nat, esize: nat, limit: nat)
    requires count > 0 && 0 < esize <= limit
    ensures Chunks(count, esize, limit) <= count
  {
    var k := Chunks(count, esize, limit);
    if k > count {
      MulMono(count, k - 1, limit);
      MulMono(esize, limit, count);
    }
  }

  lemma FirstPartAtMost(count: nat, k: nat, m: nat)
    requires k > 0 && count <= k * m
    ensures Begin(count, k, 1) <= m
  {
    var q, r := count / k, count % k;
    BeginStep(count, k, 0);
    QuotientBelow(count, k, q, r, m);
  }

  lemma QuotientBelow(count: nat, k: nat, q: nat, r: nat, m: nat)
    requires k > 0 && count == q * k + r && count <= m * k
    ensures q + (if 0 < r then 1 else 0) <= m
  {
    if q > m {
      MulMono(m + 1, q, k);
      MulStep(m, k);
    }
  }

  lemma BoundHolds(count: nat, esize: nat, limit: nat)
    requires count > 0 && esize > 0 && limit > 0 && limit % esize == 0
    ensures LargestChunk(count, esize, limit) <= limit
  {
    var k, m := Chunks(count, esize, limit), limit / esize;
    assert limit == m * esize;
    CountAtMost(count, esize, m, k);
    FirstPartAtMost(count, k, m);
    MulMono(Begin(count, k, 1), m, esize);
  }

  lemma CountAtMost(count: nat, esize: nat, m: nat, k: nat)
    requires esize > 0 && count * esize <= k * (m * esize)
    ensures count <= k * m
  {
    assert k * (m * esize) == (k * m) * esize;
    if count > k * m { MulMono(k * m + 1, count, esize); }
  }

  lemma BoundFails(esize: nat, limit: nat)
    requires esize > 0 && limit > 0 && limit % esize != 0
    ensures LargestChunk(limit, esize, limit) > limit
  {
    var k := Chunks(limit, esize, limit);
    assert k == esize by {
      assert limit * esize == esize * limit;
      if k < esize { MulMono(k + 1, esize, limit); MulStep(k, limit); }
      if k > esize { MulMono(esize, k - 1, limit); }
    }
    BeginStep(limit, k, 0);
    var q, r := limit / esize, limit % esize;
    assert limit == q * esize + r;
    MulStep(q, esize);
  }

  ghost predicate ChunksFit(count: nat, esize: nat, limit: nat)
    requires count > 0 && esize > 0 && limit > 0
  {
    var k := Chunks(count, esize, limit);
    forall j: nat :: j < k ==> Part(Interval(0, count), k, j).Len() * esize <= limit
  }

  /** No chunk of any call is larger than the chunk size exactly when the element size
      divides it, as the sizes 1, 2, 4 and 8 divide 2^20. */
  lemma ByteBoundIsExact(esize: nat, limit: nat)
    requires esize > 0 && limit > 0
    ensures (forall count: nat :: count > 0 ==> ChunksFit(count, esize, limit)) <==> limit % esize == 0
  {
    if limit % esize == 0 {
      forall count: nat | count > 0 ensures ChunksFit(count, esize, limit) {
        BoundHolds(count, esize, limit);
        forall j: nat | j < Chunks(count, esize, limit)
          ensures Part(Interval(0, count), Chunks(count, esize, limit), j).Len() * esize <= limit
        {
          LargestIsFirst(count, esize, limit, Chunks(count, esize, limit), j);
        }
      }
    } else {
      BoundFails(esize, limit);
      var k := Chunks(limit, esize, limit);
      BeginStep(limit, k, 0);
      assert Part(Interval(0, limit), k, 0).Len() == Begin(limit, k, 1);
      assert !ChunksFit(limit, esize, limit);
    }
  }

  // ---------------------------------------------------------------- chunk names

  function Digit(d: nat): char
    requires d < 10
  {
    '0' + d as char
  }

  predicate IsDigit(c: char) { '0' <= c <= '9' }

  /** `std::to_string`. */
  function Decimal(n: nat): (s: string)
    ensures s != [] && forall i :: 0 <= i < |s| ==> IsDigit(s[i])
  {
    if n < 10 then [Digit(n)] else Decimal(n / 10) + [Digit(n % 10)]
  }

  lemma {:induction false} DecimalInjective(a: nat, b: nat)
    requires Decimal(a) == Decimal(b)
    ensures a == b
    decreases a
  {
    var s, t := Decimal(a), Decimal(b);
    assert s[|s| - 1] == Digit(a % 10) && t[|t| - 1] == Digit(b % 10);
    if a >= 10 && b >= 10 {
      assert s[..|s| - 1] == Decimal(a / 10) && t[..|t| - 1] == Decimal(b / 10);
      DecimalInjective(a / 10, b / 10);
    }
  }

  /** What a numeral says, most significant digit first. */
  function ValueOf(s: string): int {
    if s == [] then 0 else 10 * ValueOf(s[..|s| - 1]) + (s[|s| - 1] as int - '0' as int)
  }

  /** Decimal notation: the numeral says the number, and has no leading zero. */
  lemma {:induction false} DecimalDenotes(n: nat)
    ensures ValueOf(Decimal(n)) == n
    ensures Decimal(n)[0] == '0' ==> n == 0
    ensures |Decimal(n)| == 1 <==> n < 10
  {
    if n >= 10 {
      DecimalDenotes(n / 10);
      var s := Decimal(n);
      assert s[..|s| - 1] == Decimal(n / 10);
    } else {
      assert [Digit(n)][..0] == [];
    }
  }

  function DigitTail(s: string): string {
    if s != [] && IsDigit(s[|s| - 1]) then DigitTail(s[..|s| - 1]) + [s[|s| - 1]] else []
  }

  /** A run of digits behind a character that is none can be read back. */
  lemma {:induction false} DigitsAtTheEnd(a: string, d: string)
    requires a != [] && !IsDigit(a[|a| - 1]) && forall i :: 0 <= i < |d| ==> IsDigit(d[i])
    ensures DigitTail(a + d) == d
    decreases |d|
  {
    if d == [] {
      assert a + d == a;
    } else {
      assert (a + d)[..|a + d| - 1] == a + d[..|d| - 1];
      DigitsAtTheEnd(a, d[..|d| - 1]);
    }
  }

  lemma SameDigits(a: string, d: string, a': string, d': string)
    requires a + d == a' + d' && a != [] && a' != []
    requires !IsDigit(a[|a| - 1]) && !IsDigit(a'[|a'| - 1])
    requires (forall i :: 0 <= i < |d| ==> IsDigit(d[i])) && forall i :: 0 <= i < |d'| ==> IsDigit(d'[i])
    ensures a == a' && d == d'
  {
    DigitsAtTheEnd(a, d);
    DigitsAtTheEnd(a', d');
    assert (a + d)[..|a|] == a && (a' + d')[..|a'|] == a';
  }

  function SliceName(name: string, i: nat, j: nat): string {
    "part::" + name + "[" + Decimal(i) + ":" + Decimal(j) + "]"
  }

  /** No two slices share a name unless they are the same slice of the same name. */
  lemma SliceNameInjective(name: string, i: nat, j: nat, name': string, i': nat, j': nat)
    requires SliceName(name, i, j) == SliceName(name', i', j')
    ensures name == name' && i == i' && j == j'
  {
    var a, a' := "part::" + name + "[", "part::" + name' + "[";
    var s, s' := SliceName(name, i, j), SliceName(name', i', j');
    var b, b' := a + Decimal(i) + ":", a' + Decimal(i') + ":";
    assert s[..|s| - 1] == b + Decimal(j) && s'[..|s'| - 1] == b' + Decimal(j');
    SameDigits(b, Decimal(j), b', Decimal(j'));
    assert b[..|b| - 1] == a + Decimal(i) && b'[..|b'| - 1] == a' + Decimal(i');
    SameDigits(a, Decimal(i), a', Decimal(i'));
    assert a[6..|a| - 1] == name && a'[6..|a'| - 1] == name';
    DecimalInjective(i, i');
    DecimalInjective(j, j');
  }

  // ---------------------------------------------------------------- choosing a graph pair

  const TWO64: nat := 0x1_0000_0000_0000_0000

  /** The square of a `char`, which may be signed. */
  function Square(c: char): nat {
    var v := c as int % 256;
    var x := if v < 128 then v else v - 256;
    x * x
  }

  function SumOfSquares(name: string): nat {
    if name == [] then 0 else SumOfSquares(name[..|name| - 1]) + Square(name[|name| - 1])
  }

  lemma AddWrapped(a: nat, b: nat)
    ensures (a % TWO64 + b) % TWO64 == (a + b) % TWO64
  {
  }

  function Hash(name: string): nat {
    SumOfSquares(name) % TWO64
  }

  /** What the hash of a name is: characters count with the square of their signed value, in any
      order, modulo 2^64. */
  lemma HashMeaning(a: string, b: string, c: char)
    ensures Hash([]) == 0
    ensures c as int < 128 ==> Hash([c]) == c as int * c as int
    ensures 128 <= c as int < 256 ==> Hash([c]) == (256 - c as int) * (256 - c as int)
    ensures Hash(a + b) == (Hash(a) + Hash(b)) % 0x1_0000_0000_0000_0000
  {
    assert [c][..0] == [];
    if 128 <= c as int < 256 { Opposite(c as int - 256, 256 - c as int); }
    SmallSquare(c);
    SquaresAdd(a, b);
    AddWrapped(SumOfSquares(a), SumOfSquares(b));
    AddWrapped(SumOfSquares(b), Hash(a));
  }

  lemma Opposite(x: int, y: int)
    requires x == -y
    ensures x * x == y * y
  {
  }

  lemma Product(a: nat, b: nat)
    ensures a * b >= 0
  {
  }

  lemma SquareBound(x: int)
    requires -128 <= x <= 128
    ensures 0 <= x * x <= 0x4000
  {
    Product(128 - x, 128 + x);
    assert (128 - x) * (128 + x) == 0x4000 - x * x;
    if x < 0 { Opposite(x, -x); }
  }

  lemma SmallSquare(c: char)
    ensures Square(c) <= 0x4000 && Square(c) % TWO64 == Square(c)
  {
    var v := c as int % 256;
    SquareBound(if v < 128 then v else v - 256);
  }

  lemma {:induction false} SquaresAdd(a: string, b: string)
    ensures SumOfSquares(a + b) == SumOfSquares(a) + SumOfSquares(b)
    decreases |b|
  {
    if b == [] {
      assert a + b == a;
    } else {
      var s := a + b;
      assert s[..|s| - 1] == a + b[..|b| - 1];
      SquaresAdd(a, b[..|b| - 1]);
    }
  }

  method NameBasedHash(name: string) returns (h: nat)
    ensures h == Hash(name)
  {
    h := 0;
    for i := 0 to |name|
      invariant h == Hash(name[..i])
    {
      assert name[..i + 1][..i] == name[..i];
      AddWrapped(SumOfSquares(name[..i]), Square(name[i]));
      h := (h + Square(name[i])) % TWO64;
    }
    assert name[..|name|] == name;
  }

  // ---------------------------------------------------------------- split and split_work

  /** `send` and `recv` are addresses, `esize` the size of one element in bytes. */
  datatype Workspace = Workspace(send: nat, recv: nat, count: nat, esize: nat, name: string)

  function Slice(w: Workspace, i: nat, j: nat): Workspace
    requires i <= j
  {
    Workspace(w.send + i * w.esize, w.recv + i * w.esize, j - i, w.esize, SliceName(w.name, i, j))
  }

  function Chunk(w: Workspace, k: nat, j: nat): Workspace
    requires k > 0
  {
    BeginMono(w.count, k, j, j + 1);
    Slice(w, Begin(w.count, k, j), Begin(w.count, k, j + 1))
  }

  /** Elements in the chunks before chunk `j`. */
  function Before(ws: seq<Workspace>, j: nat): nat
    requires j <= |ws|
  {
    if j == 0 then 0 else Before(ws, j - 1) + ws[j - 1].count
  }

  /** The chunks lie end to end in both buffers, from the beginning to the end, as even as can be
      with the longer ones first, and are named after the elements they hold. */
  ghost predicate CutEvenly(w: Workspace, ws: seq<Workspace>) {
    var k := |ws|;
    && k > 0
    && ws[0].send == w.send && ws[0].recv == w.recv
    && (forall j: nat :: j < k ==> ws[j].esize == w.esize)
    && (forall j: nat :: j < k ==> ws[j].count == w.count / k + if j < w.count % k then 1 else 0)
    && (forall j: nat :: j + 1 < k ==> ws[j + 1].send == ws[j].send + ws[j].count * w.esize)
    && (forall j: nat :: j + 1 < k ==> ws[j + 1].recv == ws[j].recv + ws[j].count * w.esize)
    && ws[k - 1].send + ws[k - 1].count * w.esize == w.send + w.count * w.esize
    && ws[k - 1].recv + ws[k - 1].count * w.esize == w.recv + w.count * w.esize
    && (forall j: nat :: j < k ==>
          ws[j].name == "part::" + w.name + "[" + Decimal(Before(ws, j)) + ":" + Decimal(Before(ws, j + 1)) + "]")
  }

  lemma ChunkSize(w: Workspace, k: nat, j: nat)
    requires k > 0 && j < k
    ensures Chunk(w, k, j).count == w.count / k + if j < w.count % k then 1 else 0
    ensures Begin(w.count, k, j + 1) == Begin(w.count, k, j) + Chunk(w, k, j).count
    ensures Begin(w.count, k, j + 1) * w.esize == Begin(w.count, k, j) * w.esize + Chunk(w, k, j).count * w.esize
  {
    BeginStep(w.count, k, j);
    Spread(Begin(w.count, k, j), Chunk(w, k, j).count, w.esize);
  }

  lemma Spread(a: nat, b: nat, e: nat)
    ensures (a + b) * e == a * e + b * e
  {
  }

  lemma {:induction false} BeforeIsBegin(w: Workspace, ws: seq<Workspace>, j: nat)
    requires |ws| > 0 && j <= |ws| && forall h :: 0 <= h < |ws| ==> ws[h] == Chunk(w, |ws|, h)
    ensures Before(ws, j) == Begin(w.count, |ws|, j)
  {
    BeginStep(w.count, |ws|, 0);
    if j > 0 {
      BeforeIsBegin(w, ws, j - 1);
      ChunkSize(w, |ws|, j - 1);
    }
  }

  /** Where chunk `j` begins and ends. */
  lemma ChunkPlace(w: Workspace, ws: seq<Workspace>, j: nat)
    requires j < |ws| && forall h :: 0 <= h < |ws| ==> ws[h] == Chunk(w, |ws|, h)
    ensures var a, b := Begin(w.count, |ws|, j) * w.esize, Begin(w.count, |ws|, j + 1) * w.esize;
            && ws[j].send == w.send + a && ws[j].send + ws[j].count * w.esize == w.send + b
            && ws[j].recv == w.recv + a && ws[j].recv + ws[j].count * w.esize == w.recv + b
    ensures ws[j].esize == w.esize && ws[j].count == w.count / |ws| + if j < w.count % |ws| then 1 else 0
  {
    ChunkSize(w, |ws|, j);
  }

  lemma ChunkName(w: Workspace, ws: seq<Workspace>, j: nat)
    requires j < |ws| && forall h :: 0 <= h < |ws| ==> ws[h] == Chunk(w, |ws|, h)
    ensures ws[j].name == "part::" + w.name + "[" + Decimal(Before(ws, j)) + ":" + Decimal(Before(ws, j + 1)) + "]"
  {
    BeforeIsBegin(w, ws, j);
    BeforeIsBegin(w, ws, j + 1);
  }

  lemma ChunksCutEvenly(w: Workspace, ws: seq<Workspace>)
    requires |ws| > 0 && forall h :: 0 <= h < |ws| ==> ws[h] == Chunk(w, |ws|, h)
    ensures CutEvenly(w, ws)
  {
    var k := |ws|;
    BeginStep(w.count, k, 0);
    BeginLast(w.count, k);
    ChunkPlace(w, ws, 0);
    ChunkPlace(w, ws, k - 1);
    forall j: nat | j < k
      ensures ws[j].esize == w.esize && ws[j].count == w.count / k + if j < w.count % k then 1 else 0
    {
      ChunkPlace(w, ws, j);
    }
    forall j: nat | j + 1 < k
      ensures ws[j + 1].send == ws[j].send + ws[j].count * w.esize
      ensures ws[j + 1].recv == ws[j].recv + ws[j].count * w.esize
    {
      ChunkPlace(w, ws, j);
      ChunkPlace(w, ws, j + 1);
    }
    forall j: nat | j < k
      ensures ws[j].name == "part::" + w.name + "[" + Decimal(Before(ws, j)) + ":" + Decimal(Before(ws, j + 1)) + "]"
    {
      ChunkName(w, ws, j);
    }
  }

  method Split(w: Workspace, k: nat) returns (ws: seq<Workspace>)
    requires k > 0
    ensures |ws| == k && forall j :: 0 <= j < k ==> ws[j] == Chunk(w, k, j)
    ensures CutEvenly(w, ws)
  {
    var ps := EvenPartition(Interval(0, w.count), k);
    ws := [];
    for j := 0 to k
      invariant |ws| == j && forall h :: 0 <= h < j ==> ws[h] == Chunk(w, k, h)
    {
      BeginMono(w.count, k, j, j + 1);
      ws := ws + [Slice(w, ps[j].begin, ps[j].end)];
    }
    ChunksCutEvenly(w, ws);
  }

  function Choice(name: string, m: nat): (i: nat)
    requires m > 0
    ensures i == Hash(name) % m < m
  {
    Hash(name) % m
  }

  /** The chunks of `SplitWork` without their graph pairs. */
  function ChunksOf(pw: seq<(Workspace, GraphPair)>): (ws: seq<Workspace>)
    ensures |ws| == |pw| && forall j :: 0 <= j < |ws| ==> ws[j] == pw[j].0
  {
    seq(|pw|, j requires 0 <= j < |pw| => pw[j].0)
  }

  method SplitWork(w: Workspace, pairs: seq<GraphPair>, limit: nat) returns (pw: seq<(Workspace, GraphPair)>)
    requires w.count > 0 && w.esize > 0 && limit > 0 && pairs != []
    ensures |pw| == Chunks(w.count, w.esize, limit)
    ensures (|pw| - 1) * limit < w.count * w.esize <= |pw| * limit
    ensures forall j :: 0 <= j < |pw| ==> pw[j].0 == Chunk(w, |pw|, j)
    ensures CutEvenly(w, ChunksOf(pw))
    ensures forall j :: 0 <= j < |pw| ==> pw[j].1 == pairs[Hash(pw[j].0.name) % |pairs|]
    ensures forall j :: 0 <= j < |pw| ==> pw[j].1 == pairs[Choice(Chunk(w, |pw|, j).name, |pairs|)]
  {
    var k := Chunks(w.count, w.esize, limit);
    var ws := Split(w, k);
    pw := [];
    for i := 0 to k
      invariant |pw| == i
      invariant forall j :: 0 <= j < i ==> pw[j].0 == ws[j] && pw[j].1 == pairs[Hash(ws[j].name) % |pairs|]
    {
      var h := NameBasedHash(ws[i].name);
      pw := pw + [(ws[i], pairs[h % |pairs|])];
    }
    assert ChunksOf(pw) == ws;
  }

  /** Chunks of one call, and of calls with different names, never share a mailbox key. */
  lemma ChunkNamesDistinct(w: Workspace, k: nat, j: nat, w': Workspace, k': nat, j': nat)
    requires 0 < k <= w.count && j < k && 0 < k' <= w'.count && j' < k'
    requires w.name != w'.name || (w == w' && k == k' && j < j')
    ensures Chunk(w, k, j).name != Chunk(w', k', j').name
  {
    var a, b := Begin(w.count, k, j), Begin(w.count, k, j + 1);
    var a', b' := Begin(w'.count, k', j'), Begin(w'.count, k', j' + 1);
    BeginMono(w.count, k, j, j + 1);
    BeginMono(w'.count, k', j', j' + 1);
    if SliceName(w.name, a, b) == SliceName(w'.name, a', b') {
      SliceNameInjective(w.name, a, b, w'.name, a', b');
      PartsAreNonempty(Interval(0, w.count), k);
      assert Part(Interval(0, w.count), k, j).Len() == b - a;
      BeginMono(w.count, k, j + 1, j');
      assert false;
    }
  }
}
