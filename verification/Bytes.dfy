/** Unsigned integers in memory, least significant byte first. */
module Bytes {

  type byte = x: int | 0 <= x < 256

  const TWO32: nat := 0x1_0000_0000

  /** What a `uint32_t` keeps of a number. */
  function Le32(n: nat): (b: seq<byte>)
    ensures |b| == 4
  {
    [n % 256, n / 256 % 256, n / 0x1_0000 % 256, n / 0x100_0000 % 256]
  }

  function FromLe32(b: seq<byte>): (n: nat)
    requires |b| == 4
    ensures n < TWO32
  {
    var (b0: int, b1: int, b2: int, b3: int) := (b[0], b[1], b[2], b[3]);
    b0 + 256 * b1 + 0x1_0000 * b2 + 0x100_0000 * b3
  }

  /** Dividing by 256 step by step. */
  lemma Quotients(n: nat)
    ensures n / 0x1_0000 == n / 256 / 256
    ensures n / 0x100_0000 == n / 0x1_0000 / 256
  {
  }

  lemma LastQuotient(n: nat)
    ensures n / TWO32 == n / 0x100_0000 / 256
  {
  }

  lemma Remainder(n: nat, q: nat, r: nat)
    requires n == TWO32 * q + r && r < TWO32
    ensures n % TWO32 == r
  {
  }

  lemma Digits(n: nat)
    ensures n == TWO32 * (n / TWO32) + FromLe32(Le32(n))
  {
    var q1, q2, q3 := n / 256, n / 0x1_0000, n / 0x100_0000;
    Quotients(n);
    LastQuotient(n);
    assert n == 256 * q1 + n % 256 && q1 == 256 * q2 + q1 % 256;
    assert q2 == 256 * q3 + q2 % 256 && q3 == 256 * (n / TWO32) + q3 % 256;
  }

  /** A number survives the field modulo 2^32. */
  lemma Le32Inverse(n: nat)
    ensures FromLe32(Le32(n)) == n % TWO32
    ensures n < TWO32 ==> FromLe32(Le32(n)) == n
  {
    Digits(n);
    Remainder(n, n / TWO32, FromLe32(Le32(n)));
  }

  lemma FourBytes(n: nat)
    requires n < TWO32
    ensures Le32(n) == [n % 256, n / 256 % 256, n / 0x1_0000 % 256, n / 0x100_0000]
  {
  }

  lemma LowDigit(lo: nat, hi: nat, lo': nat, hi': nat)
    requires lo < 256 && lo' < 256 && lo + 256 * hi == lo' + 256 * hi'
    ensures lo == lo' && hi == hi'
  {
  }

  lemma FromLe32Injective(a: seq<byte>, b: seq<byte>)
    requires |a| == |b| == 4 && FromLe32(a) == FromLe32(b)
    ensures a == b
  {
    var (a0: int, a1: int, a2: int, a3: int) := (a[0], a[1], a[2], a[3]);
    var (b0: int, b1: int, b2: int, b3: int) := (b[0], b[1], b[2], b[3]);
    LowDigit(a0, a1 + 256 * (a2 + 256 * a3), b0, b1 + 256 * (b2 + 256 * b3));
    LowDigit(a1, a2 + 256 * a3, b1, b2 + 256 * b3);
    LowDigit(a2, a3, b2, b3);
  }

  /** Every four bytes are the field of one number. */
  lemma FromLe32Inverse(b: seq<byte>)
    requires |b| == 4
    ensures Le32(FromLe32(b)) == b
  {
    Le32Inverse(FromLe32(b));
    FromLe32Injective(Le32(FromLe32(b)), b);
  }

  function Le16(n: nat): (b: seq<byte>)
    requires n < 0x1_0000
    ensures |b| == 2
  {
    [n % 256, n / 256]
  }

  function FromLe16(b: seq<byte>): (n: nat)
    requires |b| == 2
    ensures n < 0x1_0000
  {
    var (b0: int, b1: int) := (b[0], b[1]);
    b0 + 256 * b1
  }

  lemma Le16Inverse(n: nat, b: seq<byte>)
    requires n < 0x1_0000 && |b| == 2
    ensures FromLe16(Le16(n)) == n && Le16(FromLe16(b)) == b
  {
    var (b0: int, b1: int) := (b[0], b[1]);
    assert (b0 + 256 * b1) % 256 == b0 && (b0 + 256 * b1) / 256 == b1;
  }
}
