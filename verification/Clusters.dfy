/** Cluster configurations and their byte digests: `peer_id`, `cluster_config::bytes` and
    `cluster_config::from`. */
module Clusters {
  import opened Bytes

  type Ipv4 = x: int | 0 <= x < 0x1_0000_0000
  type Port = x: int | 0 <= x < 0x1_0000

  datatype PeerId = PeerId(ipv4: Ipv4, port: Port)

  datatype Config = Config(runners: seq<PeerId>, workers: seq<PeerId>)

  datatype Option<T> = None | Some(value: T)

  // ---------------------------------------------------------------- one peer: six packed bytes

  function PeerBytes(p: PeerId): (b: seq<byte>)
    ensures |b| == 6
  {
    Le32(p.ipv4) + Le16(p.port)
  }

  function PeerFrom(b: seq<byte>): PeerId
    requires |b| == 6
  {
    PeerId(FromLe32(b[..4]), FromLe16(b[4..]))
  }

  lemma PeerRoundTrip(p: PeerId, b: seq<byte>)
    requires |b| == 6
    ensures PeerFrom(PeerBytes(p)) == p && PeerBytes(PeerFrom(b)) == b
  {
    Le32Inverse(p.ipv4);
    Le16Inverse(p.port, b[4..]);
    FromLe32Inverse(b[..4]);
    var c := PeerBytes(p);
    assert c[..4] == Le32(p.ipv4) && c[4..] == Le16(p.port);
    assert b[..4] + b[4..] == b;
  }

  // ---------------------------------------------------------------- arrays of peers

  function PeersBytes(ps: seq<PeerId>): (b: seq<byte>)
    ensures |b| == 6 * |ps|
  {
    if ps == [] then [] else PeerBytes(ps[0]) + PeersBytes(ps[1..])
  }

  function PeersFrom(b: seq<byte>, n: nat): (ps: seq<PeerId>)
    requires |b| == 6 * n
    ensures |ps| == n
  {
    if n == 0 then [] else [PeerFrom(b[..6])] + PeersFrom(b[6..], n - 1)
  }

  lemma {:induction false} PeersFromBytes(ps: seq<PeerId>)
    ensures PeersFrom(PeersBytes(ps), |ps|) == ps
  {
    if ps != [] {
      var h := PeerBytes(ps[0]);
      PeerRoundTrip(ps[0], h);
      PeersFromBytes(ps[1..]);
      assert (h + PeersBytes(ps[1..]))[..6] == h && (h + PeersBytes(ps[1..]))[6..] == PeersBytes(ps[1..]);
    }
  }

  lemma {:induction false} PeersBytesFrom(b: seq<byte>, n: nat)
    requires |b| == 6 * n
    ensures PeersBytes(PeersFrom(b, n)) == b
  {
    if n > 0 {
      PeerRoundTrip(PeerFrom(b[..6]), b[..6]);
      PeersBytesFrom(b[6..], n - 1);
      assert b[..6] + b[6..] == b;
    }
  }

  // ---------------------------------------------------------------- bytes and from

  function ToBytes(c: Config): seq<byte> {
    Le32(|c.runners|) + Le32(|c.workers|) + PeersBytes(c.runners) + PeersBytes(c.workers)
  }

  /** The first eight bytes are read unchecked. */
  function From(bs: seq<byte>): Option<Config>
    requires |bs| >= 8
  {
    var nr, nw := FromLe32(bs[..4]), FromLe32(bs[4..8]);
    if 6 * nr + 6 * nw + 8 != |bs| then None
    else Some(Config(PeersFrom(bs[8..8 + 6 * nr], nr), PeersFrom(bs[8 + 6 * nr..], nw)))
  }

  predicate Countable(c: Config) {
    |c.runners| < TWO32 && |c.workers| < TWO32
  }

  lemma Layout(a: seq<byte>, b: seq<byte>, r: seq<byte>, w: seq<byte>)
    requires |a| == |b| == 4
    ensures var s := a + b + r + w;
            s[..4] == a && s[4..8] == b && s[8..8 + |r|] == r && s[8 + |r|..] == w
  {
  }

  /** A digest decodes to the configuration it was made from exactly when both counts fit
      their fields; otherwise it is rejected. */
  lemma FromToBytes(c: Config)
    ensures |ToBytes(c)| >= 8
    ensures From(ToBytes(c)) == if Countable(c) then Some(c) else None
  {
    Layout(Le32(|c.runners|), Le32(|c.workers|), PeersBytes(c.runners), PeersBytes(c.workers));
    Le32Inverse(|c.runners|);
    Le32Inverse(|c.workers|);
    PeersFromBytes(c.runners);
    PeersFromBytes(c.workers);
  }

  lemma Accepted(bs: seq<byte>)
    requires |bs| >= 8 && From(bs).Some?
    ensures Countable(From(bs).value) && ToBytes(From(bs).value) == bs
  {
    var nr, nw := FromLe32(bs[..4]), FromLe32(bs[4..8]);
    PeersBytesFrom(bs[8..8 + 6 * nr], nr);
    PeersBytesFrom(bs[8 + 6 * nr..], nw);
    FromLe32Inverse(bs[..4]);
    FromLe32Inverse(bs[4..8]);
    assert bs == bs[..4] + bs[4..8] + bs[8..8 + 6 * nr] + bs[8 + 6 * nr..];
  }

  /** `from` accepts a byte string exactly when it is the digest of a configuration, and
      answers with that one. */
  lemma FromIsInverse(bs: seq<byte>, c: Config)
    requires |bs| >= 8
    ensures From(bs) == Some(c) <==> Countable(c) && bs == ToBytes(c)
  {
    FromToBytes(c);
    if From(bs).Some? { Accepted(bs); }
  }

  /** Equal digests are equal configurations. */
  lemma DigestsAgree(c: Config, d: Config)
    requires Countable(c) && Countable(d)
    ensures ToBytes(c) == ToBytes(d) <==> c == d
  {
    FromToBytes(c);
    FromToBytes(d);
  }

  // ---------------------------------------------------------------- the bytes themselves

  /** Six bytes at place `at`: the address, least significant byte first, and the port likewise. */
  ghost predicate PeerAt(bs: seq<byte>, at: nat, p: PeerId) {
    && at + 6 <= |bs|
    && bs[at] == p.ipv4 % 256 && bs[at + 1] == p.ipv4 / 256 % 256
    && bs[at + 2] == p.ipv4 / 0x1_0000 % 256 && bs[at + 3] == p.ipv4 / 0x100_0000
    && bs[at + 4] == p.port % 256 && bs[at + 5] == p.port / 256
  }

  lemma PeerAtStart(p: PeerId)
    ensures PeerAt(PeerBytes(p), 0, p)
  {
    FourBytes(p.ipv4);
  }

  lemma PeerBehind(a: seq<byte>, b: seq<byte>, at: nat, p: PeerId)
    requires PeerAt(b, at, p)
    ensures PeerAt(a + b, |a| + at, p)
  {
  }

  lemma PeerBefore(a: seq<byte>, b: seq<byte>, at: nat, p: PeerId)
    requires PeerAt(a, at, p)
    ensures PeerAt(a + b, at, p)
  {
  }

  lemma {:induction false} PeersAt(ps: seq<PeerId>, i: nat)
    requires i < |ps|
    ensures PeerAt(PeersBytes(ps), 6 * i, ps[i])
    decreases i
  {
    var h, rest := PeerBytes(ps[0]), PeersBytes(ps[1..]);
    if i == 0 {
      PeerAtStart(ps[0]);
      PeerBefore(h, rest, 0, ps[0]);
    } else {
      PeersAt(ps[1..], i - 1);
      PeerBehind(h, rest, 6 * (i - 1), ps[i]);
    }
  }

  /** A digest: the two counts in four bytes each, the runners, and then the workers, in order. */
  lemma DigestLayout(c: Config, i: nat)
    requires Countable(c)
    ensures var bs, r, w := ToBytes(c), |c.runners|, |c.workers|;
            && |bs| == 8 + 6 * r + 6 * w
            && bs[0] == r % 256 && bs[1] == r / 256 % 256 && bs[2] == r / 0x1_0000 % 256 && bs[3] == r / 0x100_0000
            && bs[4] == w % 256 && bs[5] == w / 256 % 256 && bs[6] == w / 0x1_0000 % 256 && bs[7] == w / 0x100_0000
            && (i < r ==> PeerAt(bs, 8 + 6 * i, c.runners[i]))
            && (i < w ==> PeerAt(bs, 8 + 6 * r + 6 * i, c.workers[i]))
  {
    var head := Le32(|c.runners|) + Le32(|c.workers|);
    var rs, ws := PeersBytes(c.runners), PeersBytes(c.workers);
    FourBytes(|c.runners|);
    FourBytes(|c.workers|);
    assert ToBytes(c) == head + rs + ws == head + (rs + ws);
    if i < |c.runners| {
      PeersAt(c.runners, i);
      PeerBefore(rs, ws, 6 * i, c.runners[i]);
      PeerBehind(head, rs + ws, 6 * i, c.runners[i]);
    }
    if i < |c.workers| {
      PeersAt(c.workers, i);
      PeerBehind(head + rs, ws, 6 * i, c.workers[i]);
    }
  }
}
