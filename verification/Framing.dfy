/** Message framing on a connection: `send`, the exact-read and exact-write loops over a
    socket that moves bytes in pieces of its own choosing, `read_header`, `read_body` and
    `handle_to_end`. */
module Framing {

  import opened Bytes

  datatype Message = Message(name: seq<byte>, flags: nat, body: seq<byte>)

  // ---------------------------------------------------------------- what send puts on the wire

  /** The characters before the first NUL, which is all `strlen` sees. */
  function CString(name: seq<byte>): (c: seq<byte>)
  {
    if name == [] || name[0] == 0 then [] else [name[0]] + CString(name[1..])
  }

  /** Up to the first NUL, or everything. */
  lemma {:induction false} CStringStops(name: seq<byte>)
    ensures var c := CString(name);
            c <= name && 0 !in c && (c == name || name[|c|] == 0)
  {
    if name != [] && name[0] != 0 {
      CStringStops(name[1..]);
      assert name == [name[0]] + name[1..];
    }
  }

  /** The message as the 32-bit fields carry it. */
  function OnWire(m: Message): Message {
    Message(CString(m.name)[..|CString(m.name)| % TWO32], m.flags % TWO32, m.body[..|m.body| % TWO32])
  }

  lemma WireLengths(m: Message)
    ensures |OnWire(m).name| < TWO32 && OnWire(m).flags < TWO32 && |OnWire(m).body| < TWO32
  {
  }

  function Encode(m: Message): seq<byte> {
    Frame(OnWire(m))
  }

  function Frame(w: Message): seq<byte> {
    Le32(|w.name|) + w.name + Le32(w.flags) + Le32(|w.body|) + w.body
  }

  function EncodeAll(ms: seq<Message>): seq<byte> {
    if ms == [] then [] else Encode(ms[0]) + EncodeAll(ms[1..])
  }

  function OnWireAll(ms: seq<Message>): seq<Message> {
    if ms == [] then [] else [OnWire(ms[0])] + OnWireAll(ms[1..])
  }

  /** Messages the fields can hold: the name must leave room for the 8 bytes behind it in
      the 32-bit sum of `read_header`. */
  predicate Fits(m: Message) {
    0 !in m.name && |m.name| + 8 < TWO32 && m.flags < TWO32 && |m.body| < TWO32
  }

  // ---------------------------------------------------------------- what a stream means

  datatype Outcome = Ended | Thrown | Undefined

  datatype Step = Stop(out: Outcome) | Item(m: Message, rest: seq<byte>)

  /** The next message of a stream, or how reading stops: inside a length field counts as
      ended; later in a message the exact read throws; a name length within 8 of 2^32 wraps
      the buffer size. */
  function Next(s: seq<byte>): (x: Step)
    ensures x.Item? ==> |x.rest| < |s|
  {
    if |s| < 4 then Stop(Ended) else
      var n := FromLe32(s[..4]);
      if n + 8 >= TWO32 then Stop(Undefined)
      else if |s| < n + 12 then Stop(Thrown) else
        var len := FromLe32(s[n + 8..n + 12]);
        if |s| < n + 12 + len then Stop(Thrown)
        else Item(Message(s[4..n + 4], FromLe32(s[n + 4..n + 8]), s[n + 12..n + 12 + len]), s[n + 12 + len..])
  }

  /** What every byte stream, complete or not, delivers. */
  function Parse(s: seq<byte>): (seq<Message>, Outcome)
    decreases |s|
  {
    match Next(s)
    case Stop(out) => ([], out)
    case Item(m, rest) => ([m] + Parse(rest).0, Parse(rest).1)
  }

  lemma Slices(a: seq<byte>, name: seq<byte>, f: seq<byte>, l: seq<byte>, body: seq<byte>, rest: seq<byte>,
               s: seq<byte>)
    requires |a| == |f| == |l| == 4 && s == a + name + f + l + body + rest
    ensures var n, len := |name|, |body|;
            |s| >= n + 12 + len && s[..4] == a && s[4..n + 4] == name && s[n + 4..n + 8] == f
            && s[n + 8..n + 12] == l && s[n + 12..n + 12 + len] == body && s[n + 12 + len..] == rest
  {
  }

  lemma NextFields(a: seq<byte>, name: seq<byte>, f: seq<byte>, l: seq<byte>, body: seq<byte>, rest: seq<byte>)
    requires |a| == |f| == |l| == 4
    requires FromLe32(a) == |name| && |name| + 8 < TWO32 && FromLe32(l) == |body|
    ensures Next(a + name + f + l + body + rest) == Item(Message(name, FromLe32(f), body), rest)
  {
    Slices(a, name, f, l, body, rest, a + name + f + l + body + rest);
  }

  /** One frame is read back whole, whatever follows it. */
  lemma NextFrame(w: Message, rest: seq<byte>)
    requires |w.name| + 8 < TWO32 && w.flags < TWO32 && |w.body| < TWO32
    ensures Next(Frame(w) + rest) == Item(w, rest)
  {
    Le32Inverse(|w.name|);
    Le32Inverse(w.flags);
    Le32Inverse(|w.body|);
    NextFields(Le32(|w.name|), w.name, Le32(w.flags), Le32(|w.body|), w.body, rest);
  }

  lemma ParseStep(s: seq<byte>, before: seq<Message>, m: Message, rest: seq<byte>)
    requires Next(s) == Item(m, rest)
    ensures before + Parse(s).0 == (before + [m]) + Parse(rest).0 && Parse(s).1 == Parse(rest).1
  {
    assert Parse(s) == ([m] + Parse(rest).0, Parse(rest).1);
    assert before + ([m] + Parse(rest).0) == (before + [m]) + Parse(rest).0;
  }

  lemma ParseStop(s: seq<byte>, out: Outcome)
    requires Next(s) == Stop(out)
    ensures Parse(s) == ([], out)
  {
  }

  /** A sequence of sends is read back message by message, in order. */
  lemma {:induction false} ParseEncodedAll(ms: seq<Message>)
    requires forall i :: 0 <= i < |ms| ==> |OnWire(ms[i]).name| + 8 < TWO32
    ensures Parse(EncodeAll(ms)) == (OnWireAll(ms), Ended)
  {
    if ms != [] {
      ParseEncodedAll(ms[1..]);
      WireLengths(ms[0]);
      var rest := EncodeAll(ms[1..]);
      NextFrame(OnWire(ms[0]), rest);
      ParseStep(Encode(ms[0]) + rest, [], OnWire(ms[0]), rest);
    }
  }

  lemma WireIsSent(m: Message)
    ensures OnWire(m) == m <==> 0 !in m.name && |m.name| < TWO32 && m.flags < TWO32 && |m.body| < TWO32
  {
    var c := CString(m.name);
    CStringStops(m.name);
    if |m.name| < TWO32 && |m.body| < TWO32 {
      assert c[..|c|] == c && m.body[..|m.body|] == m.body;
    }
    WireLengths(m);
  }

  lemma WrappedName(m: Message, rest: seq<byte>)
    requires |OnWire(m).name| + 8 >= TWO32
    ensures Parse(Encode(m) + rest) == ([], Undefined)
  {
    var w := OnWire(m);
    WireLengths(m);
    Le32Inverse(|w.name|);
    Slices(Le32(|w.name|), w.name, Le32(w.flags), Le32(|w.body|), w.body, rest, Encode(m) + rest);
    ParseStop(Encode(m) + rest, Undefined);
  }

  predicate AllFit(ms: seq<Message>) {
    forall i :: 0 <= i < |ms| ==> Fits(ms[i])
  }

  lemma AllFitStep(ms: seq<Message>)
    requires ms != []
    ensures AllFit(ms) <==> Fits(ms[0]) && AllFit(ms[1..])
  {
    assert ms == [ms[0]] + ms[1..];
  }

  lemma OneMore(m: Message, ms: seq<Message>, s: seq<byte>)
    ensures Parse(Encode(m) + s) == ([m] + ms, Ended) <==> Fits(m) && Parse(s) == (ms, Ended)
  {
    WireIsSent(m);
    WireLengths(m);
    var w := OnWire(m);
    if |w.name| + 8 >= TWO32 {
      WrappedName(m, s);
    } else {
      NextFrame(w, s);
      ParseStep(Encode(m) + s, [], w, s);
      SameMessages(m, ms, w, Parse(s).0);
    }
  }

  lemma SameMessages(m: Message, ms: seq<Message>, w: Message, ws: seq<Message>)
    ensures ([] + [w]) + ws == [m] + ms <==> w == m && ws == ms
  {
    assert (([] + [w]) + ws)[1..] == ws && ([m] + ms)[1..] == ms;
    assert (([] + [w]) + ws)[0] == w && ([m] + ms)[0] == m;
  }

  /** Names, flags and bodies are delivered exactly as sent if and only if they all fit. */
  lemma {:induction false} RoundTrip(ms: seq<Message>)
    ensures Parse(EncodeAll(ms)) == (ms, Ended) <==> AllFit(ms)
  {
    if ms != [] {
      RoundTrip(ms[1..]);
      AllFitStep(ms);
      OneMore(ms[0], ms[1..], EncodeAll(ms[1..]));
      assert ms == [ms[0]] + ms[1..];
    }
  }

  /** Where everything is in a frame: the length of the name, the name, the flags, the length of
      the body, each number in four bytes with the least significant first, and the body. */
  lemma FrameLayout(m: Message)
    requires Fits(m)
    ensures var s, n := Encode(m), |m.name|;
            && |s| == n + 12 + |m.body|
            && s[0] == n % 256 && s[1] == n / 256 % 256 && s[2] == n / 0x1_0000 % 256 && s[3] == n / 0x100_0000
            && s[4..n + 4] == m.name
            && s[n + 4] == m.flags % 256 && s[n + 5] == m.flags / 256 % 256
            && s[n + 6] == m.flags / 0x1_0000 % 256 && s[n + 7] == m.flags / 0x100_0000
            && s[n + 8] == |m.body| % 256 && s[n + 9] == |m.body| / 256 % 256
            && s[n + 10] == |m.body| / 0x1_0000 % 256 && s[n + 11] == |m.body| / 0x100_0000
            && s[n + 12..] == m.body
  {
    WireIsSent(m);
    FrameParts(m);
    FourBytes(|m.name|);
    FourBytes(m.flags);
    FourBytes(|m.body|);
  }

  lemma FrameParts(w: Message)
    ensures var s, n := Frame(w), |w.name|;
            && |s| == n + 12 + |w.body| && s[..4] == Le32(n) && s[4..n + 4] == w.name
            && s[n + 4..n + 8] == Le32(w.flags) && s[n + 8..n + 12] == Le32(|w.body|) && s[n + 12..] == w.body
            && (forall i :: 0 <= i < 4 ==> s[i] == Le32(n)[i] && s[n + 4 + i] == Le32(w.flags)[i])
            && forall i :: 0 <= i < 4 ==> s[n + 8 + i] == Le32(|w.body|)[i]
  {
  }

  /** What is left of a field when a frame is cut behind it. */
  lemma FieldOfCut(s: seq<byte>, t: seq<byte>, a: nat, b: nat)
    requires a <= b <= |t| && t <= s
    ensures t[a..b] == s[a..b]
  {
  }

  lemma CutHeader(m: Message, t: seq<byte>)
    requires Fits(m) && t <= Encode(m) && 4 <= |t| < |m.name| + 12
    ensures Next(t) == Stop(Thrown)
  {
    WireIsSent(m);
    FrameParts(m);
    FieldOfCut(Encode(m), t, 0, 4);
    Le32Inverse(|m.name|);
    assert t[..4] == t[0..4] == Le32(|m.name|);
  }

  lemma CutBody(m: Message, t: seq<byte>)
    requires Fits(m) && t <= Encode(m) && |m.name| + 12 <= |t| < |m.name| + 12 + |m.body|
    ensures Next(t) == Stop(Thrown)
  {
    WireIsSent(m);
    FrameParts(m);
    var n := |m.name|;
    FieldOfCut(Encode(m), t, 0, 4);
    FieldOfCut(Encode(m), t, n + 8, n + 12);
    Le32Inverse(n);
    Le32Inverse(|m.body|);
    assert t[..4] == t[0..4] == Le32(n) && t[n + 8..n + 12] == Le32(|m.body|);
  }

  /** A message cut off: before its first four bytes are complete reading ends, later it throws. */
  lemma CutFrame(m: Message, t: seq<byte>)
    requires Fits(m) && t <= Encode(m) && |t| < |Encode(m)|
    ensures Parse(t) == ([], if |t| < 4 then Ended else Thrown)
  {
    WireIsSent(m);
    FrameParts(m);
    if |t| < 4 {
      ParseStop(t, Ended);
    } else {
      if |t| < |m.name| + 12 { CutHeader(m, t); } else { CutBody(m, t); }
      ParseStop(t, Thrown);
    }
  }

  lemma ParseOne(m: Message, rest: seq<byte>)
    requires Fits(m)
    ensures Parse(Encode(m) + rest) == ([m] + Parse(rest).0, Parse(rest).1)
  {
    WireIsSent(m);
    NextFrame(m, rest);
    ParseStep(Encode(m) + rest, [], m, rest);
  }

  lemma {:induction false} ParseAfter(ms: seq<Message>, t: seq<byte>, out: Outcome)
    requires AllFit(ms) && Parse(t) == ([], out)
    ensures Parse(EncodeAll(ms) + t) == (ms, out)
    decreases |ms|
  {
    if ms == [] {
      assert [] + t == t;
    } else {
      AllFitStep(ms);
      var rest := EncodeAll(ms[1..]) + t;
      ParseAfter(ms[1..], t, out);
      ParseOne(ms[0], rest);
      Joined(Encode(ms[0]), EncodeAll(ms[1..]), t);
      assert [ms[0]] + ms[1..] == ms;
    }
  }

  /** A connection that dies inside a message: all whole messages before it, and then an ordinary
      end if fewer than four bytes of it arrived, and an exception otherwise. */
  lemma CutOutcome(ms: seq<Message>, m: Message, t: seq<byte>)
    requires AllFit(ms) && Fits(m) && t <= Encode(m) && |t| < |Encode(m)|
    ensures Parse(EncodeAll(ms) + t) == (ms, if |t| < 4 then Ended else Thrown)
  {
    CutFrame(m, t);
    ParseAfter(ms, t, if |t| < 4 then Ended else Thrown);
  }

  lemma SliceOfPrefix(s: seq<byte>, k: nat, a: nat, b: nat)
    requires a <= b <= k <= |s|
    ensures s[..k][a..b] == s[a..b]
  {
  }

  lemma RestOfPrefix(s: seq<byte>, k: nat, e: nat)
    requires e <= k <= |s|
    ensures s[..k][e..] <= s[e..]
  {
    assert s[..k][e..] == s[e..][..k - e];
  }

  lemma NextOfPrefix(s: seq<byte>, k: nat)
    requires k <= |s| && Next(s[..k]).Item?
    ensures var x, y := Next(s[..k]), Next(s);
            y.Item? && y.m == x.m && x.rest <= y.rest
  {
    SliceOfPrefix(s, k, 0, 4);
    assert s[..k][..4] == s[..k][0..4] && s[..4] == s[0..4];
    var n := FromLe32(s[..4]);
    SliceOfPrefix(s, k, 4, n + 4);
    SliceOfPrefix(s, k, n + 4, n + 8);
    SliceOfPrefix(s, k, n + 8, n + 12);
    var e := n + 12 + FromLe32(s[n + 8..n + 12]);
    SliceOfPrefix(s, k, n + 12, e);
    RestOfPrefix(s, k, e);
  }

  /** A connection cut anywhere delivers only whole messages, and a prefix of them. */
  lemma {:induction false} CutDeliversPrefix(s: seq<byte>, t: seq<byte>)
    requires t <= s
    ensures Parse(t).0 <= Parse(s).0
    decreases |s|
  {
    if Next(t).Item? {
      assert s[..|t|] == t;
      NextOfPrefix(s, |t|);
      CutDeliversPrefix(Next(s).rest, Next(t).rest);
    }
  }

  // ---------------------------------------------------------------- sockets and the exact loops

  /** One end of a stream: `incoming` is what will still arrive before end of file. */
  class Socket {
    var incoming: seq<byte>
    var sent: seq<byte>

    constructor (arriving: seq<byte>)
      ensures incoming == arriving && sent == []
    {
      incoming, sent := arriving, [];
    }

    /** Some nonempty prefix, however short; nothing only at end of file. */
    method ReadSome(n: nat) returns (chunk: seq<byte>)
      requires n > 0
      modifies this`incoming
      ensures chunk + incoming == old(incoming) && |chunk| <= n
      ensures chunk == [] <==> old(incoming) == []
    {
      if incoming == [] {
        return [];
      }
      var most := if n <= |incoming| then n else |incoming|;
      var m: nat :| 1 <= m <= most;
      chunk := incoming[..m];
      incoming := incoming[m..];
    }

    method WriteSome(data: seq<byte>) returns (m: nat)
      requires data != []
      modifies this`sent
      ensures 1 <= m <= |data| && sent == old(sent) + data[..m]
    {
      m :| 1 <= m <= |data|;
      sent := sent + data[..m];
    }
  }

  datatype Read = Bytes(data: seq<byte>) | Eof

  /** `io_exact` for reading: all `n` bytes, or end of file with the rest consumed. */
  method ReadExact(sock: Socket, n: nat) returns (r: Read)
    modifies sock`incoming
    ensures |old(sock.incoming)| >= n ==>
            r == Bytes(old(sock.incoming)[..n]) && sock.incoming == old(sock.incoming)[n..]
    ensures |old(sock.incoming)| < n ==> r == Eof && sock.incoming == []
  {
    ghost var start := sock.incoming;
    var got: seq<byte> := [];
    var left := n;
    while left > 0
      invariant 0 <= left && got + sock.incoming == start && |got| + left == n
    {
      var chunk := sock.ReadSome(left);
      if |chunk| == 0 {
        assert got + sock.incoming == got;
        return Eof;
      }
      got := got + chunk;
      left := left - |chunk|;
    }
    assert start[..n] == got && start[n..] == sock.incoming;
    r := Bytes(got);
  }

  /** `io_exact` for writing. */
  method WriteExact(sock: Socket, data: seq<byte>)
    modifies sock`sent
    ensures sock.sent == old(sock.sent) + data
  {
    var i := 0;
    while i < |data|
      invariant i <= |data| && sock.sent == old(sock.sent) + data[..i]
    {
      var m := sock.WriteSome(data[i..]);
      assert data[..i] + data[i..][..m] == data[..i + m];
      i := i + m;
    }
    assert data[..i] == data;
  }

  class ByteBuffer {
    var data: seq<byte>

    constructor ()
      ensures data == []
    {
      data := [];
    }

    method Append(bytes: seq<byte>)
      modifies this
      ensures data == old(data) + bytes
    {
      data := data + bytes;
    }
  }

  method StrLen(name: seq<byte>) returns (n: nat)
    ensures n == |CString(name)| && n <= |name| && name[..n] == CString(name)
    ensures 0 !in name[..n] && (n == |name| || name[n] == 0)
  {
    n := 0;
    assert name[0..] == name;
    while n < |name| && name[n] != 0
      invariant n <= |name| && CString(name) == name[..n] + CString(name[n..])
    {
      assert name[n..][1..] == name[n + 1..];
      n := n + 1;
    }
    assert CString(name[n..]) == [];
    CStringStops(name);
  }

  /** The header in one write, then the body, whatever pieces the socket takes them in. */
  method WriteFrame(sock: Socket, nameLen: nat, name: seq<byte>, flags: nat, bodyLen: nat, body: seq<byte>)
    modifies sock`sent
    ensures sock.sent == old(sock.sent) + (Le32(nameLen) + name + Le32(flags) + Le32(bodyLen) + body)
  {
    var buf := new ByteBuffer();
    buf.Append(Le32(nameLen));
    buf.Append(name);
    buf.Append(Le32(flags));
    buf.Append(Le32(bodyLen));
    WriteExact(sock, buf.data);
    WriteExact(sock, body);
  }

  /** `connection_impl::send`. */
  method Send(sock: Socket, m: Message)
    modifies sock`sent
    ensures sock.sent == old(sock.sent) + Encode(m)
  {
    var len := StrLen(m.name);
    var nameLen, bodyLen := len % TWO32, |m.body| % TWO32;
    NameOnWire(m, len);
    WriteFrame(sock, nameLen, m.name[..nameLen], m.flags % TWO32, bodyLen, m.body[..bodyLen]);
  }

  lemma NameOnWire(m: Message, len: nat)
    requires len <= |m.name| && m.name[..len] == CString(m.name)
    ensures len % TWO32 <= len && m.name[..len % TWO32] == OnWire(m).name
  {
    assert m.name[..len][..len % TWO32] == m.name[..len % TWO32];
  }

  lemma Joined(a: seq<byte>, b: seq<byte>, c: seq<byte>)
    ensures (a + b) + c == a + (b + c) && a + [] == a
  {
  }

  method SendAll(sock: Socket, ms: seq<Message>)
    modifies sock`sent
    ensures sock.sent == old(sock.sent) + EncodeAll(ms)
    decreases |ms|
  {
    if ms == [] {
      Joined(sock.sent, [], []);
    } else {
      Joined(sock.sent, Encode(ms[0]), EncodeAll(ms[1..]));
      Send(sock, ms[0]);
      SendAll(sock, ms[1..]);
    }
  }

  datatype Result = Failed(out: Outcome) | Handled(m: Message)

  datatype Header = NoMessage | Threw | Overflow | Header(name: seq<byte>, flags: nat, len: nat)

  lemma HeaderSlices(s: seq<byte>, n: nat)
    requires n + 12 <= |s|
    ensures var b := s[4..][..n + 8];
            b[..n] == s[4..n + 4] && b[n..n + 4] == s[n + 4..n + 8] && b[n + 4..n + 8] == s[n + 8..n + 12]
  {
  }

  /** `message_reader_impl`: one per message, remembering the body length between the calls. */
  class MessageReader {
    const socket: Socket
    var len: nat
    var consumed: bool

    constructor (socket: Socket)
      ensures this.socket == socket && len == 0 && !consumed
    {
      this.socket := socket;
      len, consumed := 0, false;
    }

    method ReadHeader() returns (h: Header)
      modifies this, socket`incoming
      ensures var s := old(socket.incoming);
              if |s| < 4 then h == NoMessage
              else var n := FromLe32(s[..4]);
                   if n + 8 >= TWO32 then h == Overflow
                   else if |s| < n + 12 then h == Threw
                   else h == Header(s[4..n + 4], FromLe32(s[n + 4..n + 8]), FromLe32(s[n + 8..n + 12]))
                        && len == h.len && socket.incoming == s[n + 12..]
    {
      ghost var s := socket.incoming;
      var first := ReadExact(socket, 4);
      if first.Eof? {
        return NoMessage;
      }
      var n := FromLe32(first.data);
      if n + 8 >= TWO32 {
        return Overflow;
      }
      var rest := ReadExact(socket, n + 8);
      if rest.Eof? {
        return Threw;
      }
      var buf := rest.data;
      HeaderSlices(s, n);
      assert s[4..][n + 8..] == s[n + 12..];
      len := FromLe32(buf[n + 4..n + 8]);
      h := Header(buf[..n], FromLe32(buf[n..n + 4]), len);
    }

    method ReadBody() returns (r: Read)
      modifies this, socket`incoming
      ensures var s := old(socket.incoming);
              if |s| < old(len) then r == Eof else r == Bytes(s[..old(len)]) && socket.incoming == s[old(len)..]
    {
      r := ReadExact(socket, len);
      consumed := true;
    }
  }

  /** `handle_next`: header, then body, of one message. */
  method HandleNext(sock: Socket) returns (x: Result)
    modifies sock`incoming
    ensures match Next(old(sock.incoming))
            case Stop(out) => x == Failed(out)
            case Item(m, rest) => x == Handled(m) && sock.incoming == rest
    ensures var s := old(sock.incoming);
            if |s| < 4 then x == Failed(Ended)
            else var n := FromLe32(s[..4]);
                 if n + 8 >= TWO32 then x == Failed(Undefined)
                 else if |s| < n + 12 then x == Failed(Thrown)
                 else var len := FromLe32(s[n + 8..n + 12]);
                      if |s| < n + 12 + len then x == Failed(Thrown)
                      else x == Handled(Message(s[4..n + 4], FromLe32(s[n + 4..n + 8]), s[n + 12..n + 12 + len]))
                           && sock.incoming == s[n + 12 + len..]
  {
    ghost var s := sock.incoming;
    var reader := new MessageReader(sock);
    var h := reader.ReadHeader();
    match h {
      case NoMessage => return Failed(Ended);
      case Threw => return Failed(Thrown);
      case Overflow => return Failed(Undefined);
      case Header(name, flags, len) =>
        ghost var n := |name|;
        var body := reader.ReadBody();
        if body.Eof? {
          return Failed(Thrown);
        }
        assert s[n + 12..][..len] == s[n + 12..n + 12 + len];
        assert s[n + 12..][len..] == s[n + 12 + len..];
        x := Handled(Message(name, flags, body.data));
    }
  }

  /** `handle_to_end`: for every byte stream and every fragmentation of it, exactly the
      messages the stream means, in order, and their number when reading ends. */
  method HandleToEnd(sock: Socket) returns (count: nat, ms: seq<Message>, out: Outcome)
    modifies sock`incoming
    ensures (ms, out) == Parse(old(sock.incoming)) && count == |ms|
  {
    ghost var all := Parse(sock.incoming);
    count, ms := 0, [];
    while true
      invariant count == |ms|
      invariant all.0 == ms + Parse(sock.incoming).0 && all.1 == Parse(sock.incoming).1
      decreases |sock.incoming|
    {
      ghost var s := sock.incoming;
      var x := HandleNext(sock);
      if x.Failed? {
        ParseStop(s, x.out);
        assert ms + [] == ms;
        return count, ms, x.out;
      }
      ParseStep(s, ms, x.m, sock.incoming);
      ms := ms + [x.m];
      count := count + 1;
    }
  }

  /** Both ends of one connection: exactly when the messages fit, what is sent is what is
      handled, for every fragmentation of the writes and of the reads. */
  method SendAllAndHandle(ms: seq<Message>) returns (count: nat, got: seq<Message>, out: Outcome)
    ensures got == ms && out == Ended <==> AllFit(ms)
    ensures count == |got|
  {
    var sender := new Socket([]);
    SendAll(sender, ms);
    assert [] + EncodeAll(ms) == EncodeAll(ms);
    var receiver := new Socket(sender.sent);
    RoundTrip(ms);
    count, got, out := HandleToEnd(receiver);
  }

  /** A sender that dies inside message `m`, after `k` of its bytes: the receiver has handled all
      the messages before it, and was told of the loss unless fewer than four bytes arrived. */
  method SendAllAndDie(ms: seq<Message>, m: Message, k: nat)
    returns (count: nat, got: seq<Message>, out: Outcome)
    requires AllFit(ms) && Fits(m) && k < |m.name| + |m.body| + 12
    ensures got == ms && count == |ms| && out == if k < 4 then Ended else Thrown
  {
    FrameLayout(m);
    var sender := new Socket([]);
    SendAll(sender, ms);
    Send(sender, m);
    ghost var t := Encode(m)[..k];
    assert [] + EncodeAll(ms) == EncodeAll(ms);
    var arrived := |sender.sent| - (|m.name| + |m.body| + 12) + k;
    assert sender.sent[..arrived] == EncodeAll(ms) + t;
    var receiver := new Socket(sender.sent[..arrived]);
    CutOutcome(ms, m, t);
    count, got, out := HandleToEnd(receiver);
  }

  // ---------------------------------------------------------------- the non-blocking write task

  /** `io_exact_task` writing: one attempt per poll, however little each one moves. */
  class WriteTask {
    const socket: Socket
    const data: seq<byte>
    var left: nat

    ghost predicate Valid()
      reads this
    {
      left <= |data|
    }

    constructor (socket: Socket, data: seq<byte>)
      ensures Valid() && this.socket == socket && this.data == data && left == |data|
    {
      this.socket, this.data, this.left := socket, data, |data|;
    }

    predicate Finished()
      reads this
    {
      left == 0
    }

    /** `ready` says whether the socket takes anything this time. */
    method Poll(ready: bool)
      requires Valid()
      modifies this`left, socket`sent
      ensures Valid() && left <= old(left)
      ensures socket.sent == old(socket.sent) + data[|data| - old(left)..|data| - left]
      ensures ready && !old(Finished()) ==> left < old(left)
    {
      if left > 0 && ready {
        ghost var before := left;
        var m := socket.WriteSome(data[|data| - left..]);
        left := left - m;
        assert data[|data| - before..][..m] == data[|data| - before..|data| - left];
      }
    }
  }
}
