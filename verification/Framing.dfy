/** The wire format of messages and the receiver as a machine that takes one byte at a time
    (src/net.cpp:658-731, src/protocol.h:25-57): the simple form the node refines. */
module Framing {
  import opened Numerals

  const HEADER_SIZE: nat := 24
  const MESSAGE_SIZE_OFFSET: nat := 16
  const CHECKSUM_OFFSET: nat := 20
  const MAX_SIZE: nat := 0x02000000

  datatype CMessageHeader = CMessageHeader(
    pchMessageStart: seq<nat>, pchCommand: seq<nat>, nMessageSize: nat, nChecksum: nat)

  /** A 32-bit number, least significant byte first. */
  function Read32(s: seq<nat>): nat
    requires |s| == 4
  {
    s[0] + 256 * (s[1] + 256 * (s[2] + 256 * s[3]))
  }

  function Write32(n: nat): (s: seq<nat>)
    ensures |s| == 4 && IsBytes(s)
  {
    [n % 256, n / 256 % 256, n / 0x1_0000 % 256, n / 0x100_0000 % 256]
  }

  lemma ReadWrite32(n: nat)
    requires n < 0x1_0000_0000
    ensures Read32(Write32(n)) == n
  {
    var q1, q2, q3 := n / 256, n / 0x1_0000, n / 0x100_0000;
    assert q1 / 256 == q2 && n == 256 * q1 + n % 256;
    assert q2 / 256 == q3 && q1 == 256 * q2 + q1 % 256;
    assert q3 % 256 == q3 && q2 == 256 * q3 + q2 % 256;
    assert Write32(n) == [n % 256, q1 % 256, q2 % 256, q3];
    hide Write32;
  }

  function ParseHeader(h: seq<nat>): CMessageHeader
    requires |h| == HEADER_SIZE
  {
    CMessageHeader(h[..4], h[4..16], Read32(h[16..20]), Read32(h[20..24]))
  }

  // ---------------------------------------------------------------- the receiver, byte by byte

  /** A message in the making: its header so far, or its parsed header and data so far. */
  datatype Msg = Head(buf: seq<nat>) | Body(hdr: CMessageHeader, data: seq<nat>)

  predicate Complete(m: Msg) {
    m.Body? && |m.data| == m.hdr.nMessageSize
  }

  datatype Recv = Recv(msgs: seq<Msg>, failed: bool)

  /** The message that the next byte belongs to is the last one. */
  function Open(msgs: seq<Msg>): (r: seq<Msg>)
    ensures r != [] && !(|msgs| == |r| && Complete(r[|r| - 1]))
  {
    if msgs == [] || Complete(msgs[|msgs| - 1])
    then assert !Complete(Head([])); msgs + [Head([])]
    else msgs
  }

  /** One byte. A full header is parsed; one that announces too much fails for good. */
  function Feed(r: Recv, b: nat): Recv {
    if r.failed then r
    else
      var open := Open(r.msgs);
      var rest, m := open[..|open| - 1], open[|open| - 1];
      match m
      case Head(buf) =>
        if |buf| + 1 != HEADER_SIZE then Recv(rest + [Head(buf + [b])], false)
        else
          var hdr := ParseHeader(buf + [b]);
          if hdr.nMessageSize > MAX_SIZE then Recv(rest + [Head(buf + [b])], true)
          else Recv(rest + [Body(hdr, [])], false)
      case Body(hdr, data) => Recv(rest + [Body(hdr, data + [b])], false)
  }

  function FeedAll(r: Recv, s: seq<nat>): Recv {
    if s == [] then r else Feed(FeedAll(r, s[..|s| - 1]), s[|s| - 1])
  }

  /** Receiving does not depend on how the bytes were cut into chunks. */
  lemma {:induction false} FeedSplit(r: Recv, a: seq<nat>, b: seq<nat>)
    ensures FeedAll(r, a + b) == FeedAll(FeedAll(r, a), b)
  {
    hide Feed;
    if b == [] {
      assert a + b == a;
    } else {
      assert (a + b)[..|a + b| - 1] == a + b[..|b| - 1];
      FeedSplit(r, a, b[..|b| - 1]);
    }
  }

  // ---------------------------------------------------------------- a chunk within one message

  /** The messages with the last one replaced. */
  function WithLast(msgs: seq<Msg>, m: Msg): (r: seq<Msg>)
    requires msgs != []
    ensures r == msgs[..|msgs| - 1] + [m] && |r| == |msgs| && r[|r| - 1] == m
  {
    msgs[|msgs| - 1 := m]
  }

  /** What a header becomes when it grew to `buf`. */
  function Grown(msgs: seq<Msg>, buf: seq<nat>): Recv
    requires msgs != [] && |buf| <= HEADER_SIZE
  {
    if |buf| < HEADER_SIZE then Recv(WithLast(msgs, Head(buf)), false)
    else
      var hdr := ParseHeader(buf);
      if hdr.nMessageSize > MAX_SIZE then Recv(WithLast(msgs, Head(buf)), true)
      else Recv(WithLast(msgs, Body(hdr, [])), false)
  }

  /** A chunk that fits in the header. */
  lemma {:induction false} FeedHeader(msgs: seq<Msg>, buf: seq<nat>, s: seq<nat>)
    requires msgs != [] && msgs[|msgs| - 1] == Head(buf) && |buf| < HEADER_SIZE && |buf| + |s| <= HEADER_SIZE
    ensures FeedAll(Recv(msgs, false), s) == Grown(msgs, buf + s)
  {
    hide ParseHeader;
    if s == [] {
      assert buf + s == buf && WithLast(msgs, Head(buf)) == msgs;
    } else {
      var p := s[..|s| - 1];
      FeedHeader(msgs, buf, p);
      assert buf + s == (buf + p) + [s[|s| - 1]];
      assert FeedAll(Recv(msgs, false), s) == Feed(FeedAll(Recv(msgs, false), p), s[|s| - 1]);
      hide FeedAll;
      HeaderByte(msgs, buf + p, s[|s| - 1]);
    }
  }

  lemma HeaderByte(msgs: seq<Msg>, buf: seq<nat>, b: nat)
    requires msgs != [] && |buf| < HEADER_SIZE
    ensures Feed(Grown(msgs, buf), b) == Grown(msgs, buf + [b])
  {
    hide ParseHeader;
  }

  /** A chunk that fits in the data. */
  lemma {:induction false} FeedData(msgs: seq<Msg>, hdr: CMessageHeader, data: seq<nat>, s: seq<nat>)
    requires msgs != [] && msgs[|msgs| - 1] == Body(hdr, data) && |data| + |s| <= hdr.nMessageSize
    ensures FeedAll(Recv(msgs, false), s) == Recv(WithLast(msgs, Body(hdr, data + s)), false)
  {
    if s == [] {
      assert data + s == data && WithLast(msgs, Body(hdr, data)) == msgs;
    } else {
      var p := s[..|s| - 1];
      FeedData(msgs, hdr, data, p);
      assert data + s == (data + p) + [s[|s| - 1]];
    }
  }

  lemma FeedOpen(msgs: seq<Msg>, s: seq<nat>)
    requires s != []
    ensures FeedAll(Recv(msgs, false), s) == FeedAll(Recv(Open(msgs), false), s)
  {
    hide ParseHeader;
    assert [s[0]] + s[1..] == s;
    FeedSplit(Recv(msgs, false), [s[0]], s[1..]);
    FeedSplit(Recv(Open(msgs), false), [s[0]], s[1..]);
    assert Open(Open(msgs)) == Open(msgs);
    assert FeedAll(Recv(msgs, false), [s[0]]) == Feed(Recv(msgs, false), s[0]) by {
      assert [s[0]][..0] == [];
    }
    assert FeedAll(Recv(Open(msgs), false), [s[0]]) == Feed(Recv(Open(msgs), false), s[0]) by {
      assert [s[0]][..0] == [];
    }
  }

  // ---------------------------------------------------------------- frames

  /** A message as its sender means it. */
  datatype Message = Message(command: seq<nat>, payload: seq<nat>)

  predicate Named(m: Message) {
    |m.command| == 12
  }

  /** Not larger than a receiver takes. */
  predicate Sendable(m: Message) {
    Named(m) && |m.payload| <= MAX_SIZE
  }

  lemma SendableMeans(m: Message)
    ensures Sendable(m) <==> |m.command| == 12 && |m.payload| <= 0x0200_0000
  {
  }

  /** The bytes of a message on the wire. */
  function Frame(start: seq<nat>, m: Message, checksum: seq<nat> -> nat): (s: seq<nat>)
    requires |start| == 4 && |m.command| == 12
    ensures |s| == HEADER_SIZE + |m.payload|
  {
    start + m.command + Write32(|m.payload|) + Write32(checksum(m.payload)) + m.payload
  }

  /** The same message as the receiver holds it. */
  function Received(start: seq<nat>, m: Message, checksum: seq<nat> -> nat): Msg {
    Body(CMessageHeader(start, m.command, |m.payload|, checksum(m.payload)), m.payload)
  }

  function Wire(start: seq<nat>, ms: seq<Message>, checksum: seq<nat> -> nat): seq<nat>
    requires |start| == 4 && forall i :: 0 <= i < |ms| ==> Named(ms[i])
  {
    if ms == [] then []
    else
      assert Named(ms[|ms| - 1]);
      Wire(start, ms[..|ms| - 1], checksum) + Frame(start, ms[|ms| - 1], checksum)
  }

  function AllReceived(start: seq<nat>, ms: seq<Message>, checksum: seq<nat> -> nat): (r: seq<Msg>)
    ensures |r| == |ms| && forall i :: 0 <= i < |ms| ==> r[i] == Received(start, ms[i], checksum)
  {
    if ms == [] then [] else AllReceived(start, ms[..|ms| - 1], checksum) + [Received(start, ms[|ms| - 1], checksum)]
  }

  ghost predicate Checksums32(checksum: seq<nat> -> nat) {
    forall s :: checksum(s) < 0x1_0000_0000
  }

  lemma FrameParses(start: seq<nat>, m: Message, checksum: seq<nat> -> nat)
    requires |start| == 4 && Sendable(m) && Checksums32(checksum)
    ensures
      var f := Frame(start, m, checksum);
      ParseHeader(f[..HEADER_SIZE]) == CMessageHeader(start, m.command, |m.payload|, checksum(m.payload))
      && f[HEADER_SIZE..] == m.payload
  {
    var f := Frame(start, m, checksum);
    var h := f[..HEADER_SIZE];
    assert h[..4] == start && h[4..16] == m.command;
    assert h[16..20] == Write32(|m.payload|) && h[20..24] == Write32(checksum(m.payload));
    hide Read32, Write32;
    ReadWrite32(|m.payload|);
    ReadWrite32(checksum(m.payload));
  }

  /** The frame byte by byte: 4 of start, 12 of command, 4 of size and 4 of checksum, least
      significant first, then the payload. */
  lemma FrameBytes(start: seq<nat>, m: Message, checksum: seq<nat> -> nat)
    requires |start| == 4 && Sendable(m)
    ensures
      var f, n, c := Frame(start, m, checksum), |m.payload|, checksum(m.payload);
      && n <= 0x0200_0000 && |f| == 24 + n
      && f[0..4] == start && f[4..16] == m.command && f[24..] == m.payload
      && f[16] == n % 256 && f[17] == n / 256 % 256 && f[18] == n / 0x1_0000 % 256 && f[19] == n / 0x100_0000
      && f[20] == c % 256 && f[21] == c / 256 % 256 && f[22] == c / 0x1_0000 % 256 && f[23] == c / 0x100_0000 % 256
  {
    assert Frame(start, m, checksum)[16..20] == Write32(|m.payload|);
    assert Frame(start, m, checksum)[20..24] == Write32(checksum(m.payload));
  }

  /** One whole frame appends its message, whatever complete messages are there. */
  lemma FeedFrame(msgs: seq<Msg>, start: seq<nat>, m: Message, checksum: seq<nat> -> nat)
    requires msgs == [] || Complete(msgs[|msgs| - 1])
    requires |start| == 4 && Sendable(m) && Checksums32(checksum)
    ensures FeedAll(Recv(msgs, false), Frame(start, m, checksum)) == Recv(msgs + [Received(start, m, checksum)], false)
  {
    hide Frame, ParseHeader, Checksums32, Feed;
    var f := Frame(start, m, checksum);
    FrameParses(start, m, checksum);
    FeedOpen(msgs, f);
    var open := Open(msgs);
    assert open == msgs + [Head([])];
    assert f == f[..HEADER_SIZE] + f[HEADER_SIZE..];
    FeedSplit(Recv(open, false), f[..HEADER_SIZE], f[HEADER_SIZE..]);
    assert [] + f[..HEADER_SIZE] == f[..HEADER_SIZE];
    FeedHeader(open, [], f[..HEADER_SIZE]);
    var hdr := ParseHeader(f[..HEADER_SIZE]);
    var mid := WithLast(open, Body(hdr, []));
    FeedData(mid, hdr, [], m.payload);
    assert [] + m.payload == m.payload;
  }

  /** Any list of messages put on the wire comes out as the same messages in the same order. */
  lemma {:induction false} WireReceived(start: seq<nat>, ms: seq<Message>, checksum: seq<nat> -> nat)
    requires |start| == 4 && (forall i :: 0 <= i < |ms| ==> Named(ms[i]) && Sendable(ms[i])) && Checksums32(checksum)
    ensures FeedAll(Recv([], false), Wire(start, ms, checksum)) == Recv(AllReceived(start, ms, checksum), false)
  {
    hide Frame, Feed, Checksums32;
    if ms != [] {
      var p := ms[..|ms| - 1];
      WireReceived(start, p, checksum);
      FeedSplit(Recv([], false), Wire(start, p, checksum), Frame(start, ms[|ms| - 1], checksum));
      FeedFrame(AllReceived(start, p, checksum), start, ms[|ms| - 1], checksum);
    }
  }

  /** A header that announces more than 0x02000000 bytes of data fails for good, whatever
      follows it. */
  lemma OversizeFails(h: seq<nat>, s: seq<nat>)
    requires |h| == 24 && h[16] + 256 * (h[17] + 256 * (h[18] + 256 * h[19])) > 0x0200_0000
    ensures FeedAll(Recv([], false), h + s).failed
  {
    var r := Recv([], false);
    HeaderAlone(h);
    FeedSplit(r, h, s);
    StaysFailed(FeedAll(r, h), s);
  }

  lemma HeaderAlone(h: seq<nat>)
    requires |h| == HEADER_SIZE && Read32(h[16..20]) > MAX_SIZE
    ensures FeedAll(Recv([], false), h).failed
  {
    hide Feed, Read32;
    FeedOpen([], h);
    FeedHeader([Head([])], [], h);
    assert [] + h == h;
    assert Open([]) == [Head([])];
  }

  lemma {:induction false} StaysFailed(r: Recv, s: seq<nat>)
    requires r.failed
    ensures FeedAll(r, s).failed
  {
    if s != [] {
      StaysFailed(r, s[..|s| - 1]);
    }
  }

  // ---------------------------------------------------------------- part of the wire

  /** The messages received completely. */
  function Done(msgs: seq<Msg>): (d: seq<Msg>)
    ensures d <= msgs
  {
    if msgs != [] && !Complete(msgs[|msgs| - 1]) then msgs[..|msgs| - 1] else msgs
  }

  lemma FeedKeepsDone(r: Recv, b: nat)
    requires !Feed(r, b).failed
    ensures !r.failed && Done(r.msgs) <= Done(Feed(r, b).msgs)
  {
    hide ParseHeader;
  }

  lemma {:induction false} MoreKeepsDone(r: Recv, s: seq<nat>)
    requires !FeedAll(r, s).failed
    ensures !r.failed && Done(r.msgs) <= Done(FeedAll(r, s).msgs)
  {
    hide Feed, Done;
    if s != [] {
      FeedKeepsDone(FeedAll(r, s[..|s| - 1]), s[|s| - 1]);
      MoreKeepsDone(r, s[..|s| - 1]);
    }
  }

  /** Any first part of the wire yields a first part of the messages, and never fails. */
  lemma PartReceived(start: seq<nat>, ms: seq<Message>, checksum: seq<nat> -> nat, part: seq<nat>)
    requires |start| == 4 && (forall i :: 0 <= i < |ms| ==> Named(ms[i]) && Sendable(ms[i])) && Checksums32(checksum)
    requires part <= Wire(start, ms, checksum)
    ensures
      var r := FeedAll(Recv([], false), part);
      !r.failed && Done(r.msgs) <= AllReceived(start, ms, checksum)
  {
    hide Feed, Checksums32, Wire;
    var w := Wire(start, ms, checksum);
    WireReceived(start, ms, checksum);
    assert w == part + w[|part|..];
    FeedSplit(Recv([], false), part, w[|part|..]);
    MoreKeepsDone(FeedAll(Recv([], false), part), w[|part|..]);
  }
}
