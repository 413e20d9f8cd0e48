/** A node's receive and send buffers (src/net.cpp:658-783, src/net.h:185-218, 592-650). The
    socket's answers and the random message drop are parameters. */
module Net {
  import opened Collections
  import opened Numerals
  import opened Framing

  /** What one call of send() answers. */
  datatype SendResult = Sent(n: nat) | WouldBlock | SocketError

  class CNetMessage {
    var in_data: bool
    var hdrbuf: seq<nat>
    var hdr: CMessageHeader
    var nHdrPos: nat
    var vRecv: seq<nat>
    var nDataPos: nat

    constructor ()
      ensures Valid() && View() == Head([])
    {
      in_data, nHdrPos, nDataPos := false, 0, 0;
      hdrbuf, vRecv := seq(HEADER_SIZE, _ => 0), [];
      hdr := CMessageHeader([], [], 0, 0);
    }

    ghost predicate Valid()
      reads this
    {
      && |hdrbuf| == HEADER_SIZE && nHdrPos <= HEADER_SIZE
      && (in_data ==> nDataPos <= |vRecv| <= hdr.nMessageSize)
      && (!in_data ==> vRecv == [] && nDataPos == 0)
    }

    ghost function View(): Msg
      requires Valid()
      reads this
    {
      if in_data then Body(hdr, vRecv[..nDataPos]) else Head(hdrbuf[..nHdrPos])
    }

    predicate complete()
      reads this
    {
      in_data && hdr.nMessageSize == nDataPos
    }

    /** Takes header bytes; parses a full header, and rejects it if it announces too much. */
    method readHeader(pch: seq<nat>) returns (handled: int)
      requires Valid() && !in_data && nHdrPos < HEADER_SIZE
      modifies this
      ensures Valid()
      ensures
        var buf := old(hdrbuf[..nHdrPos]) + pch[..Min(HEADER_SIZE - old(nHdrPos), |pch|)];
        if |buf| < HEADER_SIZE then handled == |pch| && View() == Head(buf)
        else if ParseHeader(buf).nMessageSize > MAX_SIZE then handled == -1 && View() == Head(buf)
        else handled == HEADER_SIZE - old(nHdrPos) && View() == Body(ParseHeader(buf), [])
    {
      var nRemaining := HEADER_SIZE - nHdrPos;
      var nCopy := Min(nRemaining, |pch|);
      ghost var buf := hdrbuf[..nHdrPos] + pch[..nCopy];
      hdrbuf := hdrbuf[..nHdrPos] + pch[..nCopy] + hdrbuf[nHdrPos + nCopy..];
      nHdrPos := nHdrPos + nCopy;
      assert hdrbuf[..nHdrPos] == buf;
      if nHdrPos < HEADER_SIZE {
        return nCopy;
      }
      assert hdrbuf == buf;
      hdr := ParseHeader(hdrbuf);
      if hdr.nMessageSize > MAX_SIZE {
        return -1;
      }
      in_data := true;
      return nCopy;
    }

    /** Takes data bytes, allocating ahead but never beyond the announced size. */
    method readData(pch: seq<nat>) returns (handled: nat)
      requires Valid() && in_data
      modifies this
      ensures Valid() && handled == Min(old(hdr.nMessageSize - nDataPos), |pch|)
      ensures View() == Body(old(hdr), old(vRecv[..nDataPos]) + pch[..handled]) && hdr == old(hdr)
    {
      var nRemaining := hdr.nMessageSize - nDataPos;
      var nCopy := Min(nRemaining, |pch|);
      if |vRecv| < nDataPos + nCopy {
        var size := Min(hdr.nMessageSize, nDataPos + nCopy + 256 * 1024);
        vRecv := vRecv + seq(size - |vRecv|, _ => 0);
      }
      ghost var data := vRecv[..nDataPos];
      vRecv := vRecv[..nDataPos] + pch[..nCopy] + vRecv[nDataPos + nCopy..];
      nDataPos := nDataPos + nCopy;
      assert vRecv[..nDataPos] == data + pch[..nCopy];
      return nCopy;
    }
  }

  ghost predicate AllValid(q: seq<CNetMessage>)
    reads q
  {
    forall i :: 0 <= i < |q| ==> q[i].Valid()
  }

  ghost function Views(q: seq<CNetMessage>): (v: seq<Msg>)
    requires AllValid(q)
    reads q
    ensures |v| == |q| && forall i :: 0 <= i < |q| ==> v[i] == q[i].View()
  {
    if q == [] then [] else Views(q[..|q| - 1]) + [q[|q| - 1].View()]
  }

  ghost predicate Apart(q: seq<CNetMessage>) {
    forall i, j :: 0 <= i < j < |q| ==> q[i] != q[j]
  }

  /** Every message was there before, or is a new object. */
  twostate predicate OnlyNew(was: seq<CNetMessage>, new q: seq<CNetMessage>) {
    forall i :: 0 <= i < |q| ==> q[i] in was || fresh(q[i])
  }

  // ---------------------------------------------------------------- the send queue

  function Concat(q: seq<seq<nat>>): seq<nat> {
    if q == [] then [] else q[0] + Concat(q[1..])
  }

  function Total(q: seq<seq<nat>>): nat {
    if q == [] then 0 else |q[0]| + Total(q[1..])
  }

  /** What is still to be sent when `offset` bytes of the first message are gone. */
  function Pending(q: seq<seq<nat>>, offset: nat): seq<nat>
    requires if q == [] then offset == 0 else offset <= |q[0]|
  {
    if q == [] then [] else q[0][offset..] + Concat(q[1..])
  }

  /** Part of every queued message is still unsent. */
  ghost predicate QueueOk(q: seq<seq<nat>>, offset: nat) {
    && (forall i :: 0 <= i < |q| ==> q[i] != [])
    && (if q == [] then offset == 0 else offset < |q[0]|)
  }

  lemma {:induction false} ConcatSum(a: seq<seq<nat>>, b: seq<seq<nat>>)
    ensures Concat(a + b) == Concat(a) + Concat(b) && Total(a + b) == Total(a) + Total(b)
  {
    if a == [] {
      assert a + b == b;
    } else {
      assert (a + b)[1..] == a[1..] + b;
      ConcatSum(a[1..], b);
    }
  }

  lemma PendingMore(q: seq<seq<nat>>, offset: nat, data: seq<nat>)
    requires QueueOk(q, offset)
    ensures Pending(q + [data], if q == [] then 0 else offset) == Pending(q, offset) + data
    ensures Total(q + [data]) == Total(q) + |data| && (q == [] ==> offset == 0)
  {
    ConcatSum(q, [data]);
    assert Concat([data]) == data by {
      assert [data][1..] == [];
    }
    if q == [] {
      assert q + [data] == [data];
    } else {
      assert (q + [data])[1..] == q[1..] + [data];
      ConcatSum(q[1..], [data]);
    }
  }

  lemma PendingLess(q: seq<seq<nat>>, offset: nat, n: nat)
    requires QueueOk(q, offset) && q != [] && n <= |q[0]| - offset
    ensures Pending(q, offset) == q[0][offset..offset + n] + Pending(q, offset + n)
    ensures Total(q) == |q[0]| + Total(q[1..])
    ensures offset + n < |q[0]| ==> QueueOk(q, offset + n)
  {
    hide Concat;
    var front, back, rest := q[0][offset..offset + n], q[0][offset + n..], Concat(q[1..]);
    assert q[0][offset..] == front + back;
    Regroup(front, back, rest);
  }

  lemma Regroup(a: seq<nat>, b: seq<nat>, c: seq<nat>)
    ensures (a + b) + c == a + (b + c)
  {
  }

  lemma PendingNext(q: seq<seq<nat>>, offset: nat)
    requires QueueOk(q, offset) && q != []
    ensures QueueOk(q[1..], 0) && Pending(q, |q[0]|) == Pending(q[1..], 0)
  {
    assert q[0][|q[0]|..] == [];
    if q[1..] != [] {
      assert q[1..][0][0..] == q[1..][0];
    }
  }

  function Answer(results: seq<SendResult>, i: nat): SendResult {
    if i < |results| then results[i] else WouldBlock
  }

  /** What is left of a message. */
  function Left(data: seq<nat>, offset: nat): nat {
    if offset < |data| then |data| - offset else 0
  }

  /** How many bytes the sends take, the i-th answer first: on to the next message only after
      a whole one. */
  function Taken(results: seq<SendResult>, i: nat, q: seq<seq<nat>>, offset: nat): nat
    decreases |q|
  {
    var r := Answer(results, i);
    if q == [] || !r.Sent? || r.n == 0 then 0
    else if r.n < Left(q[0], offset) then r.n
    else Left(q[0], offset) + Taken(results, i + 1, q[1..], 0)
  }

  /** The last of those sends hits a socket error. */
  predicate Breaks(results: seq<SendResult>, i: nat, q: seq<seq<nat>>, offset: nat)
    decreases |q|
  {
    var r := Answer(results, i);
    q != [] &&
    if r.Sent? && r.n > 0 then r.n >= Left(q[0], offset) && Breaks(results, i + 1, q[1..], 0)
    else r.SocketError?
  }

  /** Enough sends, each of which would take any whole message. */
  ghost predicate Generous(results: seq<SendResult>, q: seq<seq<nat>>) {
    && |results| >= |q|
    && forall k :: 0 <= k < |q| ==> results[k].Sent? && results[k].n >= |q[k]|
  }

  lemma TakenNext(results: seq<SendResult>, i: nat, data: seq<nat>, rest: seq<seq<nat>>, offset: nat)
    ensures
      var r, q := Answer(results, i), [data] + rest;
      if !r.Sent? || r.n == 0 then
        Taken(results, i, q, offset) == 0 && (Breaks(results, i, q, offset) <==> r.SocketError?)
      else if r.n < Left(data, offset) then
        Taken(results, i, q, offset) == r.n && !Breaks(results, i, q, offset)
      else
        && Taken(results, i, q, offset) == Left(data, offset) + Taken(results, i + 1, rest, 0)
        && (Breaks(results, i, q, offset) <==> Breaks(results, i + 1, rest, 0))
  {
    assert ([data] + rest)[1..] == rest;
  }

  lemma GenerousAt(results: seq<SendResult>, q: seq<seq<nat>>, i: nat)
    requires i < |q| && Generous(results, q)
    ensures Answer(results, i).Sent? && Answer(results, i).n >= |q[i]|
  {
  }

  lemma TakenNone(results: seq<SendResult>, i: nat)
    ensures Taken(results, i, [], 0) == 0 && !Breaks(results, i, [], 0)
  {
  }

  class CNode {
    var vRecvMsg: seq<CNetMessage>
    var ssSend: seq<nat>
    var vSendMsg: seq<seq<nat>>
    var nSendSize: int
    var nSendOffset: nat
    var nSendBytes: nat
    var fDisconnect: bool
    const start: seq<nat>
    const checksum: seq<nat> -> nat

    /** Everything the socket took so far: what the peer can receive. */
    var wire: seq<nat>
    /** The messages ended so far. */
    ghost var ended: seq<Message>

    constructor (start: seq<nat>, checksum: seq<nat> -> nat)
      requires |start| == 4
      ensures ValidRecv() && ValidSend() && vRecvMsg == [] && ssSend == [] && ended == [] && wire == []
      ensures this.start == start && this.checksum == checksum
    {
      this.start, this.checksum := start, checksum;
      vRecvMsg, ssSend, vSendMsg := [], [], [];
      nSendSize, nSendOffset, nSendBytes, fDisconnect := 0, 0, 0, false;
      wire, ended := [], [];
    }

    /** Nothing is lost, repeated or reordered: the bytes taken and the bytes pending are the
        ended messages' frames, and nSendSize is the size of the queue. */
    ghost predicate ValidSend()
      reads this
    {
      SendsInOrder(vSendMsg)
    }

    /** The same for what is left of the queue. */
    ghost predicate SendsInOrder(q: seq<seq<nat>>)
      reads this`nSendSize, this`nSendOffset, this`nSendBytes, this`wire, this`ended
    {
      && |start| == 4 && (forall i :: 0 <= i < |ended| ==> Named(ended[i]))
      && QueueOk(q, nSendOffset) && nSendSize == Total(q) && nSendBytes == |wire|
      && wire + Pending(q, nSendOffset) == Wire(start, ended, checksum)
    }

    /** Starts a message: a header without size and checksum. */
    method BeginMessage(pchCommand: seq<nat>)
      requires ssSend == [] && |pchCommand| == 12 && |start| == 4
      modifies this`ssSend
      ensures ssSend == start + pchCommand + Write32(0) + Write32(0)
    {
      ssSend := start + pchCommand + Write32(0) + Write32(0);
    }

    method Append(data: seq<nat>)
      modifies this`ssSend
      ensures ssSend == old(ssSend) + data
    {
      ssSend := ssSend + data;
    }

    method AbortMessage()
      modifies this`ssSend
      ensures ssSend == []
    {
      ssSend := [];
    }

    /** The message that the stream holds. */
    ghost function Current(): Message
      requires |ssSend| >= HEADER_SIZE
      reads this
    {
      Message(ssSend[4..16], ssSend[HEADER_SIZE..])
    }

    /** Fills in size and checksum, queues the frame, and tries to send if nothing was queued. */
    method EndMessage(dropped: bool, results: seq<SendResult>)
      requires ValidSend() && (ssSend != [] ==> |ssSend| >= HEADER_SIZE && ssSend[..4] == start)
      modifies this`ssSend, this`vSendMsg, this`nSendSize, this`nSendOffset, this`nSendBytes, this`fDisconnect, this`wire, this`ended
      ensures ValidSend() && ssSend == [] && old(wire) <= wire
      ensures ended == if dropped || old(ssSend) == [] then old(ended) else old(ended) + [old(Current())]
      ensures dropped || old(ssSend) == [] || old(vSendMsg) != [] ==> wire == old(wire)
      ensures !dropped && old(ssSend) != [] && old(vSendMsg) == [] ==>
        |wire| == |old(wire)| + Taken(results, 0, [Frame(start, old(Current()), checksum)], 0)
    {
      if dropped {
        AbortMessage();
        return;
      }
      if |ssSend| == 0 {
        return;
      }
      FillHeader();
      var first := vSendMsg == [];
      Enqueue(old(Current()));
      if first {
        SocketSendData(results);
      }
    }

    /** Writes size and checksum into the header of the stream. */
    method FillHeader()
      requires |ssSend| >= HEADER_SIZE && ssSend[..4] == start
      modifies this`ssSend
      ensures |start| == 4 && Named(old(Current())) && ssSend == Frame(start, old(Current()), checksum)
    {
      hide Write32, Frame;
      ghost var was := ssSend;
      var nSize := |ssSend| - HEADER_SIZE;
      ssSend := ssSend[..MESSAGE_SIZE_OFFSET] + Write32(nSize) + ssSend[MESSAGE_SIZE_OFFSET + 4..];
      var nChecksum := checksum(ssSend[HEADER_SIZE..]);
      ssSend := ssSend[..CHECKSUM_OFFSET] + Write32(nChecksum) + ssSend[CHECKSUM_OFFSET + 4..];
      IsFrame(was, start, checksum, nSize, ssSend);
    }

    /** The stream becomes the last message of the queue. */
    method Enqueue(ghost m: Message)
      requires ValidSend() && Named(m) && ssSend == Frame(start, m, checksum)
      modifies this`ssSend, this`vSendMsg, this`nSendSize, this`ended
      ensures ValidSend() && ssSend == [] && ended == old(ended) + [m] && vSendMsg == old(vSendMsg) + [old(ssSend)]
    {
      hide Wire, Total, QueueOk, Concat, Pending, Frame;
      PendingMore(vSendMsg, nSendOffset, ssSend);
      QueueMore(vSendMsg, nSendOffset, ssSend);
      WireMore(start, ended, m, checksum);
      vSendMsg := vSendMsg + [ssSend];
      nSendSize := nSendSize + |ssSend|;
      ssSend := [];
      ended := ended + [m];
    }

    /** One send for the first message of the queue. */
    method SendFront(data: seq<nat>, ghost rest: seq<seq<nat>>, r: SendResult) returns (whole: bool)
      requires SendsInOrder([data] + rest)
      modifies this`nSendSize, this`nSendOffset, this`nSendBytes, this`fDisconnect, this`wire
      ensures SendsInOrder(if whole then rest else [data] + rest) && old(wire) <= wire
      ensures whole <==> r.Sent? && r.n > 0 && r.n >= Left(data, old(nSendOffset))
      ensures data != [] && (whole ==> nSendOffset == 0)
      ensures |wire| == |old(wire)| + if r.Sent? then Min(r.n, Left(data, old(nSendOffset))) else 0
      ensures fDisconnect <==> old(fDisconnect) || r.SocketError?
    {
      hide Wire, Total, Pending, Concat;
      ghost var q := [data] + rest;
      assert q[0] == data && q[1..] == rest;
      assert |data| > nSendOffset;
      whole := false;
      if r.Sent? && r.n > 0 {
        var nBytes := Min(r.n, |data| - nSendOffset);
        PendingLess(q, nSendOffset, nBytes);
        PendingNext(q, nSendOffset);
        wire := wire + data[nSendOffset..nSendOffset + nBytes];
        nSendBytes := nSendBytes + nBytes;
        nSendOffset := nSendOffset + nBytes;
        if nSendOffset == |data| {
          nSendOffset := 0;
          nSendSize := nSendSize - |data|;
          whole := true;
        }
      } else if r.SocketError? {
        fDisconnect := true;
      }
    }

    /** Writes queued messages until a send is short or fails. */
    method SocketSendData(results: seq<SendResult>)
      requires ValidSend()
      modifies this`vSendMsg, this`nSendSize, this`nSendOffset, this`nSendBytes, this`fDisconnect, this`wire
      ensures ValidSend() && old(wire) <= wire
      ensures |wire| == |old(wire)| + Taken(results, 0, old(vSendMsg), old(nSendOffset))
      ensures fDisconnect <==> old(fDisconnect) || Breaks(results, 0, old(vSendMsg), old(nSendOffset))
      ensures Generous(results, old(vSendMsg)) ==> vSendMsg == []
    {
      hide SendsInOrder, Taken, Breaks, Generous, Answer;
      var it := 0;
      assert vSendMsg[0..] == vSendMsg;
      while it != |vSendMsg|
        invariant it <= |vSendMsg| && vSendMsg == old(vSendMsg)
        invariant SendsInOrder(vSendMsg[it..]) && old(wire) <= wire && fDisconnect == old(fDisconnect)
        invariant |wire| + Taken(results, it, vSendMsg[it..], nSendOffset) ==
                  |old(wire)| + Taken(results, 0, old(vSendMsg), old(nSendOffset))
        invariant Breaks(results, it, vSendMsg[it..], nSendOffset) == Breaks(results, 0, old(vSendMsg), old(nSendOffset))
      {
        var data := vSendMsg[it];
        ghost var rest := vSendMsg[it + 1..];
        assert vSendMsg[it..] == [data] + rest;
        TakenNext(results, it, data, rest, nSendOffset);
        if Generous(results, vSendMsg) {
          GenerousAt(results, vSendMsg, it);
        }
        var whole := SendFront(data, rest, Answer(results, it));
        if !whole {
          break;
        }
        it := it + 1;
      }
      if it == |vSendMsg| {
        TakenNone(results, it);
        NothingLeft();
        assert nSendOffset == 0;
        assert nSendSize == 0;
      }
      vSendMsg := vSendMsg[it..];
    }

    lemma NothingLeft()
      requires SendsInOrder([])
      ensures nSendOffset == 0 && nSendSize == 0
    {
    }

    /** End to end: whatever the sends did, a receiver of the bytes taken so far, in whatever
        chunks, holds a first part of the ended messages; all of them once the queue is empty. */
    lemma Delivered()
      requires ValidSend() && (forall i :: 0 <= i < |ended| ==> Sendable(ended[i])) && Checksums32(checksum)
      ensures
        var r := FeedAll(Recv([], false), wire);
        && !r.failed && Done(r.msgs) <= AllReceived(start, ended, checksum)
        && (vSendMsg == [] ==> r.msgs == AllReceived(start, ended, checksum))
    {
      hide Wire, Feed, FeedAll, Checksums32;
      PartReceived(start, ended, checksum, wire);
      if vSendMsg == [] {
        assert wire + [] == wire;
        WireReceived(start, ended, checksum);
      }
    }

    /** The messages are separate objects, and no header was refused. */
    ghost predicate ValidRecv()
      reads this, vRecvMsg
    {
      && AllValid(vRecvMsg) && Apart(vRecvMsg)
      && forall i :: 0 <= i < |vRecvMsg| && !vRecvMsg[i].in_data ==> vRecvMsg[i].nHdrPos < HEADER_SIZE
    }

    /** Whatever the chunks, the messages are those of the byte-at-a-time receiver. */
    method ReceiveMsgBytes(pch: seq<nat>) returns (ok: bool)
      requires ValidRecv()
      modifies this`vRecvMsg, vRecvMsg
      ensures AllValid(vRecvMsg) && (ok ==> ValidRecv())
      ensures OnlyNew(old(vRecvMsg), vRecvMsg)
      ensures FeedAll(Recv(old(Views(vRecvMsg)), false), pch) == Recv(Views(vRecvMsg), !ok)
    {
      hide Feed, FeedAll, ParseHeader, Views, AllValid, Apart;
      var p := 0;
      ghost var r0 := Recv(Views(vRecvMsg), false);
      assert pch[0..] == pch;
      while p < |pch|
        invariant p <= |pch| && ValidRecv() && OnlyNew(old(vRecvMsg), vRecvMsg)
        invariant FeedAll(Recv(Views(vRecvMsg), false), pch[p..]) == FeedAll(r0, pch)
      {
        var handled := ReceiveSome(pch[p..]);
        if handled < 0 {
          return false;
        }
        assert pch[p..][handled..] == pch[p + handled..];
        p := p + handled;
      }
      assert pch[p..] == [];
      FedNothing(Recv(Views(vRecvMsg), false));
      ok := true;
    }

    /** One round of the loop: the current incomplete message, or a new one, takes what it can. */
    method ReceiveSome(pch: seq<nat>) returns (handled: int)
      requires ValidRecv() && pch != []
      modifies this`vRecvMsg, vRecvMsg
      ensures AllValid(vRecvMsg) && (handled >= 0 ==> ValidRecv()) && handled <= |pch| && handled != 0
      ensures OnlyNew(old(vRecvMsg), vRecvMsg)
      ensures handled < 0 ==> FeedAll(Recv(old(Views(vRecvMsg)), false), pch) == Recv(Views(vRecvMsg), true)
      ensures handled > 0 ==>
        FeedAll(Recv(old(Views(vRecvMsg)), false), pch) == FeedAll(Recv(Views(vRecvMsg), false), pch[handled..])
    {
      hide Feed, FeedAll, ParseHeader, Open;
      FeedOpen(Views(vRecvMsg), pch);
      OpenMessage();
      handled := ReadInto(pch);
    }

    method OpenMessage()
      requires ValidRecv()
      modifies this`vRecvMsg
      ensures ValidRecv() && vRecvMsg != [] && Views(vRecvMsg) == Open(old(Views(vRecvMsg)))
      ensures !Complete(vRecvMsg[|vRecvMsg| - 1].View())
      ensures OnlyNew(old(vRecvMsg), vRecvMsg)
    {
      hide Views;
      if vRecvMsg == [] || vRecvMsg[|vRecvMsg| - 1].complete() {
        var msg := new CNetMessage();
        vRecvMsg := vRecvMsg + [msg];
        assert Views(vRecvMsg) == old(Views(vRecvMsg)) + [Head([])];
      }
    }

    method ReadInto(pch: seq<nat>) returns (handled: int)
      requires ValidRecv() && vRecvMsg != [] && !Complete(vRecvMsg[|vRecvMsg| - 1].View()) && pch != []
      modifies vRecvMsg[|vRecvMsg| - 1]
      ensures AllValid(vRecvMsg) && (handled >= 0 ==> ValidRecv()) && handled <= |pch| && handled != 0
      ensures handled < 0 ==> FeedAll(Recv(old(Views(vRecvMsg)), false), pch) == Recv(Views(vRecvMsg), true)
      ensures handled > 0 ==>
        FeedAll(Recv(old(Views(vRecvMsg)), false), pch) == FeedAll(Recv(Views(vRecvMsg), false), pch[handled..])
    {
      hide Feed, FeedAll, ParseHeader, Views;
      ghost var open := Views(vRecvMsg);
      var msg := vRecvMsg[|vRecvMsg| - 1];
      ghost var view := msg.View();
      if !msg.in_data {
        FedHeader(open, view.buf, pch);
        handled := msg.readHeader(pch);
      } else {
        FedData(open, view.hdr, view.data, pch);
        handled := msg.readData(pch);
      }
      assert Views(vRecvMsg) == WithLast(open, msg.View());
    }
  }

  lemma FedNothing(r: Recv)
    ensures FeedAll(r, []) == r
  {
  }

  /** A chunk read by a message whose header is incomplete. */
  lemma FedHeader(open: seq<Msg>, buf: seq<nat>, pch: seq<nat>)
    requires open != [] && open[|open| - 1] == Head(buf) && |buf| < HEADER_SIZE
    ensures
      var n := Min(HEADER_SIZE - |buf|, |pch|);
      var g := Grown(open, buf + pch[..n]);
      && FeedAll(Recv(open, false), pch) == FeedAll(g, pch[n..])
      && (g.failed ==> FeedAll(g, pch[n..]) == g)
  {
    hide Feed, FeedAll, Grown;
    var n := Min(HEADER_SIZE - |buf|, |pch|);
    assert pch == pch[..n] + pch[n..];
    FeedSplit(Recv(open, false), pch[..n], pch[n..]);
    FeedHeader(open, buf, pch[..n]);
    FedAfterFailure(Grown(open, buf + pch[..n]), pch[n..]);
  }

  lemma {:induction false} FedAfterFailure(r: Recv, s: seq<nat>)
    ensures r.failed ==> FeedAll(r, s) == r
  {
    if s != [] {
      FedAfterFailure(r, s[..|s| - 1]);
    }
  }

  lemma FedData(open: seq<Msg>, hdr: CMessageHeader, data: seq<nat>, pch: seq<nat>)
    requires open != [] && open[|open| - 1] == Body(hdr, data) && |data| <= hdr.nMessageSize
    ensures
      var n := Min(hdr.nMessageSize - |data|, |pch|);
      FeedAll(Recv(open, false), pch) == FeedAll(Recv(WithLast(open, Body(hdr, data + pch[..n])), false), pch[n..])
  {
    hide Feed, FeedAll;
    var n := Min(hdr.nMessageSize - |data|, |pch|);
    assert pch == pch[..n] + pch[n..];
    FeedSplit(Recv(open, false), pch[..n], pch[n..]);
    FeedData(open, hdr, data, pch[..n]);
  }

  lemma QueueMore(q: seq<seq<nat>>, offset: nat, data: seq<nat>)
    requires QueueOk(q, offset) && data != []
    ensures QueueOk(q + [data], offset)
  {
  }

  lemma WireMore(start: seq<nat>, ms: seq<Message>, m: Message, checksum: seq<nat> -> nat)
    requires |start| == 4 && (forall i :: 0 <= i < |ms| ==> Named(ms[i])) && Named(m)
    ensures (forall i :: 0 <= i < |ms + [m]| ==> Named((ms + [m])[i]))
    ensures Wire(start, ms + [m], checksum) == Wire(start, ms, checksum) + Frame(start, m, checksum)
  {
    assert (ms + [m])[..|ms|] == ms;
  }

  /** Filling in size and checksum makes the stream the frame of its message. */
  lemma IsFrame(was: seq<nat>, start: seq<nat>, checksum: seq<nat> -> nat, nSize: nat, now: seq<nat>)
    requires |was| >= HEADER_SIZE && was[..4] == start && nSize == |was| - HEADER_SIZE
    requires
      var sized := was[..16] + Write32(nSize) + was[20..];
      now == sized[..20] + Write32(checksum(sized[24..])) + sized[24..]
    ensures |start| == 4 && now == Frame(start, Message(was[4..16], was[24..]), checksum)
  {
    hide Write32;
    var sized := was[..16] + Write32(nSize) + was[20..];
    assert sized[24..] == was[24..];
    assert sized[..20] == was[..16] + Write32(nSize);
    assert was[..16] == start + was[4..16];
  }
}
