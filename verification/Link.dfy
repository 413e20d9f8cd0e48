/** Two nodes and the connection between them: one posts and sends messages, the other
    receives what the socket took, in whatever pieces (src/net.cpp:658-783,
    src/net.h:595-651). */
module Link {
  import opened Collections
  import opened Framing
  import opened Net

  /** Post and end a message, try to send what is queued, or deliver up to n more bytes. */
  datatype Step =
    | Post(message: Message, dropped: bool, results: seq<SendResult>)
    | Flush(results: seq<SendResult>)
    | Deliver(n: nat)

  predicate StepOk(s: Step) {
    s.Post? ==> Sendable(s.message)
  }

  /** The messages that the steps post and do not drop. */
  function Posted(steps: seq<Step>): seq<Message> {
    if steps == [] then []
    else
      var s := steps[|steps| - 1];
      Posted(steps[..|steps| - 1]) + if s.Post? && !s.dropped then [s.message] else []
  }

  class CLink {
    const sender: CNode
    const receiver: CNode
    /** How much of what the sender's socket took has been received. */
    var received: nat

    constructor (start: seq<nat>, checksum: seq<nat> -> nat)
      requires |start| == 4 && Checksums32(checksum)
      ensures Valid() && fresh(sender) && fresh(receiver) && sender.ended == []
      ensures sender.start == start && sender.checksum == checksum && receiver.vRecvMsg == []
    {
      var s := new CNode(start, checksum);
      var r := new CNode(start, checksum);
      sender, receiver, received := s, r, 0;
    }

    ghost predicate Valid()
      reads this, sender, receiver, receiver.vRecvMsg
    {
      && sender != receiver && Checksums32(sender.checksum)
      && sender.ValidSend() && sender.ssSend == [] && (forall i :: 0 <= i < |sender.ended| ==> Sendable(sender.ended[i]))
      && receiver.ValidRecv() && received <= |sender.wire|
      && FeedAll(Recv([], false), sender.wire[..received]) == Recv(Views(receiver.vRecvMsg), false)
    }

    /** In every state the receiver's complete messages are a first part of those posted; they
        are all of them once everything was sent and delivered. */
    lemma InOrder()
      requires Valid()
      ensures Done(Views(receiver.vRecvMsg)) <= AllReceived(sender.start, sender.ended, sender.checksum)
      ensures sender.vSendMsg == [] && received == |sender.wire| ==>
        Views(receiver.vRecvMsg) == AllReceived(sender.start, sender.ended, sender.checksum)
    {
      hide FeedAll, Wire, Checksums32, Views;
      assert sender.wire[..received] <= Wire(sender.start, sender.ended, sender.checksum) by {
        assert sender.wire <= Wire(sender.start, sender.ended, sender.checksum);
      }
      PartReceived(sender.start, sender.ended, sender.checksum, sender.wire[..received]);
      if sender.vSendMsg == [] && received == |sender.wire| {
        sender.Delivered();
        assert sender.wire[..received] == sender.wire;
      }
    }

    method Take(s: Step)
      requires Valid() && StepOk(s)
      modifies this, sender, receiver, receiver.vRecvMsg
      ensures Valid() && OnlyNew(old(receiver.vRecvMsg), receiver.vRecvMsg)
      ensures sender.ended == old(sender.ended) + if s.Post? && !s.dropped then [s.message] else []
      ensures if s.Deliver? then sender.wire == old(sender.wire) && received == Min(old(received) + s.n, |sender.wire|)
              else received == old(received) && old(sender.wire) <= sender.wire
    {
      hide FeedAll, Wire, Checksums32, Views, CNode.ValidSend, CNode.ValidRecv, Write32, AllValid;
      match s
      case Post(m, dropped, results) =>
        PostMessage(m, dropped, results);
      case Flush(results) =>
        sender.SocketSendData(results);
        assert sender.wire[..received] == old(sender.wire)[..received];
      case Deliver(n) =>
        DeliverBytes(n);
    }

    method PostMessage(m: Message, dropped: bool, results: seq<SendResult>)
      requires Valid() && Sendable(m)
      modifies sender
      ensures Valid() && old(sender.wire) <= sender.wire
      ensures sender.ended == old(sender.ended) + if dropped then [] else [m]
    {
      hide FeedAll, Wire, Checksums32, Views, CNode.ValidRecv, Write32, AllValid;
      sender.BeginMessage(m.command);
      sender.Append(m.payload);
      assert sender.ssSend[4..16] == m.command && sender.ssSend[HEADER_SIZE..] == m.payload;
      assert sender.ssSend[..4] == sender.start;
      sender.EndMessage(dropped, results);
      assert sender.wire[..received] == old(sender.wire)[..received];
    }

    method DeliverBytes(n: nat)
      requires Valid()
      modifies this`received, receiver`vRecvMsg, receiver.vRecvMsg
      ensures Valid() && OnlyNew(old(receiver.vRecvMsg), receiver.vRecvMsg)
      ensures received == Min(old(received) + n, |sender.wire|)
    {
      hide FeedAll, Wire, Checksums32, Views, AllValid;
      var upTo := Min(received + n, |sender.wire|);
      var pch := sender.wire[received..upTo];
      ghost var before := sender.wire[..received];
      FeedSplit(Recv([], false), before, pch);
      assert before + pch == sender.wire[..upTo];
      NeverFails(upTo);
      var ok := receiver.ReceiveMsgBytes(pch);
      received := upTo;
    }

    lemma NeverFails(upTo: nat)
      requires Valid() && upTo <= |sender.wire|
      ensures !FeedAll(Recv([], false), sender.wire[..upTo]).failed
    {
      hide FeedAll, Wire, Checksums32, Views;
      assert sender.wire[..upTo] <= Wire(sender.start, sender.ended, sender.checksum) by {
        assert sender.wire <= Wire(sender.start, sender.ended, sender.checksum);
      }
      PartReceived(sender.start, sender.ended, sender.checksum, sender.wire[..upTo]);
    }

    /** Any sequence of steps: the receiver holds a first part of the messages posted, in their
        order, and all of them once everything was sent and delivered. */
    method Run(steps: seq<Step>)
      requires Valid() && sender.ended == [] && forall i :: 0 <= i < |steps| ==> StepOk(steps[i])
      modifies this, sender, receiver, receiver.vRecvMsg
      ensures Valid() && sender.ended == Posted(steps)
      ensures Done(Views(receiver.vRecvMsg)) <= AllReceived(sender.start, Posted(steps), sender.checksum)
      ensures sender.vSendMsg == [] && received == |sender.wire| ==>
        Views(receiver.vRecvMsg) == AllReceived(sender.start, Posted(steps), sender.checksum)
    {
      hide Valid, Views, AllReceived, Done, StepOk;
      for i := 0 to |steps|
        invariant Valid() && sender.ended == Posted(steps[..i]) && OnlyNew(old(receiver.vRecvMsg), receiver.vRecvMsg)
      {
        assert steps[..i + 1][..i] == steps[..i];
        Take(steps[i]);
      }
      assert steps[..|steps|] == steps;
      InOrder();
    }
  }
}
