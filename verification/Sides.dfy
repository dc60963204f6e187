/** One endpoint's step seen from its peer: as the sender of one direction and the receiver of the other. */
module Sides {
  import opened WrappingIntegers
  import opened ByteStreams
  import opened TcpSegments
  import opened Sending
  import opened SenderInvariants
  import opened SenderSteps
  import opened Receiving
  import opened Connecting
  import opened ConnectionInvariants
  import opened ConnectionRuns
  import opened Flow
  import opened Emission

  /** The sender stays within what the peer's receiver offered: its window edge and its next number are at
      most one past the right edge (the probe of a closed window), and it believes no more acknowledged
      than the peer has. */
  predicate Restrained(s: Sender, r: Receiver) {
    && r.Valid()
    && s.Edge() <= r.WindowEnd() + 1 && s.next <= r.WindowEnd() + 1
    && s.checkpoint <= (if r.gotSyn then r.AbsAckno() else 0)
  }

  lemma RestrainedLater(s: Sender, r: Receiver, d: Receiver)
    requires Restrained(s, r) && Progress(r, d)
    ensures Restrained(s, d)
  {
  }

  /** Taking an acknowledgment of the peer. */
  lemma AckRestrained(s: Sender, r: Receiver, seg: Segment)
    requires SenderInv(s) && Matches(r, s) && Restrained(s, r) && Acks(seg, r) && seg.header.ack
    ensures Restrained(s.AckReceived(seg.header.ackno, seg.header.win), r)
    ensures s.sentSyn
  {
    var a: nat :| 1 <= a <= r.AbsAckno() && seg.header.ackno == Wrap(a, r.isn) && a + seg.header.win <= r.WindowEnd();
    AckBelowNext(r, s);
    UnwrapWrap(a, s.isn, s.checkpoint);
    AckFrame(s, a, seg.header.win);
  }

  /** Filling the window stays within it. */
  lemma FillRestrained(s: Sender, r: Receiver)
    requires SenderInv(s) && s.CanFill() && Restrained(s, r)
    ensures Restrained(s.FillWindow(), r)
  {
    FillKeeps(s);
  }

  // ---- the sending side of each event ----

  lemma FlushSend(d: Connection, r: Receiver)
    requires Mid(d) && Restrained(d.sender, r)
    ensures Restrained(d.SendAll().TryToEndCleanly().sender, r)
  {
    FlushKeeps(d);
    EndSender(d.SendAll());
  }

  lemma AckSend(c: Connection, seg: Segment, r: Receiver)
    requires SenderInv(c.sender) && Matches(r, c.sender) && Restrained(c.sender, r) && Acks(seg, r)
    ensures Restrained(c.TakeAck(seg).sender, r)
  {
    if seg.header.ack {
      AckRestrained(c.sender, r, seg);
    }
  }

  lemma EmptySend(s: Sender, r: Receiver)
    requires SenderInv(s) && Matches(r, s) && Restrained(s, r)
    ensures var t := s.SendEmptySegment(); SenderInv(t) && Matches(r, t) && Restrained(t, r)
  {
    SendEmptyKeeps(s);
    MatchesLater(r, s, s.SendEmptySegment());
  }

  lemma KeepAliveSend(c: Connection, seg: Segment, r: Receiver)
    requires SenderInv(c.sender) && Matches(r, c.sender) && Restrained(c.sender, r)
    ensures var s := c.AnswerKeepAlive(seg).sender; SenderInv(s) && Matches(r, s) && Restrained(s, r)
  {
    EmptySend(c.sender, r);
    KeepAliveSender(c, seg);
  }

  lemma TakenSend(c: Connection, seg: Segment, r: Receiver)
    requires ConnectionInv(c) && c.active && c.CanProcess(seg)
    requires Matches(r, c.sender) && Restrained(c.sender, r) && Acks(seg, r)
    ensures Restrained(c.Taken(seg).sender, r)
  {
    KeepAliveSend(c.Receive(seg), seg, r);
    AckSend(c.Receive(seg).AnswerKeepAlive(seg), seg, r);
  }

  lemma AnswerSend(c: Connection, seg: Segment, r: Receiver)
    requires SenderInv(c.sender) && c.sender.CanFill() && Restrained(c.sender, r)
    ensures Restrained(c.Answer(seg).sender, r)
  {
    FillRestrained(c.sender, r);
  }

  lemma ProcessSend(c: Connection, seg: Segment, r: Receiver)
    requires ConnectionInv(c) && c.active && c.CanProcess(seg) && !c.BeforeSyn(seg)
    requires Matches(r, c.sender) && Restrained(c.sender, r) && Acks(seg, r)
    ensures Restrained(c.Process(seg).sender, r)
  {
    TakenSend(c, seg, r);
    TakenFrame(c, seg);
    var t := c.Taken(seg);
    AnswerSend(t, seg, r);
    AnswerMid(t, seg);
    FlushSend(t.Answer(seg), r);
  }

  lemma ArriveSend(c: Connection, seg: Segment, r: Receiver)
    requires ConnectionInv(c) && c.Handles(seg)
    requires Matches(r, c.sender) && Restrained(c.sender, r) && Acks(seg, r)
    ensures Restrained(c.SegmentReceived(seg).sender, r)
  {
    if c.active && !c.BeforeSyn(seg) && !seg.header.rst {
      ProcessSend(c, seg, r);
    }
  }

  lemma GrowSend(c: Connection, b: Stream, r: Receiver)
    requires ConnectionInv(c) && c.active && Restrained(c.sender, r)
    requires Grows(c.Outbound(), b) && b.Valid() && b.read == c.Outbound().read && b.error == c.Outbound().error
    ensures var d := c.(sender := c.sender.(stream := b));
            d.sender.CanFill() && Restrained(d.(sender := d.sender.FillWindow()).SendAll().TryToEndCleanly().sender, r)
  {
    StreamGrows(c.sender, b);
    var d := c.(sender := c.sender.(stream := b));
    FillMid(d);
    FillRestrained(d.sender, r);
    FlushSend(d.(sender := d.sender.FillWindow()), r);
  }

  lemma TickSend(c: Connection, ms: nat, r: Receiver)
    requires ConnectionInv(c) && c.CanTick() && Restrained(c.sender, r)
    ensures Restrained(c.Tick(ms).sender, r)
  {
    TickCases(c, ms);
    if c.active {
      TickFrame(c.sender, ms);
      TickedSender(c, ms);
    }
  }

  lemma WriteSend(c: Connection, data: seq<byte>, r: Receiver)
    requires ConnectionInv(c) && c.active && !c.Outbound().ended && c.sender.CanFill() && Restrained(c.sender, r)
    ensures Restrained(c.Write(data).sender, r)
  {
    GrowSend(c, c.Outbound().Write(data), r);
  }

  lemma EndInputSend(c: Connection, r: Receiver)
    requires ConnectionInv(c) && c.active && c.sender.CanFill() && Restrained(c.sender, r)
    ensures Restrained(c.EndInputStream().sender, r)
  {
    GrowSend(c, c.Outbound().EndInput(), r);
  }

  lemma CallSend(c: Connection, e: Event, r: Receiver)
    requires ConnectionInv(c) && Enabled(c, e) && (e.Write? || e.EndInput? || e.Connect?) && Restrained(c.sender, r)
    ensures Restrained(Next(c, e).sender, r)
  {
    if e.Write? {
      WriteSend(c, e.data, r);
    } else if e.EndInput? {
      EndInputSend(c, r);
    } else {
      FillRestrained(c.sender, r);
    }
  }

  /** The sender's half of an event: it stays within the peer's window. */
  lemma EventSend(c: Connection, e: Event, r: Receiver)
    requires ConnectionInv(c) && Enabled(c, e)
    requires Matches(r, c.sender) && Restrained(c.sender, r) && (e.Arrive? ==> Acks(e.seg, r))
    ensures Restrained(Next(c, e).sender, r)
  {
    if e.Write? || e.EndInput? || e.Connect? {
      CallSend(c, e, r);
    } else if e.Arrive? {
      ArriveSend(c, e.seg, r);
    } else if e.Tick? {
      TickSend(c, e.ms, r);
    }
  }

  // ---- the receiving side of each event ----

  ghost predicate RecvStep(c: Connection, d: Connection, s: Sender) {
    Matches(d.receiver, s) && Progress(c.receiver, d.receiver)
  }

  lemma EndReceiver(c: Connection)
    ensures c.TryToEndCleanly().receiver == c.receiver
  {
    if c.InboundDone() { assert c.receiver.reas.out.EndInput() == c.receiver.reas.out; }
  }

  lemma UncleanRecv(c: Connection, s: Sender)
    requires Matches(c.receiver, s)
    ensures RecvStep(c, c.EndUncleanly(), s)
  {
  }

  lemma ProcessReceiver(c: Connection, seg: Segment)
    requires c.CanProcess(seg)
    ensures c.Process(seg).receiver == c.receiver.SegmentReceived(seg)
  {
    var d := c.Taken(seg).Answer(seg);
    SendAllFlushes(d);
    EndReceiver(d.SendAll());
  }

  lemma ArriveRecv(c: Connection, seg: Segment, s: Sender)
    requires ConnectionInv(c) && c.Handles(seg)
    requires Matches(c.receiver, s) && SentBy(seg, s) && s.next <= c.receiver.WindowEnd() + 1
    ensures RecvStep(c, c.SegmentReceived(seg), s)
  {
    UncleanRecv(c, s);
    if c.active && !c.BeforeSyn(seg) && !seg.header.rst {
      Deliver(c.receiver, seg, s);
      ReceivedFrame(c.receiver, seg);
      ProcessReceiver(c, seg);
    }
  }

  lemma FlushReceiver(d: Connection)
    requires d.receiver.Valid()
    ensures d.SendAll().TryToEndCleanly().receiver == d.receiver
  {
    SendAllFlushes(d);
    EndReceiver(d.SendAll());
  }

  lemma TickRecv(c: Connection, ms: nat, s: Sender)
    requires ConnectionInv(c) && c.CanTick() && Matches(c.receiver, s)
    ensures RecvStep(c, c.Tick(ms), s)
  {
    TickCases(c, ms);
    if c.active {
      var t := Ticked(c, ms);
      UncleanRecv(t.SendRst(), s);
      SendAllFlushes(t);
      EndReceiver(t.SendAll());
      if c.lingerBegin { assert c.receiver.reas.out.EndInput() == c.receiver.reas.out; }
    }
  }

  lemma SameRecv(c: Connection, d: Connection, s: Sender)
    requires d.receiver == c.receiver && Matches(c.receiver, s)
    ensures RecvStep(c, d, s)
  {
  }

  lemma WriteRecv(c: Connection, data: seq<byte>, s: Sender)
    requires c.receiver.Valid() && c.sender.CanFill() && !c.Outbound().ended && Matches(c.receiver, s)
    ensures RecvStep(c, c.Write(data), s)
  {
    FlushReceiver(c.(sender := c.sender.(stream := c.sender.stream.Write(data)).FillWindow()));
    SameRecv(c, c.Write(data), s);
  }

  lemma EndInputRecv(c: Connection, s: Sender)
    requires c.receiver.Valid() && c.sender.CanFill() && Matches(c.receiver, s)
    ensures RecvStep(c, c.EndInputStream(), s)
  {
    FlushReceiver(c.(sender := c.sender.(stream := c.sender.stream.EndInput()).FillWindow()));
    SameRecv(c, c.EndInputStream(), s);
  }

  lemma ReadRecv(c: Connection, len: nat, s: Sender)
    requires c.receiver.Valid() && len <= c.Inbound().Buffered() && Matches(c.receiver, s)
    ensures RecvStep(c, c.ReadInbound(len), s)
  {
    ReadMatches(c.receiver, s, len);
  }

  /** The receiver's half of an event: it stays true to the peer's sender, and its acknowledgment and right edge never retreat. */
  lemma EventRecv(c: Connection, e: Event, s: Sender)
    requires ConnectionInv(c) && Enabled(c, e)
    requires Matches(c.receiver, s) && (e.Arrive? ==> SentBy(e.seg, s) && s.next <= c.receiver.WindowEnd() + 1)
    ensures RecvStep(c, Next(c, e), s)
  {
    match e
    case Arrive(seg) => ArriveRecv(c, seg, s);
    case Write(data) => WriteRecv(c, data, s);
    case EndInput => EndInputRecv(c, s);
    case Tick(ms) => TickRecv(c, ms, s);
    case Read(len) => ReadRecv(c, len, s);
    case Connect => SameRecv(c, c.Connect(), s);
    case Dequeue => SameRecv(c, c.Dequeue(), s);
  }
}
