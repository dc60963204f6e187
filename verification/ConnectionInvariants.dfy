/** What every public operation of a TCP connection keeps, whatever the peer sends. */
module ConnectionInvariants {
  import opened WrappingIntegers
  import opened TcpSegments
  import opened Sending
  import opened SenderInvariants
  import opened SenderSteps
  import opened Receiving
  import opened Connecting

  ghost predicate SenderCore(s: Sender) {
    QueueInv(s) && StreamInv(s) && SentInv(s) && OutInv(s)
  }

  predicate AnyFin(segs: seq<Segment>) {
    exists k :: 0 <= k < |segs| && segs[k].header.fin
  }

  /** The configuration reached both halves, and no inbound stream ends before it began. */
  predicate Configured(c: Connection) {
    && c.cfg.Valid() && c.sender.isn == c.cfg.isn && c.sender.timer.initialRto == c.cfg.rtTimeout
    && c.receiver.Valid() && (c.receiver.gotSyn || !c.Inbound().ended)
  }

  /** The connection knows whether its sender sent the SYN, and nothing was acknowledged before it. */
  predicate SynSent(c: Connection) {
    && c.sentSyn == c.sender.sentSyn
    && (!c.sender.sentSyn ==> c.sender.winBegin == 0 && c.sender.winSize == 1)
  }

  /** SYN bookkeeping; a SYN received is answered by one. */
  predicate SynBook(c: Connection) {
    SynSent(c) && (c.receiver.gotSyn ==> c.sentSyn)
  }

  /** FIN bookkeeping: the flag of the connection is the sender's, the recorded number is right, and
      the FIN counts as acknowledged exactly when it was sent and nothing is in flight. */
  predicate FinBook(c: Connection) {
    && c.sentFin == c.sender.sentAll
    && (c.sentFin ==> c.finSeqno + 1 == c.sender.next)
    && (c.finAcked <==> c.sentFin && c.sender.inFlight == 0)
  }

  predicate Error(c: Connection) {
    c.Outbound().error || c.Inbound().error
  }

  /** Both directions are over: the inbound stream is drained, the outbound one fully sent, its FIN acknowledged. */
  predicate Finished(c: Connection) {
    c.Inbound().Eof() && c.Outbound().Eof() && c.sentFin && c.finAcked
  }

  /** Lingering begins only when both directions are over; a connection that became inactive without
      error had them over, and if it lingered, it did so for ten times the retransmission timeout. */
  predicate CloseBook(c: Connection) {
    && (Error(c) ==> !c.active && c.Outbound().error && c.Inbound().error && !c.lingerBegin)
    && (c.lingerBegin ==> Finished(c) && (c.active ==> c.linger))
    && (!c.active && !Error(c) ==> Finished(c) && !c.linger && (c.lingerBegin ==> c.sinceLast >= 10 * c.cfg.rtTimeout))
  }

  ghost predicate ConnectionInv(c: Connection) {
    && Configured(c) && SenderCore(c.sender) && SynBook(c) && FinBook(c) && CloseBook(c)
    && (c.active ==> TimerInv(c.sender) && c.sender.out == [])
  }

  // ---- flushing the sender's queue ----

  function StampAll(c: Connection, segs: seq<Segment>): seq<Segment>
    requires c.receiver.Valid()
  {
    if segs == [] then [] else [c.Stamp(segs[0])] + StampAll(c, segs[1..])
  }

  /** `send_all` in one step. */
  function Flushed(c: Connection): Connection
    requires c.receiver.Valid()
  {
    c.(sender := c.sender.(out := []), out := c.out + StampAll(c, c.sender.out),
       sentSyn := c.sentSyn || AnySyn(c.sender.out),
       sentFin := c.sentFin || AnyFin(c.sender.out),
       finSeqno := if AnyFin(c.sender.out) then 1 + c.Outbound().read else c.finSeqno)
  }

  lemma StampSame(c: Connection, d: Connection, segs: seq<Segment>)
    requires c.receiver.Valid() && d.receiver == c.receiver
    ensures StampAll(c, segs) == StampAll(d, segs)
  {
  }

  predicate AnySyn(segs: seq<Segment>) {
    exists k :: 0 <= k < |segs| && segs[k].header.syn
  }

  lemma AnyFirst(segs: seq<Segment>)
    requires segs != []
    ensures AnyFin(segs) <==> segs[0].header.fin || AnyFin(segs[1..])
    ensures AnySyn(segs) <==> segs[0].header.syn || AnySyn(segs[1..])
  {
    assert forall k :: 0 <= k < |segs[1..]| ==> segs[1..][k] == segs[k + 1];
    if AnyFin(segs) && !segs[0].header.fin {
      var k :| 0 <= k < |segs| && segs[k].header.fin;
      assert segs[1..][k - 1] == segs[k];
    }
    if AnySyn(segs) && !segs[0].header.syn {
      var k :| 0 <= k < |segs| && segs[k].header.syn;
      assert segs[1..][k - 1] == segs[k];
    }
  }

  lemma {:induction false} SendAllFlushes(c: Connection)
    requires c.receiver.Valid()
    ensures c.SendAll() == Flushed(c)
    decreases |c.sender.out|
  {
    if c.sender.out == [] {
      assert c.out + [] == c.out;
    } else {
      var d := c.SendOne();
      SendAllFlushes(d);
      AnyFirst(c.sender.out);
      StampSame(c, d, c.sender.out[1..]);
      assert c.out + StampAll(c, c.sender.out) == (c.out + [c.Stamp(c.sender.out[0])]) + StampAll(c, c.sender.out[1..]);
    }
  }

  /** Between the sender's work and the flush: what the flags lack is in the queue. */
  ghost predicate Mid(d: Connection) {
    && Configured(d) && SenderInv(d.sender)
    && (d.sentSyn == d.sender.sentSyn || (d.sender.sentSyn && d.sender.out != [] && d.sender.out[0].header.syn))
    && (!d.sender.sentSyn ==> d.sender.out == [] && d.sender.winBegin == 0 && d.sender.winSize == 1)
    && (d.receiver.gotSyn ==> d.sender.sentSyn)
    && (d.sentFin || AnyFin(d.sender.out) <==> d.sender.sentAll)
    && (d.sentFin ==> d.finSeqno + 1 == d.sender.next)
    && (d.finAcked <==> d.sentFin && d.sender.inFlight == 0)
    && (d.sender.sentAll && !d.sentFin ==> d.sender.inFlight > 0)
  }

  lemma QueueFlags(s: Sender)
    requires SenderInv(s)
    ensures forall g :: g in s.out && g.header.fin ==> s.sentAll && s.stream.Eof()
    ensures forall g :: g in s.out && g.header.syn ==> s.sentSyn
  {
    forall g | g in s.out
      ensures g.header.fin ==> s.sentAll && s.stream.Eof()
      ensures g.header.syn ==> s.sentSyn
    {
      if FromSent(g, s.sent) {
        var k :| 0 <= k < |s.sent| && s.sent[k].seg == g;
      }
    }
  }

  /** Flushing trips no assertion and leaves the books right and the queue empty. */
  lemma FlushKeeps(d: Connection)
    requires Mid(d)
    ensures d.CanSendAll()
    ensures var c := d.SendAll();
            && Configured(c) && SenderInv(c.sender) && c.sender.out == [] && SynBook(c) && FinBook(c)
            && c == d.(sender := d.sender.(out := []), out := c.out, sentSyn := c.sentSyn, sentFin := c.sentFin, finSeqno := c.finSeqno)
            && (d.sentFin ==> c.sentFin)
  {
    QueueFlags(d.sender);
    SendAllFlushes(d);
    DrainKeeps(d.sender);
  }

  // ---- fill_window inside a connection ----

  /** After `fill_window` on a connection whose books are right. */
  lemma FillMid(c: Connection)
    requires Configured(c) && SenderInv(c.sender) && SynSent(c) && FinBook(c)
    requires forall g :: g in c.sender.out ==> !g.header.fin && !g.header.syn
    requires c.sender.out != [] ==> c.sentSyn
    ensures c.sender.CanFill()
    ensures Mid(c.(sender := c.sender.FillWindow()))
    ensures Extends(c.sender, c.sender.FillWindow())
  {
    var s, t := c.sender, c.sender.FillWindow();
    FillKeeps(s);
    FillQueued(s);
    if !s.sentAll {
      FillFin(s);
      assert AnyFin(t.out) <==> t.sentAll by {
        assert forall k :: 0 <= k < |s.out| ==> t.out[k] == s.out[k] && t.out[k] in s.out;
      }
    }
  }

  // ---- a segment arrives ----

  /** The acknowledgment is decoded twice, around a checkpoint that may move in between; both times
      the answer is the same. */
  lemma DecodedTwice(s: Sender, ackno: u32, win: u16)
    requires QueueInv(s)
    ensures s.AckReceived(ackno, win).AbsSeqno(ackno) == s.AbsSeqno(ackno)
  {
    if s.AbsSeqno(ackno) <= s.next {
      AckFrame(s, s.AbsSeqno(ackno), win);
      UnwrapStable(ackno, s.isn, s.checkpoint);
    }
  }

  lemma AckReceivedKeeps(s: Sender, ackno: u32, win: u16)
    requires SenderInv(s)
    ensures var t := s.AckReceived(ackno, win);
            && SenderInv(t) && Extends(s, t) && t.out == s.out && t.sentSyn == s.sentSyn && t.sentAll == s.sentAll
            && t.next == s.next && t.stream == s.stream
            && (t.inFlight == 0 <==> s.inFlight == 0 || s.AbsSeqno(ackno) == s.next)
  {
    var a := s.AbsSeqno(ackno);
    QueueTotal(s);
    if a <= s.next {
      AckKeeps(s, a, win);
      AckFrame(s, a, win);
      QueueTotal(s.AckAbsolute(a, win));
    }
  }

  /** Taking an acknowledgment keeps the FIN bookkeeping, whatever number it carries. */
  lemma TakeAckFin(c: Connection, seg: Segment)
    requires SenderInv(c.sender) && FinBook(c)
    ensures FinBook(c.TakeAck(seg))
  {
    if seg.header.ack {
      DecodedTwice(c.sender, seg.header.ackno, seg.header.win);
      AckReceivedKeeps(c.sender, seg.header.ackno, seg.header.win);
    }
  }

  /** Nothing in the queue carries a flag, and before the SYN nothing is queued. */
  predicate Quiet(c: Connection) {
    && (forall g :: g in c.sender.out ==> !g.header.fin && !g.header.syn)
    && (c.sender.out != [] ==> c.sentSyn)
  }

  lemma TakeAckKeeps(c: Connection, seg: Segment)
    requires Configured(c) && SenderInv(c.sender) && FinBook(c) && Quiet(c)
    requires c.sentSyn == c.sender.sentSyn && c.TakeAck(seg).sender.CanFill()
    ensures var d := c.TakeAck(seg);
            && Configured(d) && SenderInv(d.sender) && FinBook(d) && Quiet(d) && SynSent(d)
            && (Finished(c) ==> Finished(d)) && (Error(d) == Error(c))
  {
    TakeAckFin(c, seg);
    if seg.header.ack {
      AckReceivedKeeps(c.sender, seg.header.ackno, seg.header.win);
    }
  }

  lemma KeepAliveKeeps(c: Connection, seg: Segment)
    requires Configured(c) && SenderInv(c.sender) && FinBook(c) && c.sender.out == []
    requires c.receiver.gotSyn && seg.LengthInSequenceSpace() == 0 ==> c.sentSyn
    ensures var d := c.AnswerKeepAlive(seg);
            Configured(d) && SenderInv(d.sender) && FinBook(d) && Quiet(d) && d == c.(sender := c.sender.(out := d.sender.out))
  {
    SendEmptyKeeps(c.sender);
  }

  lemma AnswerMid(c: Connection, seg: Segment)
    requires Configured(c) && SenderInv(c.sender) && SynSent(c) && FinBook(c) && Quiet(c)
    ensures c.sender.CanFill() && Mid(c.Answer(seg))
  {
    FillMid(c);
    FillKeeps(c.sender);
    var d := c.(sender := c.sender.FillWindow());
    if d.sender.out == [] && seg.LengthInSequenceSpace() != 0 {
      SendEmptyKeeps(d.sender);
      assert d.sender.SendEmptySegment().out == [Segment(DEFAULT_HEADER.(seqno := d.sender.NextSeqno()), [])];
      assert !AnyFin(d.sender.SendEmptySegment().out);
    }
  }

  /** Trying to end, when the books are right. */
  lemma EndKeeps(c: Connection)
    requires Configured(c) && SenderInv(c.sender) && c.sender.out == [] && SynBook(c) && FinBook(c)
    requires c.active && !Error(c) && (c.lingerBegin ==> Finished(c) && c.linger)
    ensures ConnectionInv(c.TryToEndCleanly())
    ensures c.TryToEndCleanly().active || !c.TryToEndCleanly().lingerBegin
  {
    if c.InboundDone() && c.OutboundDone() && c.finAcked && !c.linger {
      assert c.sender.stream.EndInput() == c.sender.stream;
      assert c.receiver.reas.out.EndInput() == c.receiver.reas.out;
      assert c.TryToEndCleanly() == c.(active := false);
    }
  }

  /** From a mid state to the end of a public call. */
  lemma FinishKeeps(d: Connection)
    requires Mid(d) && d.active && !Error(d) && (d.lingerBegin ==> Finished(d) && d.linger)
    ensures ConnectionInv(d.SendAll().TryToEndCleanly())
    ensures d.SendAll().TryToEndCleanly().active || !d.SendAll().TryToEndCleanly().lingerBegin
  {
    FlushKeeps(d);
    EndKeeps(d.SendAll());
  }

  lemma UncleanKeeps(c: Connection)
    requires Configured(c) && SenderCore(c.sender) && SynBook(c) && FinBook(c)
    ensures ConnectionInv(c.EndUncleanly())
  {
    var d := c.EndUncleanly();
    CarriesAll(c.sender.sent, c.sender.isn, c.sender.stream, d.sender.stream);
    assert SenderCore(d.sender);
  }

  /** The FIN and the streams that are over stay so while a segment is taken. */
  lemma TakenFrame(c: Connection, seg: Segment)
    requires ConnectionInv(c) && c.active && c.CanProcess(seg) && !c.BeforeSyn(seg)
    ensures var d := c.Taken(seg);
            && Configured(d) && SenderInv(d.sender) && FinBook(d) && Quiet(d) && SynSent(d)
            && d.active && !Error(d) && d.lingerBegin == c.lingerBegin
            && (c.lingerBegin ==> Finished(d) && d.linger)
  {
    ReceivedFrame(c.receiver, seg);
    var c1 := c.Receive(seg);
    KeepAliveKeeps(c1, seg);
    var c2 := c1.AnswerKeepAlive(seg);
    TakeAckKeeps(c2, seg);
  }

  lemma AnswerFrame(c: Connection, seg: Segment)
    requires c.sender.CanFill() && FinBook(c)
    ensures var d := c.Answer(seg);
            d == c.(sender := d.sender) && (Error(c) == Error(d)) && (Finished(c) ==> Finished(d))
  {
    FillStream(c.sender);
  }

  lemma ProcessKeeps(c: Connection, seg: Segment)
    requires ConnectionInv(c) && c.active && c.CanProcess(seg) && !c.BeforeSyn(seg)
    ensures ConnectionInv(c.Process(seg))
    ensures c.Process(seg).active || !c.Process(seg).lingerBegin
  {
    TakenFrame(c, seg);
    var d := c.Taken(seg);
    AnswerMid(d, seg);
    AnswerFrame(d, seg);
    FinishKeeps(d.Answer(seg));
  }

  /** A segment from any peer keeps the connection invariant, as long as the source does not abort. */
  lemma SegmentKeeps(c: Connection, seg: Segment)
    requires ConnectionInv(c) && c.Handles(seg)
    ensures ConnectionInv(c.SegmentReceived(seg))
  {
    if c.active {
      if c.BeforeSyn(seg) || seg.header.rst {
        UncleanKeeps(c);
        SinceLast(c.EndUncleanly(), 0);
      } else {
        ProcessKeeps(c, seg);
        SinceLast(c.Process(seg), 0);
      }
    }
  }

  lemma SinceLast(c: Connection, ms: nat)
    requires ConnectionInv(c) && (c.active || !c.lingerBegin || c.sinceLast <= ms)
    ensures ConnectionInv(c.(sinceLast := ms))
  {
  }
}
