/** What a connection puts on the wire: segments of its sender, stamped with the truth about its receiver. */
module Emission {
  import opened WrappingIntegers
  import opened ByteStreams
  import opened TcpSegments
  import opened Sending
  import opened SenderInvariants
  import opened SenderSteps
  import opened Receiving
  import opened Connecting
  import opened ConnectionInvariants
  import opened ConnectionRuns
  import opened Flow

  /** An acknowledgment claims the SYN at least and no more than the receiver has, and offers no window beyond its
      right edge. */
  ghost predicate Acks(g: Segment, r: Receiver) {
    g.header.ack ==>
      && r.Valid() && r.gotSyn
      && exists a: nat :: 1 <= a <= r.AbsAckno() && g.header.ackno == Wrap(a, r.isn) && a + g.header.win <= r.WindowEnd()
  }

  ghost predicate Good(g: Segment, s: Sender, r: Receiver) {
    SentBy(g, s) && Acks(g, r)
  }

  /** Everything queued after `base` is good. */
  ghost predicate OutGood(c: Connection, base: seq<Segment>) {
    base <= c.out && forall k :: |base| <= k < |c.out| ==> Good(c.out[k], c.sender, c.receiver)
  }

  /** What only grows in a receiver. */
  predicate Progress(r: Receiver, d: Receiver) {
    && r.Valid() && d.Valid()
    && (r.gotSyn ==> d.gotSyn && d.isn == r.isn)
    && r.AbsAckno() <= d.AbsAckno() && r.WindowEnd() <= d.WindowEnd()
  }

  lemma AcksLater(g: Segment, r: Receiver, d: Receiver)
    requires Acks(g, r) && Progress(r, d)
    ensures Acks(g, d)
  {
  }

  lemma {:induction false} ChainBound(o: seq<Placed>, start: nat, end: nat, k: nat)
    requires Chain(o, start, end) && k < |o|
    ensures o[k].AbsEnd() <= end
  {
    ChainLength(o, start, end);
    if k > 0 { ChainBound(o[1..], o[0].AbsEnd(), end, k - 1); }
  }

  lemma QueuedSentBy(g: Segment, s: Sender)
    requires SentInv(s) && OutInv(s) && g in s.out
    ensures SentBy(g, s)
  {
    if FromSent(g, s.sent) {
      var k :| 0 <= k < |s.sent| && s.sent[k].seg == g;
      ChainBound(s.sent, 0, s.next, k);
      assert s.sent[k].absSeqno + g.LengthInSequenceSpace() <= s.next;
    }
  }

  /** Only the acknowledgment fields differ. */
  predicate SameData(g: Segment, h: Segment) {
    h.payload == g.payload && h.header == g.header.(ack := h.header.ack, ackno := h.header.ackno, win := h.header.win)
  }

  lemma SameSentBy(g: Segment, h: Segment, s: Sender)
    requires SentBy(g, s) && SameData(g, h)
    ensures SentBy(h, s)
  {
    if !IsBare(g, s.isn, s.next) {
      var abs: nat :| abs + g.LengthInSequenceSpace() <= s.next && Carries(g, abs, s.isn, s.stream);
      assert abs + h.LengthInSequenceSpace() <= s.next && Carries(h, abs, s.isn, s.stream);
    }
  }

  lemma StampGood(c: Connection, g: Segment)
    requires c.receiver.Valid() && SentInv(c.sender) && OutInv(c.sender) && g in c.sender.out
    ensures Good(c.Stamp(g), c.sender, c.receiver)
  {
    var h := c.Stamp(g);
    QueuedSentBy(g, c.sender);
    SameSentBy(g, h, c.sender);
    assert !g.header.ack by {
      if FromSent(g, c.sender.sent) {
        var k :| 0 <= k < |c.sender.sent| && c.sender.sent[k].seg == g;
      }
    }
  }

  lemma {:induction false} StampAllGood(c: Connection, segs: seq<Segment>, h: Segment)
    requires c.receiver.Valid() && SentInv(c.sender) && OutInv(c.sender)
    requires forall g :: g in segs ==> g in c.sender.out
    requires h in StampAll(c, segs)
    ensures Good(h, c.sender, c.receiver)
  {
    StampGood(c, segs[0]);
    if h != c.Stamp(segs[0]) {
      StampAllGood(c, segs[1..], h);
    }
  }

  /** What a flush puts out is good. */
  lemma FlushGood(d: Connection)
    requires Mid(d)
    ensures OutGood(d.SendAll(), d.out)
  {
    FlushKeeps(d);
    SendAllFlushes(d);
    var c := d.SendAll();
    forall k | |d.out| <= k < |c.out| ensures Good(c.out[k], c.sender, c.receiver) {
      StampAllGood(d, d.sender.out, c.out[k]);
      DrainedSentBy(c.out[k], d.sender);
    }
  }

  lemma DrainedSentBy(g: Segment, s: Sender)
    requires SentBy(g, s)
    ensures SentBy(g, s.(out := []))
  {
    if !IsBare(g, s.isn, s.next) {
      var abs: nat :| abs + g.LengthInSequenceSpace() <= s.next && Carries(g, abs, s.isn, s.stream);
    }
  }

  /** Ending, cleanly or not, changes neither what was sent nor what was received. */
  lemma EndGood(c: Connection, d: Connection, base: seq<Segment>)
    requires OutGood(c, base) && d.out == c.out
    requires d.sender.isn == c.sender.isn && d.sender.next == c.sender.next && Grows(c.sender.stream, d.sender.stream)
    requires c.receiver.Valid() ==> Progress(c.receiver, d.receiver)
    ensures OutGood(d, base)
  {
    forall k | |base| <= k < |d.out| ensures Good(d.out[k], d.sender, d.receiver) {
      var g := d.out[k];
      if !IsBare(g, c.sender.isn, c.sender.next) {
        var abs: nat :| abs + g.LengthInSequenceSpace() <= c.sender.next && Carries(g, abs, c.sender.isn, c.sender.stream);
        CarriesLater(g, abs, c.sender.isn, c.sender.stream, d.sender.stream);
      }
    }
  }

  // ---- what each event puts out ----

  lemma FlushEndGood(d: Connection)
    requires Mid(d)
    ensures OutGood(d.SendAll().TryToEndCleanly(), d.out)
  {
    FlushKeeps(d);
    FlushGood(d);
    var c := d.SendAll();
    if c.InboundDone() && c.OutboundDone() {
      assert c.sender.stream.EndInput() == c.sender.stream && c.receiver.reas.out.EndInput() == c.receiver.reas.out;
    }
    EndGood(c, c.TryToEndCleanly(), d.out);
  }

  lemma ProcessGood(c: Connection, seg: Segment)
    requires ConnectionInv(c) && c.active && c.CanProcess(seg) && !c.BeforeSyn(seg)
    ensures OutGood(c.Process(seg), c.out)
  {
    TakenFrame(c, seg);
    var t := c.Taken(seg);
    TakenOut(c, seg);
    AnswerMid(t, seg);
    FlushEndGood(t.Answer(seg));
  }

  lemma TakenOut(c: Connection, seg: Segment)
    requires c.receiver.Valid() && c.receiver.Handles(seg)
    ensures c.Taken(seg).out == c.out
  {
    KeepAliveFlags(c.Receive(seg), seg);
    TakeAckFlags(c.Receive(seg).AnswerKeepAlive(seg), seg);
  }

  lemma NothingNew(c: Connection, d: Connection)
    requires d.out == c.out
    ensures OutGood(d, c.out)
  {
  }

  lemma ArriveGood(c: Connection, seg: Segment)
    requires ConnectionInv(c) && c.Handles(seg)
    ensures OutGood(c.SegmentReceived(seg), c.out)
  {
    if c.active && !c.BeforeSyn(seg) && !seg.header.rst {
      ProcessGood(c, seg);
      EndGood(c.Process(seg), c.SegmentReceived(seg), c.out);
    } else {
      NothingNew(c, c.SegmentReceived(seg));
    }
  }

  lemma GrowGood(c: Connection, b: Stream)
    requires ConnectionInv(c) && c.active
    requires Grows(c.Outbound(), b) && b.Valid() && b.read == c.Outbound().read && b.error == c.Outbound().error
    ensures var d := c.(sender := c.sender.(stream := b));
            d.sender.CanFill() && OutGood(d.(sender := d.sender.FillWindow()).SendAll().TryToEndCleanly(), c.out)
  {
    StreamGrows(c.sender, b);
    var d := c.(sender := c.sender.(stream := b));
    FillMid(d);
    FlushEndGood(d.(sender := d.sender.FillWindow()));
  }

  lemma WriteGood(c: Connection, data: seq<byte>)
    requires ConnectionInv(c) && c.active && !c.Outbound().ended && c.sender.CanFill()
    ensures OutGood(c.Write(data), c.out)
  {
    GrowGood(c, c.Outbound().Write(data));
  }

  lemma EndInputGood(c: Connection)
    requires ConnectionInv(c) && c.active && c.sender.CanFill()
    ensures OutGood(c.EndInputStream(), c.out)
  {
    GrowGood(c, c.Outbound().EndInput());
  }

  lemma ConnectGood(c: Connection)
    requires ConnectionInv(c) && c.CanConnect()
    ensures OutGood(c.Connect(), c.out)
  {
    ConnectionRuns.ConnectKeeps(c);
    var g := c.Connect().out[0];
    assert 0 + g.LengthInSequenceSpace() <= c.Connect().sender.next;
    assert Carries(g, 0, c.cfg.isn, c.Outbound());
  }

  lemma RstIsGood(c: Connection, g: Segment)
    requires c.receiver.Valid() && c.receiver.gotSyn
    requires g == Segment(DEFAULT_HEADER.(rst := true, seqno := c.sender.NextSeqno(), ack := true,
                                          ackno := c.receiver.Ackno(), win := c.Advertised()), [])
    ensures Good(g, c.sender, c.receiver)
  {
    assert IsBare(g, c.sender.isn, c.sender.next);
  }

  lemma RstGood(c: Connection)
    requires c.receiver.Valid()
    ensures OutGood(c.SendRst(), c.out)
  {
    if c.receiver.gotSyn {
      RstIsGood(c, c.SendRst().out[|c.out|]);
    }
  }

  lemma UncleanGood(c: Connection, base: seq<Segment>)
    requires OutGood(c, base) && c.receiver.Valid()
    ensures OutGood(c.EndUncleanly(), base)
  {
    EndGood(c, c.EndUncleanly(), base);
  }

  lemma AfterTickGood(c: Connection, base: seq<Segment>)
    requires OutGood(c, base) && c.receiver.Valid() && (c.lingerBegin ==> Finished(c))
    ensures OutGood(c.AfterTick(), base)
  {
    var d := c.AfterTick();
    if (c.InboundDone() && c.OutboundDone()) || Finished(c) {
      assert c.sender.stream.EndInput() == c.sender.stream && c.receiver.reas.out.EndInput() == c.receiver.reas.out;
    }
    EndGood(c, d, base);
  }

  lemma TickGood(c: Connection, ms: nat)
    requires ConnectionInv(c) && c.CanTick()
    ensures OutGood(c.Tick(ms), c.out)
  {
    TickCases(c, ms);
    if c.active {
      TickedMid(c, ms);
      TickFrame(c.sender, ms);
      var t := Ticked(c, ms);
      RstGood(t);
      UncleanGood(t.SendRst(), c.out);
      if t.sender.timer.retx <= MAX_RETX_ATTEMPTS {
        FlushKeeps(t);
        FlushGood(t);
        AfterTickGood(t.SendAll(), c.out);
      }
    }
  }

  /** What is queued before an event and still is afterwards. */
  function Standing(c: Connection, e: Event): seq<Segment> {
    if e.Dequeue? then [] else c.out
  }

  /** Everything an event puts out is good: the right data, and an honest acknowledgment. */
  lemma EventGood(c: Connection, e: Event)
    requires ConnectionInv(c) && Enabled(c, e)
    ensures OutGood(Next(c, e), Standing(c, e))
  {
    match e
    case Arrive(seg) => ArriveGood(c, seg);
    case Write(data) => WriteGood(c, data);
    case EndInput => EndInputGood(c);
    case Connect => ConnectGood(c);
    case Tick(ms) => TickGood(c, ms);
    case Read(_) =>
    case Dequeue =>
  }
}
