/** Whole runs of one TCP connection against an arbitrary peer. */
module ConnectionRuns {
  import opened ByteStreams
  import opened TcpSegments
  import opened Sending
  import opened SenderInvariants
  import opened SenderSteps
  import opened Connecting
  import opened ConnectionInvariants

  /** Growing the outgoing stream, filling the window and finishing the call. */
  lemma GrowKeeps(c: Connection, b: Stream)
    requires ConnectionInv(c) && c.active
    requires Grows(c.Outbound(), b) && b.Valid() && b.read == c.Outbound().read && b.error == c.Outbound().error
    ensures var d := c.(sender := c.sender.(stream := b));
            d.sender.CanFill() && ConnectionInv(d.(sender := d.sender.FillWindow()).SendAll().TryToEndCleanly())
  {
    StreamGrows(c.sender, b);
    var d := c.(sender := c.sender.(stream := b));
    FillMid(d);
    FillStream(d.sender);
    FinishKeeps(d.(sender := d.sender.FillWindow()));
  }

  lemma WriteKeeps(c: Connection, data: seq<byte>)
    requires ConnectionInv(c) && c.active && !c.Outbound().ended
    ensures c.sender.CanFill() && ConnectionInv(c.Write(data))
  {
    GrowKeeps(c, c.Outbound().Write(data));
  }

  lemma EndInputKeeps(c: Connection)
    requires ConnectionInv(c) && c.active
    ensures c.sender.CanFill() && ConnectionInv(c.EndInputStream())
  {
    GrowKeeps(c, c.Outbound().EndInput());
  }

  lemma ConnectKeeps(c: Connection)
    requires ConnectionInv(c) && c.CanConnect()
    ensures ConnectionInv(c.Connect()) && c.sender.FillWindow().out == [c.sender.Syn()]
  {
    SenderSteps.ConnectKeeps(c.sender);
    DrainKeeps(c.sender.Connect());
  }

  function Ticked(c: Connection, ms: nat): Connection
    requires c.sender.CanTick()
  {
    c.(sinceLast := c.sinceLast + ms, sender := c.sender.Tick(ms))
  }

  lemma TickedMid(c: Connection, ms: nat)
    requires ConnectionInv(c) && c.active && c.sender.CanTick()
    ensures var t := Ticked(c, ms);
            && SenderCore(t.sender) && SynBook(t) && FinBook(t) && Configured(t)
            && (t.sender.timer.retx <= MAX_RETX_ATTEMPTS ==> Mid(t))
  {
    SenderSteps.TickKeeps(c.sender, ms);
    TickFrame(c.sender, ms);
    var t := c.sender.Tick(ms);
    if t.timer.retx <= MAX_RETX_ATTEMPTS {
      QueueFlags(t);
      QueueTotal(t);
    }
  }

  /** Lingering ends after ten times the timeout without a segment. */
  lemma AfterTickKeeps(c: Connection)
    requires Configured(c) && SenderInv(c.sender) && c.sender.out == [] && SynBook(c) && FinBook(c)
    requires c.active && !Error(c) && (c.lingerBegin ==> Finished(c) && c.linger)
    ensures ConnectionInv(c.AfterTick())
  {
    if c.linger && c.lingerBegin {
      if c.sinceLast >= 10 * c.cfg.rtTimeout {
        assert c.sender.stream.EndInput() == c.sender.stream;
        assert c.receiver.reas.out.EndInput() == c.receiver.reas.out;
        assert c.AfterTick() == c.(linger := false, active := false);
      }
    } else {
      EndKeeps(c);
    }
  }

  lemma TickFlushKeeps(c: Connection)
    requires Mid(c) && c.active && !Error(c) && (c.lingerBegin ==> Finished(c) && c.linger)
    ensures ConnectionInv(c.SendAll().AfterTick())
  {
    FlushKeeps(c);
    AfterTickKeeps(c.SendAll());
  }

  lemma TickCases(c: Connection, ms: nat)
    requires c.CanTick()
    ensures c.Tick(ms) ==
            if !c.active then c
            else if Ticked(c, ms).sender.timer.retx > MAX_RETX_ATTEMPTS then Ticked(c, ms).SendRst().EndUncleanly()
            else Ticked(c, ms).SendAll().AfterTick()
  {
  }

  lemma TickedKeeps(c: Connection, ms: nat)
    requires ConnectionInv(c) && c.active && c.CanTick()
    ensures var t := Ticked(c, ms);
            ConnectionInv(if t.sender.timer.retx > MAX_RETX_ATTEMPTS then t.SendRst().EndUncleanly() else t.SendAll().AfterTick())
  {
    TickedMid(c, ms);
    TickFrame(c.sender, ms);
    var t := Ticked(c, ms);
    if t.sender.timer.retx > MAX_RETX_ATTEMPTS {
      UncleanKeeps(t.SendRst());
    } else {
      TickFlushKeeps(t);
    }
  }

  /** The clock keeps the invariant; the ninth retransmission in a row resets the connection. */
  lemma TickKeeps(c: Connection, ms: nat)
    requires ConnectionInv(c)
    ensures c.CanTick() && ConnectionInv(c.Tick(ms))
  {
    TickCases(c, ms);
    if c.active {
      TickedKeeps(c, ms);
    }
  }

  lemma ReadKeeps(c: Connection, len: nat)
    requires ConnectionInv(c) && len <= c.Inbound().Buffered()
    ensures ConnectionInv(c.ReadInbound(len))
  {
    var d := c.ReadInbound(len);
    assert d.receiver.Valid() && d.sender == c.sender;
    assert c.Inbound().Eof() ==> d.Inbound().Eof();
    assert Configured(d) && SynBook(d) && FinBook(d) && CloseBook(d);
  }

  // ---- runs ----

  datatype Event =
    | Arrive(seg: Segment)
    | Write(data: seq<byte>)
    | EndInput
    | Connect
    | Tick(ms: nat)
    | Read(len: nat)
    | Dequeue

  /** The calls the source completes in a state without tripping an assertion. */
  ghost predicate Enabled(c: Connection, e: Event) {
    match e
    case Arrive(seg) => c.Handles(seg)
    case Write(_) => c.active && !c.Outbound().ended && c.sender.CanFill() && c.receiver.Valid()
    case EndInput => c.active && c.sender.CanFill() && c.receiver.Valid()
    case Connect => c.CanConnect()
    case Tick(_) => c.CanTick()
    case Read(len) => c.receiver.Valid() && len <= c.Inbound().Buffered()
    case Dequeue => true
  }

  ghost function Next(c: Connection, e: Event): Connection
    requires Enabled(c, e)
  {
    match e
    case Arrive(seg) => c.SegmentReceived(seg)
    case Write(data) => c.Write(data)
    case EndInput => c.EndInputStream()
    case Connect => c.Connect()
    case Tick(ms) => c.Tick(ms)
    case Read(len) => c.ReadInbound(len)
    case Dequeue => c.Dequeue()
  }

  lemma NextKeeps(c: Connection, e: Event)
    requires ConnectionInv(c) && Enabled(c, e)
    ensures ConnectionInv(Next(c, e))
  {
    match e
    case Arrive(seg) => SegmentKeeps(c, seg);
    case Write(data) => WriteKeeps(c, data);
    case EndInput => EndInputKeeps(c);
    case Connect => ConnectKeeps(c);
    case Tick(ms) => TickKeeps(c, ms);
    case Read(len) => ReadKeeps(c, len);
    case Dequeue =>
  }

  /** Given the invariant, the only aborts left are misuse by the caller (writing to a closed stream, a
      second connect, reading too much) and segments that contradict the stream. */
  lemma AlwaysEnabled(c: Connection, data: seq<byte>, ms: nat, len: nat)
    requires ConnectionInv(c)
    ensures Enabled(c, Tick(ms))
    ensures c.active ==> Enabled(c, EndInput)
    ensures c.active && !c.Outbound().ended ==> Enabled(c, Write(data))
    ensures c.active && !c.sender.sentSyn && c.out == [] ==> Enabled(c, Connect)
    ensures len <= c.Inbound().Buffered() ==> Enabled(c, Read(len))
  {
    TickKeeps(c, ms);
  }

  lemma InitialConnectionInv(cfg: Config)
    requires cfg.Valid()
    ensures ConnectionInv(InitialConnection(cfg))
  {
    InitialInv(cfg.sendCapacity, cfg.rtTimeout, cfg.isn);
  }

  /** `d` is reached from `c` by the events, on none of which the source aborts. */
  ghost predicate Reaches(c: Connection, events: seq<Event>, d: Connection)
    decreases |events|
  {
    if events == [] then c == d
    else Enabled(c, events[0]) && Reaches(Next(c, events[0]), events[1..], d)
  }

  lemma {:induction false} ReachesInv(c: Connection, events: seq<Event>, d: Connection)
    requires ConnectionInv(c) && Reaches(c, events, d)
    ensures ConnectionInv(d)
    decreases |events|
  {
    if events != [] {
      NextKeeps(c, events[0]);
      ReachesInv(Next(c, events[0]), events[1..], d);
    }
  }

  /** Every state of every run keeps the connection invariant. */
  lemma RunInv(cfg: Config, events: seq<Event>, c: Connection)
    requires cfg.Valid() && Reaches(InitialConnection(cfg), events, c)
    ensures ConnectionInv(c)
  {
    InitialConnectionInv(cfg);
    ReachesInv(InitialConnection(cfg), events, c);
  }

  // ---- the sender only moves forward ----

  lemma EndSender(c: Connection)
    ensures c.TryToEndCleanly().sender == c.sender
  {
    if c.OutboundDone() { assert c.sender.stream.EndInput() == c.sender.stream; }
  }

  lemma FlushWritten(d: Connection)
    requires d.receiver.Valid()
    ensures d.SendAll().TryToEndCleanly().Outbound() == d.Outbound()
  {
    SendAllFlushes(d);
    EndSender(d.SendAll());
  }

  lemma FlushExtends(d: Connection)
    requires d.receiver.Valid()
    ensures Extends(d.sender, d.SendAll().TryToEndCleanly().sender)
  {
    SendAllFlushes(d);
    EndSender(d.SendAll());
  }

  lemma TakeAckExtends(c: Connection, seg: Segment)
    requires SenderInv(c.sender)
    ensures Extends(c.sender, c.TakeAck(seg).sender) && SenderInv(c.TakeAck(seg).sender)
  {
    if seg.header.ack { AckReceivedKeeps(c.sender, seg.header.ackno, seg.header.win); }
  }

  lemma KeepAliveSender(c: Connection, seg: Segment)
    ensures c.AnswerKeepAlive(seg).sender == c.sender || c.AnswerKeepAlive(seg).sender == c.sender.SendEmptySegment()
  {
  }

  lemma ExtendsRefl(s: Sender)
    ensures Extends(s, s)
  {
  }

  lemma KeepAliveExtends(c: Connection, seg: Segment)
    requires SenderInv(c.sender)
    ensures Extends(c.sender, c.AnswerKeepAlive(seg).sender) && SenderInv(c.AnswerKeepAlive(seg).sender)
  {
    KeepAliveSender(c, seg);
    SendEmptyKeeps(c.sender);
    ExtendsRefl(c.sender);
  }

  lemma KeepAliveFlags(c: Connection, seg: Segment)
    ensures c.AnswerKeepAlive(seg) == c.(sender := c.AnswerKeepAlive(seg).sender)
  {
  }

  lemma TakeAckFlags(c: Connection, seg: Segment)
    ensures c.TakeAck(seg) == c.(sender := c.TakeAck(seg).sender, finAcked := c.TakeAck(seg).finAcked)
  {
  }

  /** What taking a segment does to the receiver and the closing flags: lingering is given up exactly if the inbound
      stream is drained while the outbound one is not finished. */
  lemma TakenFlags(c: Connection, seg: Segment)
    requires c.receiver.Valid() && c.receiver.Handles(seg)
    ensures var t, r := c.Taken(seg), c.receiver.SegmentReceived(seg);
            && t.receiver == r && t.lingerBegin == c.lingerBegin && t.active == c.active
            && t.linger == (c.linger && !(r.reas.out.Eof() && !c.Outbound().Eof()))
  {
    var c1 := c.Receive(seg);
    KeepAliveFlags(c1, seg);
    TakeAckFlags(c1.AnswerKeepAlive(seg), seg);
  }

  lemma TakenExtends(c: Connection, seg: Segment)
    requires SenderInv(c.sender) && c.receiver.Valid() && c.receiver.Handles(seg)
    ensures Extends(c.sender, c.Taken(seg).sender) && SenderInv(c.Taken(seg).sender)
  {
    var c1 := c.Receive(seg);
    assert c1.sender == c.sender;
    KeepAliveExtends(c1, seg);
    var c2 := c1.AnswerKeepAlive(seg);
    TakeAckExtends(c2, seg);
    ExtendsTrans(c.sender, c2.sender, c2.TakeAck(seg).sender);
  }

  lemma AnswerExtends(c: Connection, seg: Segment)
    requires SenderInv(c.sender) && c.sender.CanFill()
    ensures Extends(c.sender, c.Answer(seg).sender) && c.Answer(seg).receiver == c.receiver
  {
    FillKeeps(c.sender);
  }

  lemma ProcessExtends(c: Connection, seg: Segment)
    requires SenderInv(c.sender) && c.CanProcess(seg)
    ensures Extends(c.sender, c.Process(seg).sender)
  {
    TakenExtends(c, seg);
    var t := c.Taken(seg);
    AnswerExtends(t, seg);
    FlushExtends(t.Answer(seg));
    ExtendsTrans(c.sender, t.sender, t.Answer(seg).sender);
    ExtendsTrans(c.sender, t.Answer(seg).sender, c.Process(seg).sender);
  }

  lemma GrowExtends(c: Connection, b: Stream)
    requires SenderInv(c.sender) && c.receiver.Valid() && c.sender.(stream := b).CanFill()
    requires Grows(c.Outbound(), b) && b.Valid() && b.read == c.Outbound().read
    ensures var d := c.(sender := c.sender.(stream := b).FillWindow());
            Extends(c.sender, d.SendAll().TryToEndCleanly().sender)
  {
    var s := c.sender.(stream := b);
    StreamGrows(c.sender, b);
    FillKeeps(s);
    var d := c.(sender := s.FillWindow());
    FlushExtends(d);
    ExtendsTrans(c.sender, s, d.sender);
    ExtendsTrans(c.sender, d.sender, d.SendAll().TryToEndCleanly().sender);
  }

  lemma AfterTickSender(c: Connection)
    requires c.lingerBegin ==> c.Outbound().Eof()
    ensures c.AfterTick().sender == c.sender
  {
    EndSender(c);
    if c.Outbound().Eof() { assert c.sender.stream.EndInput() == c.sender.stream; }
  }

  /** After a tick the sender is the ticked one, with an error mark or with its queue flushed. */
  lemma TickedSender(c: Connection, ms: nat)
    requires c.CanTick() && c.active && (c.lingerBegin ==> c.Outbound().Eof())
    ensures var t, d := c.sender.Tick(ms), c.Tick(ms).sender;
            d == t.(stream := t.stream.SetError()) || d == t.(out := [])
  {
    TickCases(c, ms);
    TickFrame(c.sender, ms);
    SendAllFlushes(Ticked(c, ms));
    AfterTickSender(Ticked(c, ms).SendAll());
  }

  lemma MarkedExtends(s: Sender, t: Sender, d: Sender)
    requires Extends(s, t) && (d == t.(stream := t.stream.SetError()) || d == t.(out := []))
    ensures Extends(s, d)
  {
  }

  lemma TickExtends(c: Connection, ms: nat)
    requires ConnectionInv(c) && c.CanTick()
    ensures Extends(c.sender, c.Tick(ms).sender)
  {
    if c.active {
      TickFrame(c.sender, ms);
      TickedSender(c, ms);
      MarkedExtends(c.sender, c.sender.Tick(ms), c.Tick(ms).sender);
    } else {
      ExtendsRefl(c.sender);
    }
  }

  lemma ArriveExtends(c: Connection, seg: Segment)
    requires (c.active ==> SenderInv(c.sender)) && c.Handles(seg)
    ensures Extends(c.sender, c.SegmentReceived(seg).sender)
  {
    var d := c.SegmentReceived(seg);
    if !c.active {
      assert d.sender == c.sender;
      ExtendsRefl(c.sender);
    } else if c.BeforeSyn(seg) || seg.header.rst {
      assert d.sender == c.sender || d.sender == c.sender.(stream := c.sender.stream.SetError());
      ExtendsRefl(c.sender);
      MarkedExtends(c.sender, c.sender, c.sender.(stream := c.sender.stream.SetError()));
    } else {
      assert d.sender == c.Process(seg).sender;
      ProcessExtends(c, seg);
    }
  }

  lemma WriteExtends(c: Connection, data: seq<byte>)
    requires SenderInv(c.sender) && c.receiver.Valid() && c.sender.CanFill() && !c.Outbound().ended
    ensures Extends(c.sender, c.Write(data).sender)
  {
    GrowExtends(c, c.Outbound().Write(data));
  }

  lemma EndInputExtends(c: Connection)
    requires SenderInv(c.sender) && c.receiver.Valid() && c.sender.CanFill()
    ensures Extends(c.sender, c.EndInputStream().sender)
  {
    GrowExtends(c, c.Outbound().EndInput());
  }

  lemma ConnectExtends(c: Connection)
    requires SenderInv(c.sender) && c.CanConnect()
    ensures Extends(c.sender, c.Connect().sender)
  {
    FillKeeps(c.sender);
    MarkedExtends(c.sender, c.sender.FillWindow(), c.Connect().sender);
  }

  lemma CallExtends(c: Connection, e: Event)
    requires SenderInv(c.sender) && Enabled(c, e) && (e.Write? || e.EndInput? || e.Connect?)
    ensures Extends(c.sender, Next(c, e).sender)
  {
    if e.Write? {
      WriteExtends(c, e.data);
    } else if e.EndInput? {
      EndInputExtends(c);
    } else {
      ConnectExtends(c);
    }
  }

  lemma QuietExtends(c: Connection, e: Event)
    requires Enabled(c, e) && (e.Read? || e.Dequeue?)
    ensures Extends(c.sender, Next(c, e).sender)
  {
    ExtendsRefl(c.sender);
  }

  lemma ArriveEventExtends(c: Connection, e: Event)
    requires (c.active ==> SenderInv(c.sender)) && Enabled(c, e) && e.Arrive?
    ensures Extends(c.sender, Next(c, e).sender)
  {
    ArriveExtends(c, e.seg);
  }

  lemma TickEventExtends(c: Connection, e: Event)
    requires ConnectionInv(c) && Enabled(c, e) && e.Tick?
    ensures Extends(c.sender, Next(c, e).sender)
  {
    TickExtends(c, e.ms);
  }

  /** Against any peer, every event only moves the sender forward. */
  lemma EventExtends(c: Connection, e: Event)
    requires ConnectionInv(c) && Enabled(c, e)
    ensures Extends(c.sender, Next(c, e).sender)
  {
    if e.Arrive? {
      ArriveEventExtends(c, e);
    } else if e.Tick? {
      TickEventExtends(c, e);
    } else if e.Read? || e.Dequeue? {
      QuietExtends(c, e);
    } else {
      CallExtends(c, e);
    }
  }
}
