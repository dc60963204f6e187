/** The TCP connection: one sender, one receiver, the closing flags and the outbound queue. */
module TcpConnections {
  import opened WrappingIntegers
  import opened ByteStreams
  import opened TcpSegments
  import opened Sending
  import opened Receiving
  import opened Connecting
  import opened ConnectionInvariants
  import opened TcpSenders
  import opened TcpReceivers
  import opened SenderInvariants
  import opened SenderSteps
  import ConnectionRuns

  /** Every assertion `send_all` makes while a segment is processed holds. */
  lemma ProcessFlushes(c: Connection, seg: Segment)
    requires ConnectionInv(c) && c.active && c.CanProcess(seg) && !c.BeforeSyn(seg)
    ensures c.Taken(seg).Answer(seg).CanSendAll()
  {
    TakenFrame(c, seg);
    AnswerMid(c.Taken(seg), seg);
    FlushKeeps(c.Taken(seg).Answer(seg));
  }

  lemma ReceiveApart(c: Connection, seg: Segment)
    requires c.receiver.Valid() && c.receiver.Handles(seg)
    ensures c.(sinceLast := 0).Receive(seg) == c.Receive(seg).(sinceLast := 0)
  {
  }

  lemma KeepAliveApart(c: Connection, seg: Segment)
    ensures c.(sinceLast := 0).AnswerKeepAlive(seg) == c.AnswerKeepAlive(seg).(sinceLast := 0)
  {
    var z := c.(sinceLast := 0);
    assert z.sender == c.sender && z.receiver == c.receiver;
    if c.receiver.IsKeepAlive(seg) {
      assert z.AnswerKeepAlive(seg) == z.(sender := c.sender.SendEmptySegment());
    } else {
      assert z.AnswerKeepAlive(seg) == z;
    }
  }

  lemma TakeAckApart(c: Connection, seg: Segment)
    ensures c.(sinceLast := 0).TakeAck(seg) == c.TakeAck(seg).(sinceLast := 0)
  {
  }

  lemma TakenApart(c: Connection, seg: Segment)
    requires c.receiver.Valid() && c.receiver.Handles(seg)
    ensures c.(sinceLast := 0).Taken(seg) == c.Taken(seg).(sinceLast := 0)
  {
    ReceiveApart(c, seg);
    KeepAliveApart(c.Receive(seg), seg);
    TakeAckApart(c.Receive(seg).AnswerKeepAlive(seg), seg);
  }

  lemma AnswerApart(c: Connection, seg: Segment)
    requires c.sender.CanFill()
    ensures c.(sinceLast := 0).Answer(seg) == c.Answer(seg).(sinceLast := 0)
  {
  }

  lemma SendAllApart(d: Connection)
    requires d.receiver.Valid()
    ensures d.(sinceLast := 0).SendAll() == d.SendAll().(sinceLast := 0)
  {
    SendAllFlushes(d);
    SendAllFlushes(d.(sinceLast := 0));
    StampSame(d, d.(sinceLast := 0), d.sender.out);
  }

  lemma EndApart(d: Connection)
    ensures d.(sinceLast := 0).TryToEndCleanly() == d.TryToEndCleanly().(sinceLast := 0)
  {
  }

  /** What `send_all` asserts of a segment holds, and still holds of the rest. */
  lemma SendOneKeeps(c: Connection)
    requires c.CanSendAll() && c.sender.out != []
    ensures c.sentSyn || c.sender.out[0].header.syn
    ensures c.sender.out[0].header.fin ==> c.Outbound().Eof()
    ensures c.SendOne().CanSendAll() && c.SendAll() == c.SendOne().SendAll()
  {
    var d := c.SendOne();
    assert c.sender.out[0] in c.sender.out;
    assert d.sender.out == c.sender.out[1..] && d.sentSyn && d.Outbound() == c.Outbound() && d.receiver == c.receiver;
    forall g | g in d.sender.out ensures g in c.sender.out {}
  }

  /** Nothing in the processing of a segment looks at the clock. */
  lemma ClockApart(c: Connection, seg: Segment)
    requires c.CanProcess(seg)
    ensures var z := c.(sinceLast := 0);
            && z.CanProcess(seg) && z.Process(seg) == c.Process(seg).(sinceLast := 0)
            && z.Taken(seg).Answer(seg) == c.Taken(seg).Answer(seg).(sinceLast := 0)
  {
    TakenApart(c, seg);
    AnswerApart(c.Taken(seg), seg);
    var d := c.Taken(seg).Answer(seg);
    SendAllApart(d);
    EndApart(d.SendAll());
  }

  lemma GrowFlushes(c: Connection, b: Stream)
    requires ConnectionInv(c) && c.active
    requires Grows(c.Outbound(), b) && b.Valid() && b.read == c.Outbound().read && b.error == c.Outbound().error
    ensures var d := c.(sender := c.sender.(stream := b));
            d.sender.CanFill() && d.(sender := d.sender.FillWindow()).CanSendAll()
  {
    StreamGrows(c.sender, b);
    var d := c.(sender := c.sender.(stream := b));
    FillMid(d);
    FlushKeeps(d.(sender := d.sender.FillWindow()));
  }

  /** What a tick leaves in the queue can be sent, and the streams that were over still are. */
  lemma TickFlushes(c: Connection, ms: nat)
    requires ConnectionInv(c) && c.active && c.sender.CanTick()
    ensures var t := ConnectionRuns.Ticked(c, ms);
            t.sender.timer.retx <= MAX_RETX_ATTEMPTS ==>
              t.CanSendAll() && (t.SendAll().lingerBegin ==> Finished(t.SendAll()))
  {
    var t := ConnectionRuns.Ticked(c, ms);
    ConnectionRuns.TickedMid(c, ms);
    TickFrame(c.sender, ms);
    if t.sender.timer.retx <= MAX_RETX_ATTEMPTS {
      FlushKeeps(t);
    }
  }

  function WithWindow(seg: Segment, w: u16): Segment {
    seg.(header := seg.header.(win := w))
  }

  lemma ConnectIs(c: Connection)
    requires c.CanConnect()
    ensures c.Connect() == c.(sender := c.sender.Connect().(out := []), out := c.out + [WithWindow(c.sender.Syn(), c.Advertised())],
                              sentSyn := true)
  {
  }

  class TcpConnection {
    const cfg: Config
    const sender: TcpSender
    const receiver: TcpReceiver
    var segmentsOut: seq<Segment>
    var lingerAfterStreamsFinish: bool
    var lingerBegin: bool
    var timeSinceLastSegmentReceived: nat
    var active: bool
    var sentSyn: bool
    var sentFin: bool
    var finAcked: bool
    var absFinSeqno: nat

    ghost function Repr(): set<object> {
      {this} + sender.Repr() + receiver.Repr()
    }

    /** The two halves share nothing. */
    ghost predicate Valid()
      reads Repr()
    {
      && sender.Valid() && receiver.Valid()
      && sender.Repr() !! receiver.Repr()
      && this !in sender.Repr() && this !in receiver.Repr()
    }

    ghost function State(): Connection
      reads Repr()
      requires Valid()
    {
      Connection(cfg, sender.State(), receiver.State(), segmentsOut, lingerAfterStreamsFinish, lingerBegin,
                 timeSinceLastSegmentReceived, active, sentSyn, sentFin, finAcked, absFinSeqno)
    }

    twostate lemma SenderSame()
      requires old(Valid()) && unchanged(sender.Repr())
      ensures sender.Valid() && sender.State() == old(sender.State())
    {
    }

    twostate lemma ReceiverSame()
      requires old(Valid()) && unchanged(receiver.Repr())
      ensures receiver.Valid() && receiver.State() == old(receiver.State())
    {
    }

    /** A connection with its two halves. */
    static method Make(cfg: Config) returns (c: TcpConnection)
      requires cfg.Valid()
      ensures c.Valid() && fresh(c.Repr())
      ensures c.State() == InitialConnection(cfg) && ConnectionInv(c.State())
    {
      ConnectionRuns.InitialConnectionInv(cfg);
      c := Assemble(cfg);
    }

    static method Assemble(cfg: Config) returns (c: TcpConnection)
      requires cfg.Valid()
      ensures c.Valid() && fresh(c.Repr()) && c.State() == InitialConnection(cfg)
    {
      var snd, rcv := NewHalves(cfg);
      c := new TcpConnection(cfg, snd, rcv);
    }

    static method NewHalves(cfg: Config) returns (snd: TcpSender, rcv: TcpReceiver)
      requires cfg.Valid()
      ensures snd.Valid() && fresh(snd.Repr()) && snd.State() == InitialSender(cfg.sendCapacity, cfg.rtTimeout, cfg.isn)
      ensures rcv.Valid() && fresh(rcv.Repr()) && rcv.State() == InitialReceiver(cfg.recvCapacity)
      ensures snd.Repr() !! rcv.Repr()
    {
      snd := new TcpSender(cfg.sendCapacity, cfg.rtTimeout, cfg.isn);
      rcv := ReceiverBeside(snd, cfg.recvCapacity);
    }

    static method ReceiverBeside(snd: TcpSender, capacity: nat) returns (rcv: TcpReceiver)
      requires 0 < capacity
      ensures rcv.Valid() && fresh(rcv.Repr()) && rcv.State() == InitialReceiver(capacity)
      ensures snd.Repr() !! rcv.Repr()
    {
      rcv := new TcpReceiver(capacity);
    }

    constructor (cfg: Config, snd: TcpSender, rcv: TcpReceiver)
      requires snd.Valid() && rcv.Valid() && snd.Repr() !! rcv.Repr()
      ensures Valid() && sender == snd && receiver == rcv && fresh(this)
      ensures State() == InitialConnection(cfg).(sender := old(snd.State()), receiver := old(rcv.State()))
    {
      this.cfg, sender, receiver := cfg, snd, rcv;
      segmentsOut, lingerAfterStreamsFinish, lingerBegin := [], true, false;
      timeSinceLastSegmentReceived, active := 0, true;
      sentSyn, sentFin, finAcked, absFinSeqno := false, false, false, 0;
    }

    // ---- sending ----

    function AdvertisedWindow(): (w: u16)
      reads Repr()
      requires Valid()
      ensures w == State().Advertised()
    {
      if receiver.WindowSize() > 0xffff then 0xffff else receiver.WindowSize()
    }

    /** One round of `send_all`: the front of the sender's queue gets the receiver's fields and goes out. */
    method SendFront()
      requires Valid() && sender.segmentsOut != [] && (sentSyn || sender.segmentsOut[0].header.syn)
      requires sender.segmentsOut[0].header.fin ==> sender.stream.eof
      modifies this, sender`segmentsOut
      ensures Valid() && sentSyn
      ensures State() == old(State()).SendOne()
    {
      var seg, stamped := PopStamped();
      Record(seg, stamped);
    }

    /** Takes the front of the sender's queue and fills in the receiver's fields. */
    method PopStamped() returns (seg: Segment, stamped: Segment)
      requires Valid() && sender.segmentsOut != []
      modifies sender`segmentsOut
      ensures Valid()
      ensures seg == old(State()).sender.out[0] && stamped == old(State()).Stamp(seg)
      ensures State() == old(State()).(sender := old(State()).sender.(out := old(State()).sender.out[1..]))
    {
      stamped := Stamped(sender.segmentsOut[0]);
      seg := sender.PopSegment();
      ReceiverSame();
    }

    /** Queues the segment and records its SYN and FIN. */
    method Record(seg: Segment, stamped: Segment)
      requires Valid() && (sentSyn || seg.header.syn) && (seg.header.fin ==> sender.stream.eof)
      modifies this
      ensures Valid()
      ensures State() == old(State()).(out := old(segmentsOut) + [stamped], sentSyn := true,
                                       sentFin := old(sentFin) || seg.header.fin,
                                       finSeqno := if seg.header.fin then 1 + old(State()).Outbound().read else old(absFinSeqno))
    {
      if seg.header.fin {
        assert sender.stream.eof && sender.stream.bytesRead == sender.stream.bytesWritten;
        sentFin, absFinSeqno := true, 1 + sender.stream.bytesRead;
      }
      sentSyn, segmentsOut := true, segmentsOut + [stamped];
      SenderSame();
      ReceiverSame();
    }

    method Stamped(seg: Segment) returns (stamped: Segment)
      requires Valid()
      ensures stamped == State().Stamp(seg)
    {
      var header := seg.header;
      if receiver.receivedSyn {
        header := header.(ack := true, ackno := Wrap(receiver.AbsAckno(), receiver.isn));
      }
      header := header.(win := AdvertisedWindow());
      stamped := seg.(header := header);
    }

    method SendAll()
      requires Valid() && State().CanSendAll()
      modifies this, sender`segmentsOut
      ensures Valid()
      ensures State() == old(State()).SendAll()
    {
      ghost var target := State().SendAll();
      while sender.segmentsOut != []
        invariant Valid() && State().CanSendAll()
        invariant State().SendAll() == target
        decreases |sender.segmentsOut|
      {
        SendOneKeeps(State());
        SendFront();
      }
    }

    method SendRst()
      requires Valid()
      modifies this`segmentsOut
      ensures Valid()
      ensures State() == old(State()).SendRst()
    {
      if !receiver.receivedSyn {
        return;
      }
      var header := DEFAULT_HEADER.(rst := true, seqno := Wrap(sender.nextSeqno, sender.isn), ack := true,
                                    ackno := Wrap(receiver.AbsAckno(), receiver.isn), win := AdvertisedWindow());
      segmentsOut := segmentsOut + [Segment(header, [])];
    }

    // ---- closing ----

    method EndCleanly()
      requires Valid() && State().Inbound().ended && State().Outbound().ended
      modifies this, sender.stream.Repr(), receiver.reassembler.output.Repr()
      ensures Valid()
      ensures State() == old(State()).EndCleanly()
    {
      if !lingerAfterStreamsFinish {
        EndStreams();
        Deactivate(lingerBegin);
      } else {
        BeginLinger();
      }
    }

    method EndStreams()
      requires Valid() && State().Inbound().ended && State().Outbound().ended
      modifies sender.stream.Repr(), receiver.reassembler.output.Repr()
      ensures Valid()
      ensures State() == old(State())
    {
      assert State().Outbound().EndInput() == State().Outbound();
      sender.EndStream();
      ReceiverSame();
      receiver.EndStream();
      assert sender.Valid() && sender.State() == old(sender.State());
    }

    method BeginLinger()
      requires Valid()
      modifies this`lingerBegin
      ensures Valid()
      ensures State() == old(State()).(lingerBegin := true)
    {
      lingerBegin := true;
      SenderSame();
      ReceiverSame();
    }

    method Deactivate(lingered: bool)
      requires Valid()
      modifies this`lingerBegin, this`lingerAfterStreamsFinish, this`active
      ensures Valid()
      ensures State() == old(State()).(lingerBegin := lingered, linger := false, active := false)
    {
      lingerBegin, lingerAfterStreamsFinish, active := lingered, false, false;
      SenderSame();
      ReceiverSame();
    }

    method EndUncleanly()
      requires Valid()
      modifies Repr()
      ensures Valid()
      ensures State() == old(State()).EndUncleanly()
    {
      FailStreams();
      Deactivate(false);
    }

    method FailStreams()
      requires Valid()
      modifies sender.stream.Repr(), receiver.reassembler.output.Repr()
      ensures Valid()
      ensures State() == old(State()).(sender := old(State()).EndUncleanly().sender, receiver := old(State()).EndUncleanly().receiver)
    {
      sender.FailStream();
      ReceiverSame();
      receiver.FailStream();
      assert sender.Valid() && sender.State() == old(State()).EndUncleanly().sender;
    }

    predicate InboundDone()
      reads Repr()
      requires Valid()
      ensures InboundDone() == State().InboundDone()
    {
      receiver.reassembler.output.eof && receiver.UnassembledBytes() == 0
    }

    predicate OutboundDone()
      reads Repr()
      requires Valid()
      ensures OutboundDone() == State().OutboundDone()
    {
      sender.stream.eof && sentFin && sender.bytesInFlight == 0
    }

    method TryToEndCleanly()
      requires Valid()
      modifies this, sender.stream.Repr(), receiver.reassembler.output.Repr()
      ensures Valid()
      ensures State() == old(State()).TryToEndCleanly()
    {
      if InboundDone() && OutboundDone() && finAcked {
        EndCleanly();
      }
    }

    // ---- a segment arrives ----

    /** Hands the segment to the receiver; if the peer finished first and is read out, no lingering. */
    method Receive(seg: Segment)
      requires Valid() && State().receiver.Handles(seg)
      modifies this, receiver.Repr()
      ensures Valid()
      ensures State() == old(State()).Receive(seg)
    {
      GiveToReceiver(seg);
      CheckNotNeedToLinger();
    }

    method GiveToReceiver(seg: Segment)
      requires Valid() && State().receiver.Handles(seg)
      modifies receiver.Repr()
      ensures Valid()
      ensures State() == old(State()).(receiver := old(State()).receiver.SegmentReceived(seg))
    {
      receiver.SegmentReceived(seg);
      SenderSame();
    }

    method CheckNotNeedToLinger()
      requires Valid()
      modifies this`lingerAfterStreamsFinish
      ensures Valid()
      ensures State() == old(State()).CheckNotNeedToLinger()
    {
      if receiver.reassembler.output.eof && !sender.stream.eof {
        lingerAfterStreamsFinish := false;
        SenderSame();
        ReceiverSame();
      }
    }

    method AnswerKeepAlive(seg: Segment)
      requires Valid()
      modifies sender
      ensures Valid()
      ensures State() == old(State()).AnswerKeepAlive(seg)
    {
      if seg.LengthInSequenceSpace() == 0 && receiver.receivedSyn
         && seg.header.seqno == (Wrap(receiver.AbsAckno(), receiver.isn) - 1) % TWO32 {
        SendEmptySegment();
      }
    }

    method TakeAck(seg: Segment)
      requires Valid()
      modifies this, sender
      ensures Valid()
      ensures State() == old(State()).TakeAck(seg)
    {
      if seg.header.ack {
        var abs := GiveAck(seg.header.ackno, seg.header.win);
        if sentFin && abs == absFinSeqno + 1 {
          NoteFinAcked();
        }
      }
    }

    /** Hands the acknowledgment to the sender, then decodes it once more. */
    method GiveAck(ackno: u32, win: u16) returns (abs: u64)
      requires Valid()
      modifies sender
      ensures Valid() && abs == State().sender.AbsSeqno(ackno)
      ensures State() == old(State()).(sender := old(State()).sender.AckReceived(ackno, win))
    {
      sender.AckReceived(ackno, win);
      abs := Unwrap(ackno, sender.isn, sender.checkpoint);
      ReceiverSame();
    }

    method NoteFinAcked()
      requires Valid()
      modifies this`finAcked
      ensures Valid()
      ensures State() == old(State()).(finAcked := true)
    {
      finAcked := true;
      SenderSame();
      ReceiverSame();
    }

    method Answer(seg: Segment)
      requires Valid() && State().sender.CanFill()
      modifies sender.Repr()
      ensures Valid()
      ensures State() == old(State()).Answer(seg)
    {
      FillWindow();
      if sender.segmentsOut == [] && seg.LengthInSequenceSpace() != 0 {
        SendEmptySegment();
      }
    }

    method FillWindow()
      requires Valid() && State().sender.CanFill()
      modifies sender.Repr()
      ensures Valid()
      ensures State() == old(State()).(sender := old(State()).sender.FillWindow())
    {
      sender.FillWindow();
      ReceiverSame();
    }

    method SendEmptySegment()
      requires Valid()
      modifies sender
      ensures Valid()
      ensures State() == old(State()).(sender := old(State()).sender.SendEmptySegment())
    {
      sender.SendEmptySegment();
      ReceiverSame();
    }

    method SegmentTaken(seg: Segment)
      requires Valid() && State().receiver.Handles(seg)
      modifies this, receiver.Repr(), sender
      ensures Valid()
      ensures State() == old(State()).Taken(seg)
    {
      Receive(seg);
      AnswerKeepAlive(seg);
      TakeAck(seg);
    }

    /** The rest of a call: send what is queued, and end if everything is over. */
    method Finish()
      requires Valid() && State().CanSendAll()
      modifies this, sender`segmentsOut, sender.stream.Repr(), receiver.reassembler.output.Repr()
      ensures Valid()
      ensures State() == old(State()).SendAll().TryToEndCleanly()
    {
      SendAll();
      TryToEndCleanly();
    }

    method Process(seg: Segment)
      requires Valid() && State().CanProcess(seg) && State().Taken(seg).Answer(seg).CanSendAll()
      modifies Repr()
      ensures Valid()
      ensures State() == old(State()).Process(seg)
    {
      SegmentTaken(seg);
      Answer(seg);
      Finish();
    }

    method ResetClock()
      requires Valid()
      modifies this`timeSinceLastSegmentReceived
      ensures Valid()
      ensures State() == old(State()).(sinceLast := 0)
    {
      timeSinceLastSegmentReceived := 0;
      SenderSame();
      ReceiverSame();
    }

    /** Before the peer's SYN only a reset that acknowledges exactly our SYN counts. */
    method TakeBeforeSyn(seg: Segment)
      requires Valid() && State().BeforeSyn(seg)
      modifies Repr()
      ensures Valid()
      ensures State() == if old(State()).ResetBeforeSyn(seg) then old(State()).EndUncleanly() else old(State())
    {
      if sentSyn && seg.header.rst
         && Unwrap(seg.header.ackno, sender.isn, sender.checkpoint) == Unwrap(cfg.isn, sender.isn, sender.checkpoint) + 1 {
        EndUncleanly();
      }
    }

    method SegmentReceived(seg: Segment)
      requires Valid() && ConnectionInv(State()) && State().Handles(seg)
      modifies Repr()
      ensures Valid()
      ensures State() == old(State()).SegmentReceived(seg) && ConnectionInv(State())
    {
      ghost var c := State();
      SegmentKeeps(c, seg);
      if !active {
        return;
      }
      if !receiver.receivedSyn && !seg.header.syn {
        TakeBeforeSyn(seg);
        return;
      }
      TakeSegment(seg);
    }

    method TakeSegment(seg: Segment)
      requires Valid() && ConnectionInv(State()) && active && !State().BeforeSyn(seg) && State().Handles(seg)
      modifies Repr()
      ensures Valid()
      ensures State() == if seg.header.rst then old(State()).EndUncleanly().(sinceLast := 0)
                         else old(State()).Process(seg).(sinceLast := 0)
    {
      ghost var c := State();
      ResetClock();
      if seg.header.rst {
        EndUncleanly();
        return;
      }
      ProcessFlushes(c, seg);
      ClockApart(c, seg);
      Process(seg);
    }

    // ---- the application and the clock ----

    method Write(data: seq<byte>) returns (len: nat)
      requires Valid() && ConnectionInv(State()) && active && !State().Outbound().ended
      modifies Repr()
      ensures Valid()
      ensures old(State()).sender.CanFill() && State() == old(State()).Write(data) && ConnectionInv(State())
      ensures len == |State().Outbound().written| - |old(State()).Outbound().written|
    {
      ghost var c := State();
      ConnectionRuns.WriteKeeps(c, data);
      GrowFlushes(c, c.Outbound().Write(data));
      len := WriteStream(data);
      FillWindow();
      FillStream(c.sender.(stream := c.Outbound().Write(data)));
      ConnectionRuns.FlushWritten(c.(sender := c.sender.(stream := c.Outbound().Write(data)).FillWindow()));
      Finish();
    }

    method WriteStream(data: seq<byte>) returns (len: nat)
      requires Valid() && !State().Outbound().ended
      modifies sender.stream.Repr()
      ensures Valid()
      ensures State() == old(State()).(sender := old(State()).sender.(stream := old(State()).Outbound().Write(data)))
      ensures len == |State().Outbound().written| - |old(State()).Outbound().written|
    {
      len := sender.stream.Write(data);
      ReceiverSame();
    }

    method EndInputStream()
      requires Valid() && ConnectionInv(State()) && active
      modifies Repr()
      ensures Valid()
      ensures old(State()).sender.CanFill() && State() == old(State()).EndInputStream() && ConnectionInv(State())
    {
      ghost var c := State();
      ConnectionRuns.EndInputKeeps(c);
      GrowFlushes(c, c.Outbound().EndInput());
      EndStream();
      FillWindow();
      Finish();
    }

    method EndStream()
      requires Valid()
      modifies sender.stream.Repr()
      ensures Valid()
      ensures State() == old(State()).(sender := old(State()).sender.(stream := old(State()).Outbound().EndInput()))
    {
      sender.EndStream();
      ReceiverSame();
    }

    method Connect()
      requires Valid() && ConnectionInv(State()) && State().CanConnect()
      modifies Repr()
      ensures Valid()
      ensures State() == old(State()).Connect() && ConnectionInv(State())
    {
      ConnectionRuns.ConnectKeeps(State());
      ConnectIs(State());
      var seg := TakeSyn();
      QueueSyn(seg);
    }

    /** Makes the sender send its SYN, and takes it out of the queue with the window filled in. */
    method TakeSyn() returns (seg: Segment)
      requires Valid() && State().CanConnect()
      modifies sender.Repr()
      ensures Valid()
      ensures State() == old(State()).(sender := old(State()).sender.Connect().(out := []))
      ensures seg == WithWindow(old(State()).sender.Syn(), old(State()).Advertised())
    {
      FillWindow();
      seg := PopSyn(State().sender.out[0]);
    }

    method PopSyn(ghost syn: Segment) returns (seg: Segment)
      requires Valid() && sender.segmentsOut == [syn]
      modifies sender`segmentsOut
      ensures Valid()
      ensures State() == old(State()).(sender := old(State()).sender.(out := []))
      ensures seg == WithWindow(syn, old(State()).Advertised())
    {
      var w := AdvertisedWindow();
      seg := sender.PopSegment();
      ReceiverSame();
      seg := WithWindow(seg, w);
    }

    method QueueSyn(seg: Segment)
      requires Valid()
      modifies this`segmentsOut, this`sentSyn
      ensures Valid()
      ensures State() == old(State()).(out := old(segmentsOut) + [seg], sentSyn := true)
    {
      segmentsOut, sentSyn := segmentsOut + [seg], true;
      SenderSame();
      ReceiverSame();
    }

    method Tick(ms: nat)
      requires Valid() && ConnectionInv(State())
      modifies Repr()
      ensures Valid()
      ensures old(State()).CanTick() && State() == old(State()).Tick(ms) && ConnectionInv(State())
    {
      ghost var c := State();
      ConnectionRuns.TickKeeps(c, ms);
      if !active {
        return;
      }
      TickFlushes(c, ms);
      PassTime(ms);
      if sender.consecutiveRx > MAX_RETX_ATTEMPTS {
        SendRst();
        EndUncleanly();
        return;
      }
      SendAll();
      AfterTick();
    }

    method PassTime(ms: nat)
      requires Valid() && State().sender.CanTick()
      modifies this`timeSinceLastSegmentReceived, sender
      ensures Valid()
      ensures State() == ConnectionRuns.Ticked(old(State()), ms)
    {
      AdvanceClock(ms);
      TickSender(ms);
    }

    method AdvanceClock(ms: nat)
      requires Valid()
      modifies this`timeSinceLastSegmentReceived
      ensures Valid()
      ensures State() == old(State()).(sinceLast := old(timeSinceLastSegmentReceived) + ms)
    {
      timeSinceLastSegmentReceived := timeSinceLastSegmentReceived + ms;
      SenderSame();
      ReceiverSame();
    }

    method TickSender(ms: nat)
      requires Valid() && State().sender.CanTick()
      modifies sender
      ensures Valid()
      ensures State() == old(State()).(sender := old(State()).sender.Tick(ms))
    {
      sender.Tick(ms);
      ReceiverSame();
    }

    method AfterTick()
      requires Valid() && (lingerBegin ==> Finished(State()))
      modifies this, sender.stream.Repr(), receiver.reassembler.output.Repr()
      ensures Valid()
      ensures State() == old(State()).AfterTick()
    {
      if lingerAfterStreamsFinish && lingerBegin {
        if timeSinceLastSegmentReceived >= 10 * cfg.rtTimeout {
          StopLingering();
          EndCleanly();
        }
      } else {
        TryToEndCleanly();
      }
    }

    method StopLingering()
      requires Valid()
      modifies this`lingerAfterStreamsFinish
      ensures Valid()
      ensures State() == old(State()).(linger := false)
    {
      lingerAfterStreamsFinish := false;
      SenderSame();
      ReceiverSame();
    }
  }
}
