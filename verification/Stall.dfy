/** A sender that has nothing outstanding and no window never speaks again by itself. */
module Stall {
  import opened WrappingIntegers
  import opened ByteStreams
  import opened TcpSegments
  import opened Sending
  import opened SenderInvariants
  import opened SenderSteps
  import opened Receiving
  import opened Connecting
  import opened ConnectionInvariants
  import opened ConnectionRuns
  import opened ReachedStates
  import Flow

  /** Everything sent is acknowledged, the FIN is still to come, and the window ends at or before the next number:
      the timer is off, and there is no room to send. */
  predicate Stuck(s: Sender) {
    s.sentSyn && !s.sentAll && s.outstanding == [] && s.Edge() <= s.next
  }

  predicate Stalled(c: Connection) {
    c.active && Stuck(c.sender)
  }

  // ---- what stalls a connection ----

  /** The window the sender takes from an acknowledgment: a closed one counts as one number, for the probe. */
  function Offer(win: u16): nat {
    if win == 0 then 1 else win
  }

  /** The window of an acknowledgment that takes effect stops a sender exactly if everything was acknowledged before
      and the acknowledgment is so old that its window has been used up. */
  lemma AckStopsExactly(s: Sender, ack: u64, win: u16)
    requires QueueInv(s) && ack <= s.next
    ensures var t := s.AckAbsolute(ack, win);
            t.outstanding == [] && t.Edge() <= t.next <==> s.checkpoint == s.next && ack + Offer(win) <= s.next
  {
    AckKeepsQueue(s, ack, win);
    AckFrame(s, ack, win);
  }

  lemma AckStuck(s: Sender, ackno: u32, win: u16)
    requires SenderInv(s)
    ensures var a := s.AbsSeqno(ackno);
            Stuck(s.AckReceived(ackno, win)) <==>
            if a <= s.next then s.sentSyn && !s.sentAll && s.checkpoint == s.next && a + Offer(win) <= s.next else Stuck(s)
  {
    var a := s.AbsSeqno(ackno);
    if a <= s.next {
      AckStopsExactly(s, a, win);
      AckFrame(s, a, win);
    }
  }

  /** Filling the window neither stops nor starts a sender in this state. */
  lemma FillStuck(s: Sender)
    requires SenderInv(s) && s.CanFill()
    ensures Stuck(s.FillWindow()) <==> Stuck(s)
  {
    FillKeeps(s);
  }

  lemma KeepAliveOut(c: Connection, seg: Segment)
    requires SenderInv(c.sender)
    ensures var k := c.AnswerKeepAlive(seg).sender; SenderInv(k) && k == c.sender.(out := k.out)
  {
    KeepAliveExtends(c, seg);
    KeepAliveSender(c, seg);
  }

  /** The acknowledgment in `seg` finds everything acknowledged and its own window used up. */
  predicate Stops(s: Sender, seg: Segment) {
    s.sentSyn && !s.sentAll && s.checkpoint == s.next && s.AbsSeqno(seg.header.ackno) + Offer(seg.header.win) <= s.next
  }

  /** An acknowledgment that takes effect. */
  predicate Acknowledges(s: Sender, seg: Segment) {
    seg.header.ack && s.AbsSeqno(seg.header.ackno) <= s.next
  }

  lemma TakeAckStuck(c: Connection, seg: Segment)
    requires SenderInv(c.sender)
    ensures Stuck(c.TakeAck(seg).sender) <==> if Acknowledges(c.sender, seg) then Stops(c.sender, seg) else Stuck(c.sender)
  {
    AckStuck(c.sender, seg.header.ackno, seg.header.win);
  }

  lemma TakenStuck(c: Connection, seg: Segment)
    requires SenderInv(c.sender) && c.receiver.Valid() && c.receiver.Handles(seg)
    ensures Stuck(c.Taken(seg).sender) <==> if Acknowledges(c.sender, seg) then Stops(c.sender, seg) else Stuck(c.sender)
  {
    KeepAliveOut(c.Receive(seg), seg);
    TakeAckStuck(c.Receive(seg).AnswerKeepAlive(seg), seg);
  }

  /** The last part of every call: what is queued goes out, and the connection may end. */
  lemma FlushStalled(d: Connection)
    requires Mid(d) && d.active
    ensures Stalled(d.SendAll().TryToEndCleanly()) <==> Stuck(d.sender)
  {
    FlushKeeps(d);
    EndSender(d.SendAll());
  }

  lemma AnswerStuck(t: Connection, seg: Segment)
    requires SenderInv(t.sender) && t.sender.CanFill()
    ensures Stuck(t.Answer(seg).sender) <==> Stuck(t.sender)
  {
    FillStuck(t.sender);
  }

  lemma ProcessStalls(c: Connection, seg: Segment)
    requires ConnectionInv(c) && c.active && c.CanProcess(seg) && !c.BeforeSyn(seg) && !seg.header.rst
    ensures Stalled(c.Process(seg)) <==>
            if Acknowledges(c.sender, seg) then Stops(c.sender, seg) else Stalled(c)
  {
    TakenStuck(c, seg);
    TakenFrame(c, seg);
    var t := c.Taken(seg);
    AnswerMid(t, seg);
    AnswerStuck(t, seg);
    FlushStalled(t.Answer(seg));
  }

  lemma GrowStalls(c: Connection, b: Stream)
    requires ConnectionInv(c) && c.active
    requires Grows(c.Outbound(), b) && b.Valid() && b.read == c.Outbound().read && b.error == c.Outbound().error
    ensures var s := c.sender.(stream := b);
            s.CanFill() && (Stalled(c.(sender := s.FillWindow()).SendAll().TryToEndCleanly()) <==> Stalled(c))
  {
    StreamGrows(c.sender, b);
    var d := c.(sender := c.sender.(stream := b));
    FillMid(d);
    FillStuck(d.sender);
    FlushStalled(d.(sender := d.sender.FillWindow()));
  }

  lemma ConnectStalls(c: Connection)
    requires ConnectionInv(c) && c.CanConnect()
    ensures !Stalled(c) && !Stalled(c.Connect())
  {
    FillStuck(c.sender);
  }

  lemma TickStalls(c: Connection, ms: nat)
    requires ConnectionInv(c) && c.active && c.CanTick()
    ensures Stalled(c.Tick(ms)) <==> Stalled(c)
  {
    TickCases(c, ms);
    TickedSender(c, ms);
    TickFrame(c.sender, ms);
    if Stalled(c) { SendAllFlushes(Ticked(c, ms)); }
  }

  /** A reset that takes effect. */
  predicate Resets(c: Connection, seg: Segment) {
    c.active && if c.BeforeSyn(seg) then c.ResetBeforeSyn(seg) else seg.header.rst
  }

  /** What stalls a connection, and what frees it: an acknowledgment that takes effect does the one or the other, by its
      window; a reset ends it; and nothing else has any influence. */
  lemma EventStallsExactly(c: Connection, e: Event)
    requires ConnectionInv(c) && Enabled(c, e)
    ensures Stalled(Next(c, e)) <==>
            if e.Arrive? && Resets(c, e.seg) then false
            else if e.Arrive? && c.active && !c.BeforeSyn(e.seg) && Acknowledges(c.sender, e.seg) then Stops(c.sender, e.seg)
            else Stalled(c)
  {
    match e
    case Arrive(seg) => if c.active && !c.BeforeSyn(seg) && !seg.header.rst { ProcessStalls(c, seg); }
    case Write(data) => GrowStalls(c, c.Outbound().Write(data));
    case EndInput => GrowStalls(c, c.Outbound().EndInput());
    case Connect => ConnectStalls(c);
    case Tick(ms) => if c.active { TickStalls(c, ms); }
    case _ =>
  }

  // ---- a stalled connection by itself ----

  /** Without an arrival a stalled connection stays stalled and queues nothing, whatever its application writes and however
      much time passes. */
  lemma StalledStep(c: Connection, e: Event)
    requires ConnectionInv(c) && Stalled(c) && Enabled(c, e) && !e.Arrive?
    ensures ConnectionInv(Next(c, e)) && Stalled(Next(c, e)) && Next(c, e).sender.sent == c.sender.sent
    ensures Next(c, e).out == (if e.Dequeue? then [] else c.out)
  {
    NextKeeps(c, e);
    EventStallsExactly(c, e);
    if e.Tick? {
      TickCases(c, e.ms);
      SendAllFlushes(Ticked(c, e.ms));
      assert c.out + [] == c.out;
    }
  }

  predicate NoArrivals(events: seq<Event>) {
    forall k :: 0 <= k < |events| ==> !events[k].Arrive?
  }

  /** Nothing is ever sent again unless a segment arrives. */
  lemma {:induction false} StalledForever(c: Connection, events: seq<Event>, d: Connection)
    requires ConnectionInv(c) && Stalled(c) && Reaches(c, events, d) && NoArrivals(events)
    ensures Stalled(d) && d.sender.sent == c.sender.sent && (d.out == c.out || d.out == [])
    decreases |events|
  {
    if events != [] {
      StalledStep(c, events[0]);
      StalledForever(Next(c, events[0]), events[1..], d);
    }
  }

  // ---- a run that stalls ----

  /** A segment that only acknowledges, up to number `n`. */
  function Ack(cfg: Config, n: nat, win: u16): Segment {
    Segment(DEFAULT_HEADER.(ack := true, seqno := 1, ackno := Wrap(n, cfg.isn), win := win), [])
  }

  /** One byte was sent after the handshake; nothing else waits to be sent. */
  ghost predicate OneByteOut(c: Connection, cfg: Config) {
    && ConnectionInv(c) && c.active && c.cfg == cfg && c.receiver.gotSyn && c.receiver.isn == 0 && c.receiver.checkpoint <= 1
    && c.sender.stream == Stream(cfg.sendCapacity, [1], 1, false, false)
    && c.sender.next == 2 && c.sender.sentSyn && !c.sender.sentAll
  }

  lemma AckHandled(r: Receiver, g: Segment)
    requires r.Valid() && r.gotSyn && r.isn == 0 && r.checkpoint <= 1
    requires g.header.seqno == 1 && g.LengthInSequenceSpace() == 0
    ensures r.Handles(g) && r.SegmentReceived(g) == r.(checkpoint := 1)
  {
    assert Wrap(1, 0) == 1;
    UnwrapWrap(1, 0, r.checkpoint);
    Flow.TakeNothing(r.Noted(g), g, r.IndexOf(g));
  }

  lemma FillNothing(s: Sender)
    requires s.CanFill() && s.sentSyn && s.stream.Buffered() == 0 && !s.stream.ended
    ensures s.FillWindow() == s
  {
  }

  lemma AckSender(c: Connection, cfg: Config, n: nat, win: u16)
    requires OneByteOut(c, cfg) && n <= 2
    ensures var g := Ack(cfg, n, win);
            && c.receiver.Handles(g) && c.sender.AbsSeqno(g.header.ackno) == n
            && var t := c.Taken(g).sender;
               && t.CanFill() && t.FillWindow() == t && t.stream == c.sender.stream && t.next == 2 && t.sentSyn && !t.sentAll
               && t.checkpoint == if n > c.sender.checkpoint then n else c.sender.checkpoint
  {
    var g := Ack(cfg, n, win);
    UnwrapWrap(n, cfg.isn, c.sender.checkpoint);
    AckHandled(c.receiver, g);
    KeepAliveOut(c.Receive(g), g);
    var k := c.Receive(g).AnswerKeepAlive(g).sender;
    AckFrame(k, n, win);
    FillNothing(c.Taken(g).sender);
  }

  lemma AckTaken(c: Connection, cfg: Config, n: nat, win: u16)
    requires OneByteOut(c, cfg) && n <= 2
    ensures c.Handles(Ack(cfg, n, win)) && OneByteOut(c.SegmentReceived(Ack(cfg, n, win)), cfg)
    ensures c.sender.AbsSeqno(Wrap(n, cfg.isn)) == n
    ensures c.SegmentReceived(Ack(cfg, n, win)).sender.checkpoint == if n > c.sender.checkpoint then n else c.sender.checkpoint
  {
    var g := Ack(cfg, n, win);
    AckSender(c, cfg, n, win);
    AckHandled(c.receiver, g);
    SegmentKeeps(c, g);
    SendAllFlushes(c.Taken(g).Answer(g));
  }

  lemma ByteOut(cfg: Config) returns (events: seq<Event>, c: Connection)
    requires cfg.Valid()
    ensures Reaches(InitialConnection(cfg), events, c) && OneByteOut(c, cfg) && c.sender.checkpoint == 1
  {
    var before, b := Opened(cfg);
    WriteOne(b, cfg);
    ReachesThen(InitialConnection(cfg), before, b, Event.Write([1]));
    events, c := before + [Event.Write([1])], Next(b, Event.Write([1]));
  }

  lemma ByteAcked(cfg: Config) returns (events: seq<Event>, c: Connection)
    requires cfg.Valid()
    ensures Reaches(InitialConnection(cfg), events, c) && OneByteOut(c, cfg) && c.sender.checkpoint == 2
  {
    var before, b := ByteOut(cfg);
    AckTaken(b, cfg, 2, 0);
    var arrival := Arrive(Ack(cfg, 2, 0));
    ReachesThen(InitialConnection(cfg), before, b, arrival);
    events, c := before + [arrival], Next(b, arrival);
  }

  /** For every configuration a run stalls, by two acknowledgments in the wrong order: connect, the peer's SYN with a window of
      one, one byte, its acknowledgment, and the acknowledgment of the SYN once more. From then on nothing is sent unless
      a segment arrives. */
  lemma StallReached(cfg: Config) returns (events: seq<Event>, c: Connection)
    requires cfg.Valid()
    ensures Reaches(InitialConnection(cfg), events, c) && Stalled(c)
    ensures forall more, d :: Reaches(c, more, d) && NoArrivals(more) ==> Stalled(d) && d.sender.sent == c.sender.sent
  {
    var before, b := ByteAcked(cfg);
    AckTaken(b, cfg, 1, 1);
    var arrival := Arrive(Ack(cfg, 1, 1));
    EventStallsExactly(b, arrival);
    ReachesThen(InitialConnection(cfg), before, b, arrival);
    events, c := before + [arrival], Next(b, arrival);
    forall more, d | Reaches(c, more, d) && NoArrivals(more) ensures Stalled(d) && d.sender.sent == c.sender.sent {
      StalledForever(c, more, d);
    }
  }
}
