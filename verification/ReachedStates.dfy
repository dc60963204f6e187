/** Runs from the initial state to the extremes: the largest timeout, and a clean close that leaves a byte
    unassembled. */
module ReachedStates {
  import opened WrappingIntegers
  import opened ByteStreams
  import opened TcpSegments
  import opened Sending
  import opened SenderInvariants
  import opened SenderSteps
  import opened Receiving
  import opened Connecting
  import opened ConnectionInvariants
  import opened ConnectionRuns
  import opened Sides
  import CleanClose
  import LostEnd
  import Reassembly

  // ---- joining runs ----

  lemma {:induction false} ReachesOn(c: Connection, a: seq<Event>, d: Connection, b: seq<Event>, e: Connection)
    requires Reaches(c, a, d) && Reaches(d, b, e)
    ensures Reaches(c, a + b, e)
    decreases |a|
  {
    if a == [] {
      assert a + b == b;
    } else {
      ReachesOn(Next(c, a[0]), a[1..], d, b, e);
      assert (a + b)[1..] == a[1..] + b;
    }
  }

  lemma ReachesThen(c: Connection, a: seq<Event>, d: Connection, e: Event)
    requires Reaches(c, a, d) && Enabled(d, e)
    ensures Reaches(c, a + [e], Next(d, e))
  {
    assert [e][1..] == [];
    assert Reaches(d, [e], Next(d, e));
    ReachesOn(c, a, d, [e], Next(d, e));
  }

  // ---- timeouts ----

  /** A segment is outstanding, and nothing holds its timeouts back. */
  ghost predicate Pressing(c: Connection) {
    && ConnectionInv(c) && c.active && !c.lingerBegin
    && c.sender.timer.timing && !c.sender.zeroWindow
  }

  /** One timeout resends and doubles; up to the eighth in a row the connection goes on. */
  lemma OneTimeout(c: Connection)
    requires Pressing(c) && c.sender.timer.retx < MAX_RETX_ATTEMPTS
    ensures c.CanTick()
    ensures var d := c.Tick(c.sender.timer.countdown);
            && Pressing(d) && d.receiver == c.receiver && d.sender == c.sender.(timer := c.sender.timer.AfterTimeout(false))
            && d.cfg == c.cfg && d.linger == c.linger
  {
    var ms := c.sender.timer.countdown;
    ConnectionRuns.TickKeeps(c, ms);
    TickCases(c, ms);
    var t := Ticked(c, ms);
    SendAllFlushes(t);
    QueueTotal(c.sender);
  }

  /** `d` is `c` after `n` more timeouts; `c` has doubled `e` times. */
  ghost predicate TimedOut(c: Connection, d: Connection, n: nat, e: nat) {
    && Pressing(d) && d.receiver == c.receiver && d.sender == c.sender.(timer := d.sender.timer)
    && d.cfg == c.cfg && d.linger == c.linger
    && d.sender.timer.retx == c.sender.timer.retx + n && DoubledTimes(d.sender.timer, e + n)
  }

  lemma OneDoubling(c: Connection, e: nat)
    requires Pressing(c) && c.sender.timer.retx < MAX_RETX_ATTEMPTS && DoubledTimes(c.sender.timer, e) && e < 16
    ensures c.CanTick() && TimedOut(c, c.Tick(c.sender.timer.countdown), 1, e)
  {
    OneTimeout(c);
    DoublingFits(c.sender.timer, e);
  }

  lemma {:induction false} Timeouts(c: Connection, n: nat, e: nat) returns (events: seq<Event>, d: Connection)
    requires Pressing(c) && c.sender.timer.retx + n <= MAX_RETX_ATTEMPTS
    requires DoubledTimes(c.sender.timer, e) && e + n <= 16
    ensures Reaches(c, events, d) && TimedOut(c, d, n, e)
    decreases n
  {
    if n == 0 {
      events, d := [], c;
    } else {
      var rest, m := Timeouts(c, n - 1, e);
      OneDoubling(m, e + n - 1);
      var tick := Event.Tick(m.sender.timer.countdown);
      ReachesThen(c, rest, m, tick);
      events, d := rest + [tick], Next(m, tick);
    }
  }

  // ---- the handshake ----

  /** Our SYN is out, and nothing has come back. */
  ghost predicate Dialled(c: Connection, cfg: Config) {
    && ConnectionInv(c) && c.active && c.linger && !c.lingerBegin && c.cfg == cfg
    && c.receiver == InitialReceiver(cfg.recvCapacity)
    && c.sender == InitialSender(cfg.sendCapacity, cfg.rtTimeout, cfg.isn).Connect().(out := [], timer := c.sender.timer)
  }

  lemma Dial(cfg: Config) returns (c: Connection)
    requires cfg.Valid()
    ensures Reaches(InitialConnection(cfg), [Event.Connect], c) && Dialled(c, cfg) && Pressing(c)
    ensures c.sender.timer.retx == 0 && DoubledTimes(c.sender.timer, 0)
  {
    var i := InitialConnection(cfg);
    InitialConnectionInv(cfg);
    ConnectionRuns.ConnectKeeps(i);
    c := i.Connect();
    assert [Event.Connect][1..] == [];
    assert Reaches(c, [], c);
  }

  /** The peer's answer to our SYN, offering a window of one. */
  function SynAck(cfg: Config): Segment {
    Segment(DEFAULT_HEADER.(syn := true, ack := true, ackno := Wrap(1, cfg.isn), win := 1), [])
  }

  /** Both SYNs are through; nothing was sent or received beyond them. */
  ghost predicate Open(c: Connection, cfg: Config) {
    && ConnectionInv(c) && c.active && c.linger && !c.lingerBegin && c.cfg == cfg && !c.sentFin
    && c.receiver == InitialReceiver(cfg.recvCapacity).(gotSyn := true)
    && c.sender.stream == Stream(cfg.sendCapacity, [], 0, false, false)
    && c.sender.isn == cfg.isn && c.sender.next == 1 && c.sender.checkpoint == 1 && c.sender.sentSyn
    && c.sender.winBegin == 1 && c.sender.winSize == 1 && !c.sender.zeroWindow
    && !c.sender.timer.timing
  }

  lemma SynReceived(cfg: Config)
    requires cfg.Valid()
    ensures var r := InitialReceiver(cfg.recvCapacity);
            && r.Valid() && r.Handles(SynAck(cfg)) && r.SegmentReceived(SynAck(cfg)) == r.(gotSyn := true)
  {
    Reassembly.CountZero(map[]);
    UnwrapWrap(0, 0, 0);
  }

  lemma SynAcked(s: Sender, cfg: Config)
    requires s == InitialSender(cfg.sendCapacity, cfg.rtTimeout, cfg.isn).Connect().(out := [], timer := s.timer)
    ensures s.AckReceived(Wrap(1, cfg.isn), 1) ==
            s.(winBegin := 1, winSize := 1, zeroWindow := false, inFlight := 0, outstanding := [], checkpoint := 1,
               timer := s.timer.(timing := false))
  {
    UnwrapWrap(1, cfg.isn, 0);
    assert s.outstanding == [Placed(s.Syn(), 0)];
    var w := s.NewWindow(1, 1);
    assert w.outstanding[1..] == [];
    assert w.PopAcked(1) == w.(inFlight := 0, outstanding := []);
  }

  lemma OpenUp(c: Connection, cfg: Config)
    requires cfg.Valid() && Dialled(c, cfg)
    ensures c.Handles(SynAck(cfg)) && Open(c.SegmentReceived(SynAck(cfg)), cfg)
    ensures c.SegmentReceived(SynAck(cfg)).sender.timer == c.sender.timer.(timing := false)
  {
    var g := SynAck(cfg);
    SynReceived(cfg);
    SynAcked(c.sender, cfg);
    var t := c.Taken(g);
    assert t == c.(receiver := t.receiver, sender := c.sender.AckReceived(Wrap(1, cfg.isn), 1));
    assert t.sender.FillWindow() == t.sender;
    SegmentKeeps(c, g);
    SendAllFlushes(t.Answer(g));
  }

  // ---- the largest timeout ----

  lemma OneChunk(s: Sender)
    requires s.stream == Stream(s.stream.capacity, [1], 0, false, false) && s.stream.capacity > 0
    requires s.next == 1 && s.winBegin == 1 && s.winSize == 1 && s.sentSyn && !s.sentAll
    ensures s.CanSendChunk() && s.FillWindow() == s.SendChunk() && !s.Chunk().header.fin
  {
    var t := s.SendChunk();
    assert t.next == 2 && t.Edge() == 2;
    assert t.SendChunks() == t;
  }

  /** The first byte goes out, under the timeout the SYN left behind. */
  lemma WriteOne(c: Connection, cfg: Config)
    requires cfg.Valid() && Open(c, cfg)
    ensures Enabled(c, Event.Write([1])) && Pressing(c.Write([1]))
    ensures c.Write([1]).sender.timer == c.sender.timer.Begin() && c.Write([1]).cfg == cfg
    ensures var d := c.Write([1]);
            && d.receiver == c.receiver && d.sender.stream == Stream(cfg.sendCapacity, [1], 1, false, false)
            && d.sender.next == 2 && d.sender.checkpoint == 1 && d.sender.sentSyn && !d.sender.sentAll
  {
    WriteKeeps(c, [1]);
    var s := c.sender.(stream := c.sender.stream.Write([1]));
    OneChunk(s);
    var d := c.(sender := s.SendChunk());
    SendAllFlushes(d);
    EndSender(d.SendAll());
    FlushReceiver(d);
  }

  /** The SYN is resent eight times. */
  lemma SilentPeer(cfg: Config) returns (events: seq<Event>, c: Connection)
    requires cfg.Valid()
    ensures Reaches(InitialConnection(cfg), events, c) && Dialled(c, cfg) && DoubledTimes(c.sender.timer, 8)
  {
    var c0 := Dial(cfg);
    var ticks;
    ticks, c := Timeouts(c0, 8, 0);
    ReachesOn(InitialConnection(cfg), [Event.Connect], c0, ticks, c);
    events := [Event.Connect] + ticks;
  }

  /** Its acknowledgment leaves the timeout as it is. */
  lemma LatePeer(cfg: Config) returns (events: seq<Event>, c: Connection)
    requires cfg.Valid()
    ensures Reaches(InitialConnection(cfg), events, c) && Open(c, cfg) && DoubledTimes(c.sender.timer, 8)
  {
    var before, b := SilentPeer(cfg);
    OpenUp(b, cfg);
    var arrival := Arrive(SynAck(cfg));
    ReachesThen(InitialConnection(cfg), before, b, arrival);
    events, c := before + [arrival], Next(b, arrival);
  }

  lemma LateByte(cfg: Config) returns (events: seq<Event>, c: Connection)
    requires cfg.Valid()
    ensures Reaches(InitialConnection(cfg), events, c) && Pressing(c)
    ensures c.sender.timer.retx == 0 && DoubledTimes(c.sender.timer, 8) && c.cfg == cfg
  {
    var before, b := LatePeer(cfg);
    WriteOne(b, cfg);
    ReachesThen(InitialConnection(cfg), before, b, Event.Write([1]));
    events, c := before + [Event.Write([1])], Next(b, Event.Write([1]));
  }

  /** For every configuration a run leads to 2^16 times the initial timeout: eight timeouts with the SYN and
      eight more with the first byte. */
  lemma TimeoutReached(cfg: Config) returns (events: seq<Event>, c: Connection)
    requires cfg.Valid()
    ensures Reaches(InitialConnection(cfg), events, c) && Pressing(c)
    ensures c.sender.timer.retx == MAX_RETX_ATTEMPTS && DoubledTimes(c.sender.timer, 16)
    ensures c.sender.timer.initialRto == cfg.rtTimeout
  {
    var before, b := LateByte(cfg);
    var ticks;
    ticks, c := Timeouts(b, 8, 8);
    ReachesOn(InitialConnection(cfg), before, b, ticks, c);
    events := before + ticks;
  }

  // ---- when the timeout stays exact ----

  /** The timeout is the initial one doubled at most 17 times, without loss to 32 bits. */
  ghost predicate Exact(t: Timer) {
    exists e: nat :: e <= 17 && DoubledTimes(t, e)
  }

  lemma SoundExact(t: Timer, acked: bool)
    requires Sound(t, acked)
    ensures Exact(t)
  {
    var e := TimeoutBound(t, acked);
  }

  lemma FlushExact(d: Connection)
    requires Mid(d)
    ensures Exact(d.SendAll().TryToEndCleanly().sender.timer)
  {
    FlushKeeps(d);
    EndSender(d.SendAll());
    SoundExact(d.SendAll().sender.timer, d.SendAll().sender.checkpoint > 0);
  }

  lemma ProcessExact(c: Connection, seg: Segment)
    requires ConnectionInv(c) && c.active && c.CanProcess(seg) && !c.BeforeSyn(seg)
    ensures Exact(c.Process(seg).sender.timer)
  {
    TakenFrame(c, seg);
    AnswerMid(c.Taken(seg), seg);
    FlushExact(c.Taken(seg).Answer(seg));
  }

  lemma ArriveExact(c: Connection, seg: Segment)
    requires ConnectionInv(c) && c.Handles(seg) && Exact(c.sender.timer)
    ensures Exact(c.SegmentReceived(seg).sender.timer)
  {
    if c.active && !c.BeforeSyn(seg) && !seg.header.rst { ProcessExact(c, seg); }
  }

  lemma GrowExact(c: Connection, b: Stream)
    requires ConnectionInv(c) && c.active
    requires Grows(c.Outbound(), b) && b.Valid() && b.read == c.Outbound().read && b.error == c.Outbound().error
    ensures var s := c.sender.(stream := b);
            s.CanFill() && Exact(c.(sender := s.FillWindow()).SendAll().TryToEndCleanly().sender.timer)
  {
    StreamGrows(c.sender, b);
    var d := c.(sender := c.sender.(stream := b));
    FillMid(d);
    FlushExact(d.(sender := d.sender.FillWindow()));
  }

  lemma TickExact(c: Connection, ms: nat)
    requires ConnectionInv(c) && c.CanTick() && Exact(c.sender.timer) && c.sender.timer.initialRto < 0x8000
    ensures Exact(c.Tick(ms).sender.timer)
  {
    if c.active {
      var e := LastDoubling(c.sender, ms);
      TickedSender(c, ms);
    }
  }

  lemma EventExact(c: Connection, e: Event)
    requires ConnectionInv(c) && Enabled(c, e) && Exact(c.sender.timer) && c.sender.timer.initialRto < 0x8000
    ensures Exact(Next(c, e).sender.timer)
  {
    match e
    case Arrive(seg) => ArriveExact(c, seg);
    case Write(data) => GrowExact(c, c.Outbound().Write(data));
    case EndInput => GrowExact(c, c.Outbound().EndInput());
    case Connect => ConnectExact(c);
    case Tick(ms) => TickExact(c, ms);
    case _ =>
  }

  lemma ConnectExact(c: Connection)
    requires ConnectionInv(c) && c.CanConnect()
    ensures Exact(c.Connect().sender.timer)
  {
    ConnectionRuns.ConnectKeeps(c);
    SoundExact(c.Connect().sender.timer, c.Connect().sender.checkpoint > 0);
  }

  lemma {:induction false} RunExact(c: Connection, events: seq<Event>, d: Connection)
    requires ConnectionInv(c) && Reaches(c, events, d) && Exact(c.sender.timer) && c.sender.timer.initialRto < 0x8000
    ensures Exact(d.sender.timer)
    decreases |events|
  {
    if events != [] {
      EventExact(c, events[0]);
      EventExtends(c, events[0]);
      NextKeeps(c, events[0]);
      RunExact(Next(c, events[0]), events[1..], d);
    }
  }

  const POWERS: seq<nat> := [1, 2, 4, 8, 16, 32, 64, 128, 256, 512, 1024, 2048, 4096, 8192, 16384, 32768, 65536, 131072]

  lemma {:induction false} Powers(e: nat)
    requires e <= 17
    ensures Pow2(e) == POWERS[e]
  {
    if e > 0 { Powers(e - 1); }
  }

  lemma NoMultiple(rt: nat, e: nat)
    requires 0x8000 <= rt < 0x1_0000 && e <= 17
    ensures rt * POWERS[e] != rt * 0x2_0000 - TWO32
  {
  }

  /** From 2^15 on the seventeenth doubling loses its top bit, and what is left is no such multiple. */
  lemma Overflow(t: Timer)
    requires 0x8000 <= t.initialRto < 0x1_0000 && DoubledTimes(t, 16)
    ensures !Exact(t.AfterTimeout(false))
  {
    Pow2Sixteen();
    assert t.rto * 2 % TWO32 == t.initialRto * 0x2_0000 - TWO32;
    forall e: nat | e <= 17 ensures !DoubledTimes(t.AfterTimeout(false), e) {
      Powers(e);
      NoMultiple(t.initialRto, e);
    }
  }

  /** The ninth timeout in a row, which closes the connection. */
  lemma LastTimeout(c: Connection)
    requires Pressing(c) && c.sender.timer.retx == MAX_RETX_ATTEMPTS
    ensures c.CanTick() && c.Tick(c.sender.timer.countdown).sender.timer == c.sender.timer.AfterTimeout(false)
  {
    TickedSender(c, c.sender.timer.countdown);
  }

  lemma OverflowReached(cfg: Config) returns (events: seq<Event>, c: Connection)
    requires cfg.Valid() && cfg.rtTimeout >= 0x8000
    ensures Reaches(InitialConnection(cfg), events, c) && !Exact(c.sender.timer)
  {
    var before, b := TimeoutReached(cfg);
    LastTimeout(b);
    Overflow(b.sender.timer);
    var tick := Event.Tick(b.sender.timer.countdown);
    ReachesThen(InitialConnection(cfg), before, b, tick);
    events, c := before + [tick], Next(b, tick);
  }

  ghost predicate AlwaysExact(cfg: Config) {
    forall events, c :: Reaches(InitialConnection(cfg), events, c) ==> Exact(c.sender.timer)
  }

  lemma ExactBelow(cfg: Config)
    requires cfg.Valid() && cfg.rtTimeout < 0x8000
    ensures AlwaysExact(cfg)
  {
    var i := InitialConnection(cfg);
    InitialConnectionInv(cfg);
    SoundExact(i.sender.timer, i.sender.checkpoint > 0);
    forall events, c | Reaches(i, events, c) ensures Exact(c.sender.timer) {
      RunExact(i, events, c);
    }
  }

  /** In every state of every run, the closing tick included, the timeout is the initial one doubled at most
      17 times exactly if the configured timeout is below 2^15. */
  lemma TimeoutExactly(cfg: Config)
    requires cfg.Valid()
    ensures AlwaysExact(cfg) <==> cfg.rtTimeout < 0x8000
  {
    if cfg.rtTimeout < 0x8000 {
      ExactBelow(cfg);
    } else {
      var events, c := OverflowReached(cfg);
    }
  }

  // ---- a stray byte ----

  lemma Opened(cfg: Config) returns (events: seq<Event>, c: Connection)
    requires cfg.Valid()
    ensures Reaches(InitialConnection(cfg), events, c) && Open(c, cfg)
  {
    var b := Dial(cfg);
    OpenUp(b, cfg);
    var arrival := Arrive(SynAck(cfg));
    ReachesThen(InitialConnection(cfg), [Event.Connect], b, arrival);
    events, c := [Event.Connect] + [arrival], Next(b, arrival);
  }

  /** Our FIN is out, right after the SYN. */
  ghost predicate FinOut(c: Connection, cfg: Config) {
    && ConnectionInv(c) && c.active && c.linger && !c.lingerBegin && c.cfg == cfg && c.sentFin
    && c.receiver == InitialReceiver(cfg.recvCapacity).(gotSyn := true)
    && c.sender.stream == Stream(cfg.sendCapacity, [], 0, true, false)
    && c.sender.next == 2 && c.sender.checkpoint == 1 && c.sender.sentSyn
  }

  lemma EndOnly(c: Connection, cfg: Config)
    requires cfg.Valid() && Open(c, cfg)
    ensures Enabled(c, EndInput) && FinOut(c.EndInputStream(), cfg)
  {
    EndInputKeeps(c);
    var s := c.sender.(stream := c.sender.stream.EndInput());
    assert s.FillWindow() == s.SendFin();
    var d := c.(sender := s.SendFin());
    assert d.sender.out == [s.Fin()];
    SendAllFlushes(d);
    EndSender(d.SendAll());
  }

  /** The peer's FIN, which acknowledges ours. */
  function FinAck(cfg: Config): Segment {
    Segment(DEFAULT_HEADER.(fin := true, ack := true, seqno := 1, ackno := Wrap(2, cfg.isn), win := 1), [])
  }

  lemma FinReceived(cfg: Config)
    requires cfg.Valid()
    ensures var r := InitialReceiver(cfg.recvCapacity).(gotSyn := true);
            && r.Valid() && r.Handles(FinAck(cfg))
            && var d := r.SegmentReceived(FinAck(cfg));
               d.gotSyn && d.checkpoint == 1 && d.reas.out == Stream(cfg.recvCapacity, [], 0, true, false) && d.reas.pending == map[]
  {
    Reassembly.CountZero(map[]);
    assert Wrap(1, 0) == 1;
    UnwrapWrap(1, 0, 0);
  }

  lemma FinAcked(c: Connection, cfg: Config)
    requires cfg.Valid() && FinOut(c, cfg)
    ensures c.receiver.Handles(FinAck(cfg))
    ensures var t := c.Taken(FinAck(cfg));
            && t.receiver == c.receiver.SegmentReceived(FinAck(cfg)) && t.active && t.linger && t.cfg == cfg
            && t.sender.CanFill() && t.sender.FillWindow() == t.sender
            && t.InboundDone() && t.OutboundDone() && t.finAcked
  {
    var g := FinAck(cfg);
    FinReceived(cfg);
    UnwrapWrap(2, cfg.isn, 1);
    AckReceivedKeeps(c.sender, g.header.ackno, 1);
    DecodedTwice(c.sender, g.header.ackno, 1);
    var t := c.Taken(g);
    assert t.sender.sentAll && t.sender.sentSyn && t.sender.stream == c.sender.stream;
  }

  /** The connection waits after both ends are through. */
  ghost predicate Lingering(c: Connection, cfg: Config) {
    && ConnectionInv(c) && c.active && c.lingerBegin && c.cfg == cfg
    && c.receiver.gotSyn && c.receiver.checkpoint == 1
    && c.receiver.reas.out == Stream(cfg.recvCapacity, [], 0, true, false) && c.receiver.reas.pending == map[]
  }

  lemma FlushLingers(d: Connection)
    requires d.receiver.Valid() && d.linger && d.InboundDone() && d.OutboundDone() && d.finAcked
    ensures var e := d.SendAll().TryToEndCleanly();
            e.lingerBegin && e.receiver == d.receiver && e.active == d.active && e.cfg == d.cfg
  {
    SendAllFlushes(d);
  }

  lemma FinProcessed(c: Connection, cfg: Config)
    requires cfg.Valid() && FinOut(c, cfg)
    ensures c.CanProcess(FinAck(cfg))
    ensures var d := c.Process(FinAck(cfg));
            d.lingerBegin && d.active && d.cfg == cfg && d.receiver == c.receiver.SegmentReceived(FinAck(cfg))
  {
    FinReceived(cfg);
    FinAcked(c, cfg);
    var t := c.Taken(FinAck(cfg));
    assert t.Answer(FinAck(cfg)) == t.(sender := t.sender.(out := t.Answer(FinAck(cfg)).sender.out));
    FlushLingers(t.Answer(FinAck(cfg)));
  }

  lemma Lingers(c: Connection, cfg: Config)
    requires cfg.Valid() && FinOut(c, cfg)
    ensures c.Handles(FinAck(cfg)) && Lingering(c.SegmentReceived(FinAck(cfg)), cfg)
  {
    FinReceived(cfg);
    FinProcessed(c, cfg);
    SegmentKeeps(c, FinAck(cfg));
  }

  lemma FinSent(cfg: Config) returns (events: seq<Event>, c: Connection)
    requires cfg.Valid()
    ensures Reaches(InitialConnection(cfg), events, c) && FinOut(c, cfg)
  {
    var before, b := Opened(cfg);
    EndOnly(b, cfg);
    ReachesThen(InitialConnection(cfg), before, b, EndInput);
    events, c := before + [EndInput], Next(b, EndInput);
  }

  lemma LingerReached(cfg: Config) returns (events: seq<Event>, c: Connection)
    requires cfg.Valid()
    ensures Reaches(InitialConnection(cfg), events, c) && Lingering(c, cfg)
  {
    var before, b := FinSent(cfg);
    Lingers(b, cfg);
    var arrival := Arrive(FinAck(cfg));
    ReachesThen(InitialConnection(cfg), before, b, arrival);
    events, c := before + [arrival], Next(b, arrival);
  }

  lemma StrayThenTick(a: Connection, before: seq<Event>, b: Connection, g: Segment, ms: nat) returns (events: seq<Event>)
    requires Reaches(a, before, b) && b.Handles(g) && b.SegmentReceived(g).CanTick()
    ensures Reaches(a, events, b.SegmentReceived(g).Tick(ms))
  {
    ReachesThen(a, before, b, Arrive(g));
    ReachesThen(a, before + [Arrive(g)], b.SegmentReceived(g), Event.Tick(ms));
    events := before + [Arrive(g)] + [Event.Tick(ms)];
  }

  /** For every configuration whose receiver has room for two bytes a run closes cleanly with a byte unassembled:
      connect, the peer's SYN, the end of our input, the peer's FIN, a byte past it, and the linger time. */
  lemma StrayByteReached(cfg: Config) returns (events: seq<Event>, c: Connection)
    requires cfg.Valid() && cfg.recvCapacity >= 2
    ensures Reaches(InitialConnection(cfg), events, c) && !c.active && !Error(c) && !CleanClose.NothingPending(c)
  {
    var before, b := LingerReached(cfg);
    CleanClose.StrayByteBreaks(b);
    var g, ms := CleanClose.StrayByte(b.receiver), 10 * cfg.rtTimeout;
    events := StrayThenTick(InitialConnection(cfg), before, b, g, ms);
    c := b.SegmentReceived(g).Tick(ms);
  }

  // ---- a lost end ----

  /** Nothing to send, and the peer's stream is open. */
  ghost predicate Listening(c: Connection) {
    && ConnectionInv(c) && c.active && c.sender.sentSyn && c.sender.FillWindow() == c.sender
    && c.receiver.gotSyn && c.receiver.isn == 0
  }

  /** A segment without acknowledgment only goes to the receiver while the stream stays open. */
  lemma OnlyReceived(c: Connection, seg: Segment)
    requires Listening(c) && c.receiver.Handles(seg) && !c.receiver.SegmentReceived(seg).reas.out.ended
    requires !seg.header.ack && !seg.header.rst && seg.LengthInSequenceSpace() > 0
    ensures c.Handles(seg)
    ensures var d := c.SegmentReceived(seg); Listening(d) && d.receiver == c.receiver.SegmentReceived(seg)
  {
    ReceivedFrame(c.receiver, seg);
    var t := c.Taken(seg);
    assert t == c.(receiver := t.receiver);
    SegmentKeeps(c, seg);
    SendAllFlushes(t.Answer(seg));
  }

  /** A FIN that leaves room for one byte before it, and the two bytes that follow. */
  const EARLY_FIN := Segment(DEFAULT_HEADER.(fin := true, seqno := 2), [])

  const TWO_BYTES := Segment(DEFAULT_HEADER.(seqno := 1), [1, 2])

  lemma EarlyFinReceived(capacity: nat)
    requires capacity >= 2
    ensures var r := InitialReceiver(capacity).(gotSyn := true);
            && r.Valid() && r.Handles(EARLY_FIN)
            && r.SegmentReceived(EARLY_FIN) == r.(gotFin := true, finSeqno := 2, checkpoint := 2,
                                                  reas := r.reas.(eof := true, eofIndex := 1))
  {
    Reassembly.CountZero(map[]);
    assert Wrap(2, 0) == 2;
    UnwrapWrap(2, 0, 0);
  }

  lemma TwoBytesReceived(r: Receiver)
    requires r.Valid() && r.gotSyn && r.isn == 0 && r.checkpoint == 2 && r.gotFin && r.finSeqno == 2
    requires r.reas.out.written == [] && r.reas.out.Room() >= 2 && r.reas.pending == map[] && r.reas.starts == {}
    requires r.reas.eof && r.reas.eofIndex == 1
    ensures r.Handles(TWO_BYTES) && r.SegmentReceived(TWO_BYTES).reas.Lost() && !r.SegmentReceived(TWO_BYTES).reas.out.ended
  {
    assert Wrap(1, 0) == 1;
    UnwrapWrap(1, 0, 2);
    LostEnd.TwoBytesPass(r.reas, 1, 2);
  }

  /** A peer that sends a byte past its own FIN keeps every configuration with room for two bytes open until an error. */
  lemma LostEndReached(cfg: Config) returns (events: seq<Event>, c: Connection)
    requires cfg.Valid() && cfg.recvCapacity >= 2
    ensures Reaches(InitialConnection(cfg), events, c) && c.active && c.receiver.reas.Lost()
    ensures forall more, d :: Reaches(c, more, d) ==> !d.Inbound().ended && (!d.active ==> Error(d))
  {
    var before, a := Opened(cfg);
    EarlyFinReceived(cfg.recvCapacity);
    OnlyReceived(a, EARLY_FIN);
    var b := a.SegmentReceived(EARLY_FIN);
    TwoBytesReceived(b.receiver);
    OnlyReceived(b, TWO_BYTES);
    c := b.SegmentReceived(TWO_BYTES);
    ReachesThen(InitialConnection(cfg), before, a, Arrive(EARLY_FIN));
    ReachesThen(InitialConnection(cfg), before + [Arrive(EARLY_FIN)], b, Arrive(TWO_BYTES));
    events := before + [Arrive(EARLY_FIN)] + [Arrive(TWO_BYTES)];
    forall more, d | Reaches(c, more, d) ensures !d.Inbound().ended && (!d.active ==> Error(d)) {
      LostEnd.LostForever(c, more, d);
    }
  }
}
