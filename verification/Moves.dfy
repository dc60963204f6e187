/** Moves of two connections that bring no error, and what they lead to. */
module Moves {
  import opened WrappingIntegers
  import opened ByteStreams
  import opened TcpSegments
  import opened Sending
  import opened SenderInvariants
  import opened SenderSteps
  import opened Receiving
  import opened Connecting
  import opened ConnectionInvariants
  import opened ConnectionRuns
  import opened Flow
  import opened Emission
  import opened Sides
  import opened TwoParty
  import opened Wire
  import opened TcpStates
  import CleanClose
  import ReassemblerRuns

  // ---- joining and mirroring runs ----

  lemma LeadsFirst(w: World, m: Move, u: World, rest: seq<Move>, v: World)
    requires CanMove(w, m) && u == Step(w, m) && Leads(u, rest, v)
    ensures Leads(w, [m] + rest, v)
  {
    assert ([m] + rest)[1..] == rest;
  }

  lemma LeadsRest(w: World, moves: seq<Move>, v: World) returns (u: World)
    requires Leads(w, moves, v) && moves != []
    ensures CanMove(w, moves[0]) && u == Step(w, moves[0]) && Leads(u, moves[1..], v)
  {
    u := Step(w, moves[0]);
  }

  lemma MovesJoined(a: seq<Move>, b: seq<Move>)
    ensures if a == [] then a + b == b else [a[0]] + (a[1..] + b) == a + b
  {
  }

  lemma {:induction false} LeadsOn(w: World, a: seq<Move>, u: World, b: seq<Move>, v: World)
    requires Leads(w, a, u) && Leads(u, b, v)
    ensures Leads(w, a + b, v)
    decreases |a|
  {
    MovesJoined(a, b);
    if a != [] {
      var next := LeadsRest(w, a, u);
      LeadsOn(next, a[1..], u, b, v);
      LeadsFirst(w, a[0], next, a[1..] + b, v);
    }
  }

  function Mirror(moves: seq<Move>): seq<Move> {
    if moves == [] then [] else [Move(!moves[0].left, moves[0].event)] + Mirror(moves[1..])
  }

  lemma {:induction false} LeadsMirror(w: World, moves: seq<Move>, v: World)
    requires Leads(w.Swap(), moves, v)
    ensures Leads(w, Mirror(moves), v.Swap())
    decreases |moves|
  {
    if moves != [] {
      var m := Move(!moves[0].left, moves[0].event);
      assert CanMove(w, m) && Step(w, m).Swap() == Step(w.Swap(), moves[0]);
      LeadsMirror(Step(w, m), moves[1..], v);
      assert Mirror(moves)[1..] == Mirror(moves[1..]);
    }
  }

  // ---- careful moves ----

  /** The timer is off, or may still run out without ending the connection. */
  predicate HasRetries(s: Sender) {
    s.timer.timing ==> s.timer.retx < MAX_RETX_ATTEMPTS
  }

  /** A move that brings no error: no write, no reset, and time only while there are retries left. */
  ghost predicate Careful(c: Connection, e: Event, inbox: set<Segment>) {
    && Offered(c, e, inbox)
    && match e
       case Arrive(seg) => !seg.header.rst
       case Write(_) => false
       case Tick(_) => c.active ==> HasRetries(c.sender)
       case _ => true
  }

  lemma FlushNoError(d: Connection)
    requires d.receiver.Valid() && !Error(d)
    ensures !Error(d.SendAll().TryToEndCleanly())
  {
    SendAllFlushes(d);
  }

  lemma ArriveNoError(c: Connection, seg: Segment)
    requires ConnectionInv(c) && !Error(c) && c.Handles(seg) && !seg.header.rst
    ensures !Error(c.SegmentReceived(seg))
  {
    if c.active && !c.BeforeSyn(seg) {
      TakenFrame(c, seg);
      AnswerFrame(c.Taken(seg), seg);
      FlushNoError(c.Taken(seg).Answer(seg));
    }
  }

  lemma TickNoError(c: Connection, ms: nat)
    requires ConnectionInv(c) && !Error(c) && c.CanTick() && (c.active ==> HasRetries(c.sender))
    ensures !Error(c.Tick(ms))
  {
    TickCases(c, ms);
    if c.active {
      SendAllFlushes(Ticked(c, ms));
    }
  }

  lemma EventNoError(c: Connection, e: Event, inbox: set<Segment>)
    requires ConnectionInv(c) && Enabled(c, e) && !Error(c) && Careful(c, e, inbox)
    ensures !Error(Next(c, e))
  {
    match e
    case Arrive(seg) => ArriveNoError(c, seg);
    case EndInput =>
      FillStream(c.sender.(stream := c.Outbound().EndInput()));
      FlushNoError(c.(sender := c.sender.(stream := c.Outbound().EndInput()).FillWindow()));
    case Connect => FillStream(c.sender);
    case Tick(ms) => TickNoError(c, ms);
    case _ =>
  }

  // ---- before the SYN is acknowledged ----

  /** Until its SYN is acknowledged, an endpoint sends nothing else. */
  predicate Opening(s: Sender) {
    s.checkpoint == 0 ==> s.winBegin == 0 && s.winSize == 1 && s.next <= 1
  }

  lemma FillOpening(s: Sender)
    requires SenderInv(s) && s.CanFill() && Opening(s)
    ensures Opening(s.FillWindow())
  {
    FillKeeps(s);
  }

  lemma AckOpening(s: Sender, r: Receiver, seg: Segment)
    requires SenderInv(s) && Matches(r, s) && Restrained(s, r) && Acks(seg, r) && seg.header.ack
    ensures Opening(s.AckReceived(seg.header.ackno, seg.header.win))
  {
    var a: nat :| 1 <= a <= r.AbsAckno() && seg.header.ackno == Wrap(a, r.isn) && a + seg.header.win <= r.WindowEnd();
    AckBelowNext(r, s);
    UnwrapWrap(a, s.isn, s.checkpoint);
    AckFrame(s, a, seg.header.win);
  }

  lemma TakenOpening(c: Connection, seg: Segment, r: Receiver)
    requires ConnectionInv(c) && c.active && c.CanProcess(seg)
    requires Matches(r, c.sender) && Restrained(c.sender, r) && Acks(seg, r) && Opening(c.sender)
    ensures Opening(c.Taken(seg).sender)
  {
    KeepAliveSend(c.Receive(seg), seg, r);
    KeepAliveSender(c.Receive(seg), seg);
    if seg.header.ack { AckOpening(c.Receive(seg).AnswerKeepAlive(seg).sender, r, seg); }
  }

  lemma FlushOpening(d: Connection)
    requires d.receiver.Valid() && Opening(d.sender)
    ensures Opening(d.SendAll().TryToEndCleanly().sender)
  {
    SendAllFlushes(d);
    EndSender(d.SendAll());
  }

  lemma ProcessOpening(c: Connection, seg: Segment, r: Receiver)
    requires ConnectionInv(c) && c.active && c.CanProcess(seg) && !c.BeforeSyn(seg)
    requires Matches(r, c.sender) && Restrained(c.sender, r) && Acks(seg, r) && Opening(c.sender)
    ensures Opening(c.Process(seg).sender)
  {
    TakenOpening(c, seg, r);
    TakenFrame(c, seg);
    FillOpening(c.Taken(seg).sender);
    FlushOpening(c.Taken(seg).Answer(seg));
  }

  lemma GrowOpening(c: Connection, b: Stream)
    requires ConnectionInv(c) && c.active && Opening(c.sender)
    requires Grows(c.Outbound(), b) && b.Valid() && b.read == c.Outbound().read
    ensures var s := c.sender.(stream := b);
            s.CanFill() && Opening(c.(sender := s.FillWindow()).SendAll().TryToEndCleanly().sender)
  {
    StreamGrows(c.sender, b);
    FillOpening(c.sender.(stream := b));
    FlushOpening(c.(sender := c.sender.(stream := b).FillWindow()));
  }

  lemma EventOpening(c: Connection, e: Event, r: Receiver)
    requires ConnectionInv(c) && Enabled(c, e) && Opening(c.sender)
    requires Matches(r, c.sender) && Restrained(c.sender, r) && (e.Arrive? ==> Acks(e.seg, r))
    ensures Opening(Next(c, e).sender)
  {
    match e
    case Arrive(seg) => if c.active && !c.BeforeSyn(seg) && !seg.header.rst { ProcessOpening(c, seg, r); }
    case Write(data) => GrowOpening(c, c.Outbound().Write(data));
    case EndInput => GrowOpening(c, c.Outbound().EndInput());
    case Connect => FillOpening(c.sender);
    case Tick(ms) => if c.active { TickFrame(c.sender, ms); TickedSender(c, ms); }
    case _ =>
  }

  // ---- worlds without an error ----

  predicate Books(c: Connection) {
    StateBook(c) && Opening(c.sender)
  }

  /** A world reached without an error, whatever the network has kept. */
  ghost predicate Sane(w: World) {
    WorldInv(w) && Books(w.a) && Books(w.b) && !Error(w.a) && !Error(w.b)
  }

  lemma BooksStep(x: Connection, y: Connection, xy: set<Segment>, yx: set<Segment>, e: Event)
    requires ConnectionInv(x) && Enabled(x, e) && Link(x, y, xy, yx) && Offered(x, e, yx) && Books(x)
    ensures Books(Next(x, e).Dequeue())
  {
    EventBook(x, e);
    EventOpening(x, e, y.receiver);
  }

  lemma MoveBooks(w: World, m: Move)
    requires WorldInv(w) && CanMove(w, m) && Books(w.a) && Books(w.b)
    ensures Books(Step(w, m).a) && Books(Step(w, m).b)
  {
    if m.left { BooksStep(w.a, w.b, w.ab, w.ba, m.event); } else { BooksStep(w.b, w.a, w.ba, w.ab, m.event); }
  }

  lemma {:induction false} LeadsBooks(w: World, moves: seq<Move>, v: World)
    requires WorldInv(w) && Books(w.a) && Books(w.b) && Leads(w, moves, v)
    ensures Books(v.a) && Books(v.b)
    decreases |moves|
  {
    if moves != [] {
      MoveKeeps(w, moves[0]);
      MoveBooks(w, moves[0]);
      LeadsBooks(Step(w, moves[0]), moves[1..], v);
    }
  }

  lemma ReachableSane(cfgA: Config, cfgB: Config, moves: seq<Move>, w: World)
    requires cfgA.Valid() && cfgB.Valid() && Leads(InitialWorld(cfgA, cfgB), moves, w)
    requires !Error(w.a) && !Error(w.b)
    ensures Sane(w)
  {
    InitialWorldInv(cfgA, cfgB);
    LeadsInv(InitialWorld(cfgA, cfgB), moves, w);
    LeadsBooks(InitialWorld(cfgA, cfgB), moves, w);
  }

  /** What a careful move never takes back in the endpoint `c`, now `d`. */
  predicate Onward(c: Connection, d: Connection) {
    && d.Outbound().written == c.Outbound().written && (c.Outbound().ended ==> d.Outbound().ended)
    && c.sender.next <= d.sender.next && c.sender.checkpoint <= d.sender.checkpoint
    && (c.sender.sentSyn ==> d.sender.sentSyn) && (c.sender.sentAll ==> d.sender.sentAll)
    && Progress(c.receiver, d.receiver)
    && (!c.active ==> !d.active)
  }

  predicate Ahead(w: World, v: World) {
    Onward(w.a, v.a) && Onward(w.b, v.b)
  }

  lemma AheadTrans(w: World, u: World, v: World)
    requires Ahead(w, u) && Ahead(u, v)
    ensures Ahead(w, v)
  {
  }

  lemma InactiveStays(c: Connection, e: Event)
    requires Enabled(c, e) && !c.active
    ensures !Next(c, e).active
  {
  }

  lemma EventOnward(x: Connection, y: Connection, xy: set<Segment>, yx: set<Segment>, e: Event)
    requires ConnectionInv(x) && Enabled(x, e) && Careful(x, e, yx) && Link(x, y, xy, yx) && Link(y, x, yx, xy)
    ensures Onward(x, Next(x, e).Dequeue())
  {
    EventExtends(x, e);
    OutboundWritten(x, e);
    EventRecv(x, e, y.sender);
    if !x.active { InactiveStays(x, e); }
  }

  lemma LeftStep(w: World, e: Event)
    requires Sane(w) && Careful(w.a, e, w.ba)
    ensures CanMove(w, Move(true, e)) && Sane(Step(w, Move(true, e))) && Ahead(w, Step(w, Move(true, e)))
  {
    LeftKeeps(w, e);
    BooksStep(w.a, w.b, w.ab, w.ba, e);
    EventNoError(w.a, e, w.ba);
    EventOnward(w.a, w.b, w.ab, w.ba, e);
  }

  // ---- what can be reached carefully ----

  ghost predicate Possible(w: World, v: World) {
    exists moves :: Leads(w, moves, v)
  }

  lemma PossibleOn(w: World, u: World, v: World)
    requires Possible(w, u) && Possible(u, v)
    ensures Possible(w, v)
  {
    var a :| Leads(w, a, u);
    var b :| Leads(u, b, v);
    LeadsOn(w, a, u, b, v);
  }

  /** Some careful moves lead from `w` to `v`. */
  ghost predicate Toward(w: World, v: World) {
    Sane(v) && Ahead(w, v) && Possible(w, v) && (Wired(w) ==> Wired(v))
  }

  lemma TowardSelf(w: World)
    requires Sane(w)
    ensures Toward(w, w)
  {
    assert Leads(w, [], w);
  }

  lemma TowardOn(w: World, u: World, v: World)
    requires Toward(w, u) && Toward(u, v)
    ensures Toward(w, v)
  {
    PossibleOn(w, u, v);
    AheadTrans(w, u, v);
  }

  lemma TowardMirror(w: World, v: World)
    requires Toward(w.Swap(), v)
    ensures Toward(w, v.Swap())
  {
    var moves :| Leads(w.Swap(), moves, v);
    LeadsMirror(w, moves, v);
  }

  lemma OneMove(w: World, m: Move)
    requires CanMove(w, m)
    ensures Possible(w, Step(w, m))
  {
    assert [m][1..] == [];
    assert Leads(Step(w, m), [], Step(w, m));
    assert Leads(w, [m], Step(w, m));
  }

  /** One careful move of the left endpoint. */
  lemma Go(w: World, e: Event)
    requires Sane(w) && Careful(w.a, e, w.ba)
    ensures Enabled(w.a, e) && Toward(w, StepLeft(w, e))
  {
    LeftStep(w, e);
    OneMove(w, Move(true, e));
    if Wired(w) { LeftWired(w, e); }
  }

  // ---- both inputs end ----

  predicate Announced(c: Connection) {
    c.sender.sentSyn && c.Outbound().ended
  }

  lemma EndAnnounces(c: Connection)
    requires ConnectionInv(c) && c.active
    ensures c.sender.CanFill() && Announced(c.EndInputStream())
  {
    var s := c.sender.(stream := c.Outbound().EndInput());
    StreamGrows(c.sender, s.stream);
    FillKeeps(s);
    FillStream(s);
    var d := c.(sender := s.FillWindow());
    SendAllFlushes(d);
    EndSender(d.SendAll());
  }

  lemma EndLeft(w: World) returns (v: World)
    requires Sane(w)
    ensures Toward(w, v) && Announced(v.a)
  {
    if w.a.active {
      Go(w, EndInput);
      EndAnnounces(w.a);
      v := StepLeft(w, EndInput);
    } else {
      TowardSelf(w);
      v := w;
    }
  }

  lemma EndBoth(w: World) returns (v: World)
    requires Sane(w)
    ensures Toward(w, v) && Announced(v.a) && Announced(v.b)
  {
    var u := EndLeft(w);
    v := EndLeft(u.Swap());
    TowardMirror(u, v);
    v := v.Swap();
    TowardOn(w, u, v);
  }

  lemma ClosedHasSyn(c: Connection)
    requires ConnectionInv(c) && !Error(c) && !c.receiver.gotSyn
    ensures c.active
  {
  }

  lemma ArriveReceiver(c: Connection, seg: Segment)
    requires c.Handles(seg) && c.active && !c.BeforeSyn(seg) && !seg.header.rst
    ensures c.CanProcess(seg) && c.SegmentReceived(seg).receiver == c.receiver.SegmentReceived(seg)
  {
    ProcessReceiver(c, seg);
  }

  // ---- one direction makes progress ----

  lemma DrainLeft(w: World) returns (v: World)
    requires Sane(w)
    ensures Toward(w, v) && v.b == w.b && v.a == w.a.ReadInbound(w.a.Inbound().Buffered())
    ensures v.a.receiver.Valid() && v.a.Inbound().Buffered() == 0 && v.ba == w.ba
  {
    var read := Read(w.a.Inbound().Buffered());
    Go(w, read);
    v := StepLeft(w, read);
  }

  /** The next byte, or the FIN at the next position, goes into an empty buffer. */
  lemma TakesNext(n: Receiver, g: Segment, index: nat)
    requires n.Valid() && n.CanTake(g, index) && n.reas.out.Buffered() == 0 && index <= n.reas.Next()
    requires n.reas.Next() < index + |g.payload| || (n.gotFin && n.finSeqno == 1 + n.reas.Next())
    ensures n.Take(g, index).AbsAckno() > 1 + n.reas.Next()
  {
    if n.reas.Next() < index + |g.payload| {
      ReassemblerRuns.PushAdvances(n.reas, n.Accepted(g, index), index, g.header.fin && n.Whole(g, index));
    }
    TakeFrame(n, g, index);
  }

  lemma NotReached(r: Receiver, s: Sender)
    requires Matches(r, s) && r.gotSyn && r.AbsAckno() < s.next
    ensures r.AbsAckno() == 1 + r.reas.Next()
  {
  }

  /** A segment over the next position moves the acknowledgment number of a receiver whose buffer is empty. */
  lemma NextArrives(r: Receiver, g: Segment, s: Sender, abs: nat)
    requires Matches(r, s) && r.gotSyn && Carries(g, abs, s.isn, s.stream) && r.reas.out.Buffered() == 0
    requires abs <= r.AbsAckno() < abs + g.LengthInSequenceSpace() <= s.next <= r.WindowEnd() + 1
    ensures r.Handles(g) && r.SegmentReceived(g).AbsAckno() > r.AbsAckno()
  {
    NotReached(r, s);
    NotedData(r, g, s, abs);
    CarriesExcerpt(g, abs, s);
    DeliverData(r, g, s, abs);
    TakesNext(r.Noted(g), g, abs - 1);
  }

  /** Asking again: a segment that takes sequence space makes the left endpoint repeat its acknowledgment and window. */
  lemma Ask(w: World, seg: Segment) returns (g: Segment)
    requires Sane(w) && w.a.active && seg in w.ba && !w.a.BeforeSyn(seg) && !seg.header.rst && seg.LengthInSequenceSpace() > 0
    ensures Enabled(w.a, Arrive(seg))
    ensures var d := w.a.SegmentReceived(seg);
            g in Sent(d) && d.receiver.Valid() && Confirms(g, d.receiver) && g.header.win == d.Advertised()
  {
    NeverAborts(w.a, w.b, w.ab, w.ba, Arrive(seg));
    assert w.a.CanProcess(seg);
    g := Reply(w.a, seg);
  }

  /** With room in the window and something left to send, something is sent. */
  lemma FillMoves(s: Sender)
    requires SenderInv(s) && s.CanFill() && s.sentSyn && !s.sentAll && s.stream.ended && s.next < s.Edge()
    ensures s.FillWindow().next > s.next
  {
    FillKeeps(s);
  }

  lemma AckMoves(s: Sender, ackno: u32, win: u16)
    requires SenderInv(s) && s.sentSyn && s.AbsSeqno(ackno) == s.next && win > 0
    ensures var t := s.AckReceived(ackno, win);
            && SenderInv(t) && t.CanFill() && t.sentSyn && t.sentAll == s.sentAll && t.stream == s.stream && t.next == s.next < t.Edge()
  {
    AckReceivedKeeps(s, ackno, win);
    AckFrame(s, s.next, win);
  }

  lemma AnswerNext(t: Connection, seg: Segment)
    requires t.receiver.Valid() && t.sender.CanFill()
    ensures t.Answer(seg).SendAll().TryToEndCleanly().sender.next == t.sender.FillWindow().next
  {
    SendAllFlushes(t.Answer(seg));
    EndSender(t.Answer(seg).SendAll());
  }

  /** An acknowledgment of everything sent, with a window, lets a sender with something left send on. */
  lemma AckArrives(c: Connection, g: Segment)
    requires ConnectionInv(c) && c.active && c.Handles(g) && c.receiver.gotSyn && !g.header.rst
    requires c.sender.sentSyn && !c.sender.sentAll && c.Outbound().ended
    requires g.header.ack && g.header.win > 0 && c.sender.AbsSeqno(g.header.ackno) == c.sender.next
    ensures c.SegmentReceived(g).sender.next > c.sender.next
  {
    var k := c.Receive(g).AnswerKeepAlive(g);
    SendEmptyKeeps(c.sender);
    KeepAliveSender(c.Receive(g), g);
    AckMoves(k.sender, g.header.ackno, g.header.win);
    var t := c.Taken(g);
    assert t.sender == k.sender.AckReceived(g.header.ackno, g.header.win);
    FillMoves(t.sender);
    AnswerNext(t, g);
  }

  /** The offer decodes as it is meant. */
  lemma OfferDecodes(r: Receiver, s: Sender, g: Segment)
    requires Matches(r, s) && Confirms(g, r) && r.AbsAckno() == s.next && s.checkpoint <= s.next
    ensures s.AbsSeqno(g.header.ackno) == s.next
  {
    UnwrapWrap(s.next, s.isn, s.checkpoint);
  }

  lemma GoRight(w: World, e: Event) returns (v: World)
    requires Sane(w) && Careful(w.b, e, w.ab)
    ensures Enabled(w.b, e) && Toward(w, v) && v == StepRight(w, e)
  {
    Go(w.Swap(), e);
    TowardMirror(w, StepLeft(w.Swap(), e));
    v := StepLeft(w.Swap(), e).Swap();
  }

  // ---- one direction completes ----

  /** Everything `x` will ever send, its FIN included, has reached `y`. */
  predicate Complete(x: Connection, y: Connection) {
    x.sender.sentAll && y.receiver.gotSyn && y.receiver.AbsAckno() == x.sender.next
  }

  predicate Talking(w: World) {
    w.a.receiver.gotSyn && w.b.receiver.gotSyn && Announced(w.a) && Announced(w.b)
  }

  lemma EndedComplete(x: Connection, y: Connection)
    requires ConnectionInv(y) && Matches(y.receiver, x.sender) && y.Inbound().ended
    ensures Complete(x, y)
  {
  }

  /** A connection that closed without error has both directions behind it. */
  lemma ClosedComplete(w: World)
    requires Sane(w) && !w.a.active
    ensures Complete(w.a, w.b) && Complete(w.b, w.a)
  {
    LinkFaithful(w.a, w.b, w.ab, w.ba);
    EndedComplete(w.a, w.b);
    EndedComplete(w.b, w.a);
  }

  lemma CompleteStays(w: World, v: World)
    requires Sane(w) && Sane(v) && Ahead(w, v) && Complete(w.b, w.a)
    ensures Complete(v.b, v.a)
  {
    AckBelowNext(v.a.receiver, v.b.sender);
  }

  // ---- closing ----

  /** Nothing is left to do but to wait. */
  predicate Ripe(c: Connection) {
    c.InboundDone() && c.Outbound().Eof() && c.sentFin && c.finAcked && c.sender.outstanding == []
  }

  lemma RipeCloses(c: Connection)
    requires ConnectionInv(c) && c.active && Ripe(c)
    ensures c.CanTick()
    ensures var d := c.Tick(10 * c.cfg.rtTimeout);
            !d.active || (d.lingerBegin && Ripe(d))
  {
    var ms := 10 * c.cfg.rtTimeout;
    QueueTotal(c.sender);
    TickCases(c, ms);
    SendAllFlushes(Ticked(c, ms));
  }

  lemma WaitLeft(w: World) returns (v: World)
    requires Sane(w) && (w.a.active ==> Ripe(w.a))
    ensures Toward(w, v) && !v.a.active && v.b == w.b
  {
    if !w.a.active {
      TowardSelf(w);
      v := w;
    } else {
      var tick := Event.Tick(10 * w.a.cfg.rtTimeout);
      Go(w, tick);
      RipeCloses(w.a);
      var u := StepLeft(w, tick);
      v := LingerLeft(u);
      TowardOn(w, u, v);
    }
  }

  lemma LingerLeft(w: World) returns (v: World)
    requires Sane(w) && (w.a.active ==> w.a.lingerBegin && Ripe(w.a))
    ensures Toward(w, v) && !v.a.active && v.b == w.b
  {
    if !w.a.active {
      TowardSelf(w);
      v := w;
    } else {
      var tick := Event.Tick(10 * w.a.cfg.rtTimeout);
      Go(w, tick);
      CleanClose.LingerExpires(w.a);
      v := StepLeft(w, tick);
    }
  }

  lemma AckEmpties(s: Sender, ackno: u32, win: u16)
    requires SenderInv(s) && s.AbsSeqno(ackno) == s.next
    ensures var t := s.AckReceived(ackno, win); t.inFlight == 0 && t.outstanding == [] && t.sentAll == s.sentAll && t.sentSyn == s.sentSyn
  {
    AckReceivedKeeps(s, ackno, win);
    QueueTotal(s.AckReceived(ackno, win));
  }

  /** An acknowledged FIN and nothing outstanding. */
  predicate Settled(c: Connection) {
    c.sender.sentSyn && c.sender.sentAll && c.sender.outstanding == [] && c.sentFin && c.finAcked
  }

  lemma TakenSettled(c: Connection, g: Segment)
    requires ConnectionInv(c) && c.active && c.CanProcess(g) && !c.BeforeSyn(g)
    requires c.sender.sentAll && g.header.ack && c.sender.AbsSeqno(g.header.ackno) == c.sender.next
    ensures Settled(c.Taken(g))
  {
    TakenFrame(c, g);
    SendEmptyKeeps(c.sender);
    KeepAliveSender(c.Receive(g), g);
    var k := c.Receive(g).AnswerKeepAlive(g);
    AckEmpties(k.sender, g.header.ackno, g.header.win);
  }

  lemma AnswerSettled(t: Connection, g: Segment)
    requires t.receiver.Valid() && t.sender.CanFill() && Settled(t)
    ensures Settled(t.Answer(g).SendAll().TryToEndCleanly())
  {
    assert t.sender.FillWindow() == t.sender;
    SendAllFlushes(t.Answer(g));
    EndSender(t.Answer(g).SendAll());
  }

  /** The acknowledgment of everything leaves nothing outstanding, and an inbound stream that is over stays so. */
  lemma AckSettles(c: Connection, g: Segment)
    requires ConnectionInv(c) && c.active && c.Handles(g) && c.receiver.gotSyn && !g.header.rst && c.Inbound().Eof()
    requires c.sender.sentAll && g.header.ack && c.sender.AbsSeqno(g.header.ackno) == c.sender.next
    ensures Settled(c.SegmentReceived(g)) && c.SegmentReceived(g).Inbound().Eof()
  {
    assert c.CanProcess(g);
    TakenSettled(c, g);
    AnswerSettled(c.Taken(g), g);
    ArriveReceiver(c, g);
    ReceivedFrame(c.receiver, g);
  }

  lemma SettledRipe(w: World)
    requires WorldInv(w) && Settled(w.a) && w.a.Inbound().Eof()
    ensures Ripe(w.a)
  {
    LinkFaithful(w.b, w.a, w.ba, w.ab);
  }

  lemma DrainedEof(w: World)
    requires Sane(w) && Complete(w.b, w.a) && w.a.Inbound().Buffered() == 0
    ensures w.a.Inbound().Eof()
  {
    AckBelowNext(w.a.receiver, w.b.sender);
  }
}
