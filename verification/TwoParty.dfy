/** Two connections over a network that loses, repeats and reorders segments. */
module TwoParty {
  import opened WrappingIntegers
  import opened ByteStreams
  import opened TcpSegments
  import opened Sending
  import opened SenderInvariants
  import opened SenderSteps
  import opened Connecting
  import opened ConnectionInvariants
  import opened ConnectionRuns
  import opened Flow
  import opened Emission
  import opened Sides

  /** The two endpoints, and every segment each of them ever sent: the network may deliver any of
      these, any number of times, in any order, or never. */
  datatype World = World(a: Connection, b: Connection, ab: set<Segment>, ba: set<Segment>) {
    function Swap(): World {
      World(b, a, ba, ab)
    }
  }

  /** What ties the sender of `x` to the receiver of `y`. */
  ghost predicate Link(x: Connection, y: Connection, xy: set<Segment>, yx: set<Segment>) {
    && Matches(y.receiver, x.sender)
    && Restrained(x.sender, y.receiver)
    && (forall g :: g in xy ==> SentBy(g, x.sender))
    && (forall g :: g in yx ==> Acks(g, y.receiver))
  }

  /** The stream with SYN and FIN stays below half the sequence space. */
  predicate Short(s: Stream) {
    |s.written| + 2 < HALF
  }

  ghost predicate WorldInv(w: World) {
    && ConnectionInv(w.a) && ConnectionInv(w.b) && w.a.out == [] && w.b.out == []
    && Short(w.a.Outbound()) && Short(w.b.Outbound())
    && Link(w.a, w.b, w.ab, w.ba) && Link(w.b, w.a, w.ba, w.ab)
  }

  /** What an endpoint may be asked to do: receive something the peer sent, or a call its caller is
      allowed to make. */
  predicate Offered(c: Connection, e: Event, inbox: set<Segment>) {
    match e
    case Arrive(seg) => seg in inbox
    case Write(data) => c.active && !c.Outbound().ended && c.Outbound().Valid() && Short(c.Outbound().Write(data))
    case EndInput => c.active
    case Connect => c.active && !c.sender.sentSyn
    case Tick(_) => true
    case Read(len) => c.Inbound().Valid() && len <= c.Inbound().Buffered()
    case Dequeue => true
  }

  lemma CallsEnabled(x: Connection, e: Event, inbox: set<Segment>)
    requires ConnectionInv(x) && x.out == [] && Offered(x, e, inbox) && !e.Arrive?
    ensures Enabled(x, e)
  {
    AlwaysEnabled(x, if e.Write? then e.data else [], if e.Tick? then e.ms else 0, if e.Read? then e.len else 0);
  }

  /** No assertion of the source fails, whatever the network delivers. */
  lemma NeverAborts(x: Connection, y: Connection, xy: set<Segment>, yx: set<Segment>, e: Event)
    requires ConnectionInv(x) && x.out == [] && Link(x, y, xy, yx) && Link(y, x, yx, xy) && Offered(x, e, yx)
    ensures Enabled(x, e)
  {
    if e.Arrive? {
      HandlesPeer(x, y, e.seg);
    } else {
      CallsEnabled(x, e, yx);
    }
  }

  lemma HandlesPeer(x: Connection, y: Connection, seg: Segment)
    requires ConnectionInv(x) && Matches(x.receiver, y.sender) && Matches(y.receiver, x.sender)
    requires Restrained(y.sender, x.receiver) && SentBy(seg, y.sender) && Acks(seg, y.receiver)
    ensures x.Handles(seg)
  {
    Deliver(x.receiver, seg, y.sender);
    var t := x.Taken(seg);
    if x.active && x.sender.sentSyn {
      if seg.header.ack {
        SendEmptyKeeps(x.sender);
        var c2 := x.Receive(seg).AnswerKeepAlive(seg);
        AckReceivedKeeps(c2.sender, seg.header.ackno, seg.header.win);
      }
    }
  }

  // ---- steps of the world ----

  function Sent(c: Connection): set<Segment> {
    set g | g in c.out
  }

  /** The left endpoint acts; what it puts out is on the network. */
  ghost function StepLeft(w: World, e: Event): World
    requires Enabled(w.a, e)
  {
    var d := Next(w.a, e);
    w.(a := d.Dequeue(), ab := w.ab + Sent(d))
  }

  ghost function StepRight(w: World, e: Event): World
    requires Enabled(w.b, e)
  {
    StepLeft(w.Swap(), e).Swap()
  }

  lemma DequeueKeeps(d: Connection)
    requires ConnectionInv(d)
    ensures ConnectionInv(d.Dequeue())
  {
  }

  /** The direction in which the acting endpoint `x` sends. */
  lemma LinkSends(x: Connection, y: Connection, xy: set<Segment>, yx: set<Segment>, e: Event)
    requires ConnectionInv(x) && x.out == [] && Enabled(x, e) && Link(x, y, xy, yx)
    requires e.Arrive? ==> Acks(e.seg, y.receiver)
    requires Short(Next(x, e).Outbound())
    ensures Link(Next(x, e).Dequeue(), y, xy + Sent(Next(x, e)), yx)
  {
    var d := Next(x, e);
    NextKeeps(x, e);
    EventExtends(x, e);
    EventSend(x, e, y.receiver);
    EventGood(x, e);
    MatchesLater(y.receiver, x.sender, d.sender);
    forall g | g in xy ensures SentBy(g, d.sender) {
      SentByLater(g, x.sender, d.sender);
    }
  }

  /** The direction in which the acting endpoint `y` receives. */
  lemma LinkReceives(x: Connection, y: Connection, xy: set<Segment>, yx: set<Segment>, e: Event)
    requires ConnectionInv(y) && y.out == [] && Enabled(y, e) && Link(x, y, xy, yx)
    requires e.Arrive? ==> SentBy(e.seg, x.sender)
    ensures Link(x, Next(y, e).Dequeue(), xy, yx + Sent(Next(y, e)))
  {
    var d := Next(y, e);
    EventRecv(y, e, x.sender);
    EventGood(y, e);
    RestrainedLater(x.sender, y.receiver, d.receiver);
    forall g | g in yx ensures Acks(g, d.receiver) {
      AcksLater(g, y.receiver, d.receiver);
    }
  }

  lemma AckWritten(s: Sender, ackno: u32, win: u16)
    ensures s.AckReceived(ackno, win).stream == s.stream && s.AckReceived(ackno, win).sent == s.sent
  {
    if s.AbsSeqno(ackno) <= s.next { AckFrame(s, s.AbsSeqno(ackno), win); }
  }

  lemma TakeAckWritten(c: Connection, seg: Segment)
    ensures c.TakeAck(seg).Outbound() == c.Outbound() && c.TakeAck(seg).sender.sent == c.sender.sent
  {
    AckWritten(c.sender, seg.header.ackno, seg.header.win);
  }

  lemma TakenWritten(c: Connection, seg: Segment)
    requires c.receiver.Valid() && c.receiver.Handles(seg)
    ensures c.Taken(seg).Outbound() == c.Outbound() && c.Taken(seg).sender.sent == c.sender.sent
  {
    var c1 := c.Receive(seg);
    assert c1.sender == c.sender;
    KeepAliveSender(c1, seg);
    var c2 := c1.AnswerKeepAlive(seg);
    assert c2.sender.stream == c.sender.stream && c2.sender.sent == c.sender.sent;
    TakeAckWritten(c2, seg);
  }

  lemma AnswerWritten(c: Connection, seg: Segment)
    requires c.sender.CanFill()
    ensures c.Answer(seg).Outbound() == c.Outbound().(read := c.Answer(seg).Outbound().read) && c.Answer(seg).receiver == c.receiver
  {
    FillStream(c.sender);
  }

  lemma ProcessWritten(c: Connection, seg: Segment)
    requires c.CanProcess(seg)
    ensures c.Process(seg).Outbound() == c.Outbound().(read := c.Process(seg).Outbound().read)
  {
    TakenWritten(c, seg);
    AnswerWritten(c.Taken(seg), seg);
    FlushWritten(c.Taken(seg).Answer(seg));
  }

  lemma TickWritten(c: Connection, ms: nat)
    requires c.CanTick()
    ensures c.Tick(ms).Outbound().written == c.Outbound().written
  {
    TickCases(c, ms);
    if c.active {
      TickFrame(c.sender, ms);
      SendAllFlushes(Ticked(c, ms));
      EndSender(Ticked(c, ms).SendAll());
    }
  }

  lemma ArriveWritten(c: Connection, seg: Segment)
    requires c.Handles(seg)
    ensures c.SegmentReceived(seg).Outbound().written == c.Outbound().written
  {
    if c.active && !c.BeforeSyn(seg) && !seg.header.rst { ProcessWritten(c, seg); }
  }

  lemma GrowWritten(c: Connection, b: Stream)
    requires c.receiver.Valid() && c.sender.(stream := b).CanFill()
    ensures c.(sender := c.sender.(stream := b).FillWindow()).SendAll().TryToEndCleanly().Outbound().written == b.written
  {
    var s := c.sender.(stream := b);
    FillStream(s);
    FlushWritten(c.(sender := s.FillWindow()));
  }

  lemma WriteWritten(c: Connection, data: seq<byte>)
    requires c.receiver.Valid() && c.sender.CanFill() && !c.Outbound().ended
    ensures c.Write(data).Outbound().written == c.Outbound().Write(data).written
  {
    GrowWritten(c, c.Outbound().Write(data));
  }

  lemma EndInputWritten(c: Connection)
    requires c.receiver.Valid() && c.sender.CanFill()
    ensures c.EndInputStream().Outbound().written == c.Outbound().written
  {
    GrowWritten(c, c.Outbound().EndInput());
  }

  lemma ConnectWritten(c: Connection)
    requires c.CanConnect()
    ensures c.Connect().Outbound().written == c.Outbound().written
  {
    FillStream(c.sender);
  }

  /** Only a write lengthens the outgoing stream. */
  lemma OutboundWritten(x: Connection, e: Event)
    requires Enabled(x, e)
    ensures Next(x, e).Outbound().written == if e.Write? then x.Outbound().Write(e.data).written else x.Outbound().written
  {
    match e
    case Arrive(seg) => ArriveWritten(x, seg);
    case Write(data) => WriteWritten(x, data);
    case EndInput => EndInputWritten(x);
    case Connect => ConnectWritten(x);
    case Tick(ms) => TickWritten(x, ms);
    case Read(_) =>
    case Dequeue =>
  }

  lemma LeftKeeps(w: World, e: Event)
    requires WorldInv(w) && Offered(w.a, e, w.ba)
    ensures Enabled(w.a, e) && WorldInv(StepLeft(w, e))
  {
    NeverAborts(w.a, w.b, w.ab, w.ba, e);
    OutboundWritten(w.a, e);
    NextKeeps(w.a, e);
    DequeueKeeps(Next(w.a, e));
    LinkSends(w.a, w.b, w.ab, w.ba, e);
    LinkReceives(w.b, w.a, w.ba, w.ab, e);
  }

  lemma SwapKeeps(w: World)
    requires WorldInv(w)
    ensures WorldInv(w.Swap())
  {
  }

  lemma RightKeeps(w: World, e: Event)
    requires WorldInv(w) && Offered(w.b, e, w.ab)
    ensures Enabled(w.b, e) && WorldInv(StepRight(w, e))
  {
    SwapKeeps(w);
    LeftKeeps(w.Swap(), e);
    SwapKeeps(StepLeft(w.Swap(), e));
  }

  // ---- runs of the world ----

  datatype Move = Move(left: bool, event: Event)

  function Actor(w: World, m: Move): Connection {
    if m.left then w.a else w.b
  }

  function Inbox(w: World, m: Move): set<Segment> {
    if m.left then w.ba else w.ab
  }

  ghost predicate CanMove(w: World, m: Move) {
    Offered(Actor(w, m), m.event, Inbox(w, m)) && Enabled(Actor(w, m), m.event)
  }

  ghost function Step(w: World, m: Move): World
    requires CanMove(w, m)
  {
    if m.left then StepLeft(w, m.event) else StepRight(w, m.event)
  }

  /** `v` is reached from `w` by the moves. */
  ghost predicate Leads(w: World, moves: seq<Move>, v: World)
    decreases |moves|
  {
    if moves == [] then w == v else CanMove(w, moves[0]) && Leads(Step(w, moves[0]), moves[1..], v)
  }

  function InitialWorld(cfgA: Config, cfgB: Config): World {
    World(InitialConnection(cfgA), InitialConnection(cfgB), {}, {})
  }

  lemma InitialWorldInv(cfgA: Config, cfgB: Config)
    requires cfgA.Valid() && cfgB.Valid()
    ensures WorldInv(InitialWorld(cfgA, cfgB))
  {
    InitialConnectionInv(cfgA);
    InitialConnectionInv(cfgB);
  }

  /** Whatever is offered goes through: in no state of no run does an assertion of the source fail. */
  lemma MoveKeeps(w: World, m: Move)
    requires WorldInv(w) && Offered(Actor(w, m), m.event, Inbox(w, m))
    ensures CanMove(w, m) && WorldInv(Step(w, m))
  {
    if m.left { LeftKeeps(w, m.event); } else { RightKeeps(w, m.event); }
  }

  lemma {:induction false} LeadsInv(w: World, moves: seq<Move>, v: World)
    requires WorldInv(w) && Leads(w, moves, v)
    ensures WorldInv(v)
    decreases |moves|
  {
    if moves != [] {
      MoveKeeps(w, moves[0]);
      LeadsInv(Step(w, moves[0]), moves[1..], v);
    }
  }

  /** Every reachable world satisfies the invariant, and nothing offered to it makes the source abort. */
  lemma ReachableInv(cfgA: Config, cfgB: Config, moves: seq<Move>, w: World, m: Move)
    requires cfgA.Valid() && cfgB.Valid() && Leads(InitialWorld(cfgA, cfgB), moves, w)
    ensures WorldInv(w)
    ensures Offered(Actor(w, m), m.event, Inbox(w, m)) ==> Enabled(Actor(w, m), m.event)
  {
    InitialWorldInv(cfgA, cfgB);
    LeadsInv(InitialWorld(cfgA, cfgB), moves, w);
    if Offered(Actor(w, m), m.event, Inbox(w, m)) { MoveKeeps(w, m); }
  }

  // ---- what it means ----

  /** One direction: the bytes delivered are a prefix of the bytes written, and the inbound stream ends
      only when the peer ended its input and every byte arrived. */
  predicate Faithful(x: Connection, y: Connection) {
    && y.Inbound().written <= x.Outbound().written
    && (y.Inbound().ended ==> x.Outbound().ended && y.Inbound().written == x.Outbound().written)
  }

  /** Everything `x` wrote arrived at `y`, and `y` knows the end. */
  predicate Delivered(x: Connection, y: Connection) {
    x.Outbound().ended && y.Inbound().ended && y.Inbound().written == x.Outbound().written
  }

  lemma LinkFaithful(x: Connection, y: Connection, xy: set<Segment>, yx: set<Segment>)
    requires ConnectionInv(x) && Link(x, y, xy, yx)
    ensures Faithful(x, y)
    ensures y.Inbound().ended ==> y.receiver.reas.pending == map[]
    ensures x.sentFin && x.finAcked ==> Delivered(x, y)
  {
    var sent := SentBytes(x.sender);
    assert sent <= x.Outbound().written;
    assert x.sender.sentAll ==> sent == x.Outbound().written;
    if x.sentFin && x.finAcked {
      QueueTotal(x.sender);
      AckBelowNext(y.receiver, x.sender);
    }
  }

  /** End-to-end safety, in both directions, over every run. */
  lemma EndToEnd(cfgA: Config, cfgB: Config, moves: seq<Move>, w: World)
    requires cfgA.Valid() && cfgB.Valid() && Leads(InitialWorld(cfgA, cfgB), moves, w)
    ensures Faithful(w.a, w.b) && Faithful(w.b, w.a)
  {
    ReachableInv(cfgA, cfgB, moves, w, Move(true, Dequeue));
    LinkFaithful(w.a, w.b, w.ab, w.ba);
    LinkFaithful(w.b, w.a, w.ba, w.ab);
  }

  /** FIN truth: once its FIN counts as acknowledged, everything an endpoint wrote is delivered and the
      peer's inbound stream has ended. */
  lemma AckedFinDelivered(cfgA: Config, cfgB: Config, moves: seq<Move>, w: World)
    requires cfgA.Valid() && cfgB.Valid() && Leads(InitialWorld(cfgA, cfgB), moves, w)
    ensures w.a.finAcked ==> Delivered(w.a, w.b)
    ensures w.b.finAcked ==> Delivered(w.b, w.a)
  {
    ReachableInv(cfgA, cfgB, moves, w, Move(true, Dequeue));
    LinkFaithful(w.a, w.b, w.ab, w.ba);
    LinkFaithful(w.b, w.a, w.ba, w.ab);
  }

  /** A clean close at one side means complete delivery in both directions: the peer has everything this
      side wrote, and this side has read everything the peer wrote, with nothing left unassembled. */
  lemma CleanCloseDelivers(cfgA: Config, cfgB: Config, moves: seq<Move>, w: World)
    requires cfgA.Valid() && cfgB.Valid() && Leads(InitialWorld(cfgA, cfgB), moves, w)
    requires !w.a.active && !Error(w.a)
    ensures Delivered(w.a, w.b) && Delivered(w.b, w.a)
    ensures w.a.Inbound().read == |w.b.Outbound().written| && w.a.receiver.reas.pending == map[]
  {
    ReachableInv(cfgA, cfgB, moves, w, Move(true, Dequeue));
    LinkFaithful(w.a, w.b, w.ab, w.ba);
    LinkFaithful(w.b, w.a, w.ba, w.ab);
  }

  /** Window agreement: no segment ever sent reaches more than one position past the receiver's right
      edge, and a FIN always fits. */
  lemma WindowAgreement(cfgA: Config, cfgB: Config, moves: seq<Move>, w: World, g: Segment)
    requires cfgA.Valid() && cfgB.Valid() && Leads(InitialWorld(cfgA, cfgB), moves, w) && g in w.ab
    ensures w.b.receiver.Valid() && w.a.sender.next <= w.b.receiver.WindowEnd() + 1
    ensures SentBy(g, w.a.sender)
    ensures g.header.fin ==> |w.a.Outbound().written| + 1 <= w.b.receiver.WindowEnd()
  {
    ReachableInv(cfgA, cfgB, moves, w, Move(true, Dequeue));
    if g.header.fin {
      var abs: nat :| abs + g.LengthInSequenceSpace() <= w.a.sender.next && Carries(g, abs, w.a.sender.isn, w.a.sender.stream);
    }
  }

  lemma MoveProgress(w: World, m: Move)
    requires WorldInv(w) && CanMove(w, m)
    ensures Progress(w.a.receiver, Step(w, m).a.receiver) && Progress(w.b.receiver, Step(w, m).b.receiver)
  {
    if m.left {
      EventRecv(w.a, m.event, w.b.sender);
    } else {
      EventRecv(w.b, m.event, w.a.sender);
    }
  }

  lemma {:induction false} LeadsProgress(w: World, moves: seq<Move>, v: World)
    requires WorldInv(w) && Leads(w, moves, v)
    ensures Progress(w.a.receiver, v.a.receiver) && Progress(w.b.receiver, v.b.receiver)
    decreases |moves|
  {
    if moves != [] {
      MoveProgress(w, moves[0]);
      MoveKeeps(w, moves[0]);
      LeadsProgress(Step(w, moves[0]), moves[1..], v);
    }
  }

  /** Between any two worlds of a run the acknowledgment numbers and the right edges of both sides never retreat. */
  lemma EdgeNeverRetreats(cfgA: Config, cfgB: Config, moves: seq<Move>, w: World, more: seq<Move>, v: World)
    requires cfgA.Valid() && cfgB.Valid() && Leads(InitialWorld(cfgA, cfgB), moves, w) && Leads(w, more, v)
    ensures Progress(w.a.receiver, v.a.receiver) && Progress(w.b.receiver, v.b.receiver)
  {
    ReachableInv(cfgA, cfgB, moves, w, Move(true, Dequeue));
    LeadsProgress(w, more, v);
  }
}
