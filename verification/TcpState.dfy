/** The state a connection reports: a summary of its sender, its receiver and its two flags, and the
    states of the TCP state diagram these summaries stand for. */
module TcpStates {
  import opened ByteStreams
  import opened TcpSegments
  import opened Sending
  import opened SenderInvariants
  import opened SenderSteps
  import opened Receiving
  import opened Connecting
  import opened ConnectionInvariants
  import opened ConnectionRuns
  import Sides

  datatype SenderState = SenderError | Closed | SynSentState | SynAcked | FinSent | FinAcked {
    function Rank(): nat {
      match this
      case Closed => 0
      case SynSentState => 1
      case SynAcked => 2
      case FinSent => 3
      case FinAcked => 4
      case SenderError => 5
    }
  }

  datatype ReceiverState = ReceiverError | Listen | SynRecv | FinRecv {
    function Rank(): nat {
      match this
      case Listen => 0
      case SynRecv => 1
      case FinRecv => 2
      case ReceiverError => 3
    }
  }

  datatype TcpState = TcpState(sender: SenderState, receiver: ReceiverState, active: bool, linger: bool)

  function SenderSummary(s: Sender): SenderState {
    if s.stream.error then SenderError
    else if s.next == 0 then Closed
    else if s.next == s.inFlight then SynSentState
    else if !s.stream.Eof() then SynAcked
    else if s.next < |s.stream.written| + 2 then SynAcked
    else if s.inFlight != 0 then FinSent
    else FinAcked
  }

  function ReceiverSummary(r: Receiver): ReceiverState {
    if r.reas.out.error then ReceiverError
    else if !r.gotSyn then Listen
    else if r.reas.out.ended then FinRecv
    else SynRecv
  }

  function StateOf(c: Connection): TcpState {
    TcpState(SenderSummary(c.sender), ReceiverSummary(c.receiver), c.active, c.active && c.linger)
  }

  // ---- what the summaries mean ----

  /** The segment at number 0 is the SYN, one number long. */
  lemma FirstIsSyn(s: Sender)
    requires QueueInv(s) && SentInv(s) && s.outstanding != [] && s.outstanding[0].absSeqno == 0
    ensures s.outstanding[0].AbsEnd() == 1
  {
    SuffixRest(s.outstanding, s.sent);
  }

  /** The counters the summary compares tell the phase: SYN sent, SYN acknowledged, FIN sent, FIN acknowledged. */
  lemma SenderMeaning(s: Sender)
    requires QueueInv(s) && StreamInv(s) && SentInv(s)
    ensures SenderSummary(s) ==
            if s.stream.error then SenderError
            else if !s.sentSyn then Closed
            else if s.checkpoint == 0 then SynSentState
            else if !s.sentAll then SynAcked
            else if s.checkpoint < s.next then FinSent
            else FinAcked
  {
    QueueTotal(s);
    if s.outstanding != [] && s.outstanding[0].absSeqno == 0 { FirstIsSyn(s); }
  }

  lemma SenderForward(s: Sender, t: Sender)
    requires QueueInv(s) && StreamInv(s) && SentInv(s) && QueueInv(t) && StreamInv(t) && SentInv(t) && Extends(s, t)
    ensures SenderSummary(s).Rank() <= SenderSummary(t).Rank()
  {
    SenderMeaning(s);
    SenderMeaning(t);
  }

  ghost predicate Advances(r: Receiver, d: Receiver) {
    && (r.gotSyn ==> d.gotSyn) && (r.reas.out.ended ==> d.reas.out.ended)
    && (r.reas.out.error ==> d.reas.out.error)
    && r.reas.Next() <= d.reas.Next() && (r.reas.eof ==> d.reas.eof && d.reas.eofIndex == r.reas.eofIndex)
  }

  lemma ArriveAdvances(c: Connection, seg: Segment)
    requires ConnectionInv(c) && c.Handles(seg)
    ensures Advances(c.receiver, c.SegmentReceived(seg).receiver)
  {
    if c.active && !c.BeforeSyn(seg) && !seg.header.rst {
      ReceivedFrame(c.receiver, seg);
      Sides.ProcessReceiver(c, seg);
    }
  }

  lemma TickAdvances(c: Connection, ms: nat)
    requires ConnectionInv(c) && c.CanTick()
    ensures Advances(c.receiver, c.Tick(ms).receiver)
  {
    TickCases(c, ms);
    if c.active {
      var t := Ticked(c, ms);
      SendAllFlushes(t);
      Sides.EndReceiver(t.SendAll());
    }
  }

  lemma WriteReceiver(c: Connection, data: seq<byte>)
    requires c.receiver.Valid() && c.sender.CanFill() && !c.Outbound().ended
    ensures c.Write(data).receiver == c.receiver
  {
    Sides.FlushReceiver(c.(sender := c.sender.(stream := c.sender.stream.Write(data)).FillWindow()));
  }

  lemma EndInputReceiver(c: Connection)
    requires c.receiver.Valid() && c.sender.CanFill()
    ensures c.EndInputStream().receiver == c.receiver
  {
    Sides.FlushReceiver(c.(sender := c.sender.(stream := c.sender.stream.EndInput()).FillWindow()));
  }

  lemma EventAdvances(c: Connection, e: Event)
    requires ConnectionInv(c) && Enabled(c, e)
    ensures Advances(c.receiver, Next(c, e).receiver)
  {
    match e
    case Arrive(seg) => ArriveAdvances(c, seg);
    case Write(data) => WriteReceiver(c, data);
    case EndInput => EndInputReceiver(c);
    case Tick(ms) => TickAdvances(c, ms);
    case _ =>
  }

  // ---- states only move forward ----

  /** `t` is at or after `s` along CLOSED, SYN_SENT, SYN_ACKED, FIN_SENT, FIN_ACKED and along LISTEN,
      SYN_RECV, FIN_RECV, with ERROR after everything; so nothing leaves ERROR. */
  predicate NotBefore(s: TcpState, t: TcpState) {
    s.sender.Rank() <= t.sender.Rank() && s.receiver.Rank() <= t.receiver.Rank()
  }

  /** Against any peer, every event moves both summaries forward or leaves them. */
  lemma EventSummary(c: Connection, e: Event)
    requires ConnectionInv(c) && Enabled(c, e)
    ensures ConnectionInv(Next(c, e))
    ensures SenderSummary(c.sender).Rank() <= SenderSummary(Next(c, e).sender).Rank()
  {
    NextKeeps(c, e);
    EventExtends(c, e);
    SenderForward(c.sender, Next(c, e).sender);
  }

  lemma EventForward(c: Connection, e: Event)
    requires ConnectionInv(c) && Enabled(c, e)
    ensures NotBefore(StateOf(c), StateOf(Next(c, e)))
  {
    EventSummary(c, e);
    EventAdvances(c, e);
  }

  /** From any reachable state on, whatever happens, the states only move forward. */
  lemma {:induction false} StatesMoveForward(c: Connection, events: seq<Event>, d: Connection)
    requires ConnectionInv(c) && Reaches(c, events, d)
    ensures NotBefore(StateOf(c), StateOf(d))
    decreases |events|
  {
    if events != [] {
      EventForward(c, events[0]);
      NextKeeps(c, events[0]);
      StatesMoveForward(Next(c, events[0]), events[1..], d);
    }
  }

  // ---- the states of the diagram ----

  datatype Name = LISTEN | SYN_RCVD | SYN_SENT | ESTABLISHED | CLOSE_WAIT | LAST_ACK | CLOSING
                | FIN_WAIT_1 | FIN_WAIT_2 | TIME_WAIT | RESET | CLOSED

  function Official(n: Name): TcpState {
    match n
    case LISTEN => TcpState(Closed, Listen, true, true)
    case SYN_RCVD => TcpState(SynSentState, SynRecv, true, true)
    case SYN_SENT => TcpState(SynSentState, Listen, true, true)
    case ESTABLISHED => TcpState(SynAcked, SynRecv, true, true)
    case CLOSE_WAIT => TcpState(SynAcked, FinRecv, true, false)
    case LAST_ACK => TcpState(FinSent, FinRecv, true, false)
    case CLOSING => TcpState(FinSent, FinRecv, true, true)
    case FIN_WAIT_1 => TcpState(FinSent, SynRecv, true, true)
    case FIN_WAIT_2 => TcpState(FinAcked, SynRecv, true, true)
    case TIME_WAIT => TcpState(FinAcked, FinRecv, true, true)
    case RESET => TcpState(SenderError, ReceiverError, false, false)
    case CLOSED => TcpState(FinAcked, FinRecv, false, false)
  }

  /** The states between those of the diagram: the peer's whole stream came before it acknowledged our
      SYN; it ended but the application has not drained it; we finished second and are about to close. */
  predicate Between(s: TcpState) {
    && s.active && s.receiver == FinRecv
    && (s.sender == SynSentState || (s.sender == SynAcked && s.linger) || (s.sender == FinAcked && !s.linger))
  }

  /** Lingering is given up only after the peer's stream ended, and nothing of ours is acknowledged
      before the peer's SYN. */
  predicate StateBook(c: Connection) {
    && (c.active && !c.linger ==> c.Inbound().ended)
    && (c.sender.checkpoint > 0 ==> c.receiver.gotSyn)
  }

  lemma FlushBook(d: Connection)
    requires d.receiver.Valid() && StateBook(d)
    ensures StateBook(d.SendAll().TryToEndCleanly())
  {
    SendAllFlushes(d);
  }

  lemma TakenBook(c: Connection, seg: Segment)
    requires c.receiver.Valid() && c.receiver.Handles(seg) && !c.BeforeSyn(seg) && StateBook(c)
    ensures StateBook(c.Taken(seg)) && c.Taken(seg).receiver.gotSyn
  {
    ReceivedSyn(c.receiver, seg);
    ReceivedFrame(c.receiver, seg);
    TakenFlags(c, seg);
  }

  lemma ArriveBook(c: Connection, seg: Segment)
    requires ConnectionInv(c) && c.Handles(seg) && StateBook(c)
    ensures StateBook(c.SegmentReceived(seg))
  {
    if c.active && !c.BeforeSyn(seg) && !seg.header.rst {
      TakenBook(c, seg);
      var t := c.Taken(seg);
      assert t.Answer(seg) == t.(sender := t.Answer(seg).sender);
      FlushBook(t.Answer(seg));
    }
  }

  lemma GrowBook(c: Connection, b: Stream)
    requires ConnectionInv(c) && c.active && StateBook(c)
    requires Grows(c.Outbound(), b) && b.Valid() && b.read == c.Outbound().read && b.error == c.Outbound().error
    ensures var d := c.(sender := c.sender.(stream := b));
            d.sender.CanFill() && StateBook(d.(sender := d.sender.FillWindow()).SendAll().TryToEndCleanly())
  {
    StreamGrows(c.sender, b);
    var s := c.sender.(stream := b);
    FillKeeps(s);
    FlushBook(c.(sender := s.FillWindow()));
  }

  lemma WriteBook(c: Connection, data: seq<byte>)
    requires ConnectionInv(c) && c.active && StateBook(c) && !c.Outbound().ended && c.sender.CanFill()
    ensures StateBook(c.Write(data))
  {
    GrowBook(c, c.Outbound().Write(data));
  }

  lemma EndInputBook(c: Connection)
    requires ConnectionInv(c) && c.active && StateBook(c) && c.sender.CanFill()
    ensures StateBook(c.EndInputStream())
  {
    GrowBook(c, c.Outbound().EndInput());
  }

  lemma TickBook(c: Connection, ms: nat)
    requires ConnectionInv(c) && c.CanTick() && StateBook(c)
    ensures StateBook(c.Tick(ms))
  {
    TickCases(c, ms);
    if c.active {
      TickFrame(c.sender, ms);
      SendAllFlushes(Ticked(c, ms));
      var d := Ticked(c, ms).SendAll();
      assert StateBook(d);
      assert StateBook(d.AfterTick());
    }
  }

  lemma EventBook(c: Connection, e: Event)
    requires ConnectionInv(c) && Enabled(c, e) && StateBook(c)
    ensures StateBook(Next(c, e))
  {
    match e
    case Arrive(seg) => ArriveBook(c, seg);
    case Write(data) => WriteBook(c, data);
    case EndInput => EndInputBook(c);
    case Tick(ms) => TickBook(c, ms);
    case Connect => FillKeeps(c.sender);
    case _ =>
  }

  /** Of all the combinations, an active connection shows only the states of the diagram and those between. */
  lemma ActiveState(c: Connection)
    requires ConnectionInv(c) && StateBook(c) && c.active
    ensures Between(StateOf(c)) || exists n :: n != RESET && n != CLOSED && StateOf(c) == Official(n)
  {
    SenderMeaning(c.sender);
    var s := StateOf(c);
    if s.receiver == Listen {
      assert s == Official(if s.sender == Closed then LISTEN else SYN_SENT);
    } else if s.receiver == SynRecv {
      assert s == Official(match s.sender case SynSentState => SYN_RCVD case SynAcked => ESTABLISHED
                                          case FinSent => FIN_WAIT_1 case _ => FIN_WAIT_2);
    } else if !Between(s) {
      assert s == Official(match s.sender case SynAcked => CLOSE_WAIT case FinAcked => TIME_WAIT
                                          case _ => if s.linger then CLOSING else LAST_ACK);
    }
  }

  /** An inactive connection is reset or closed, by its error flags. */
  lemma InactiveState(c: Connection)
    requires ConnectionInv(c) && !c.active
    ensures StateOf(c) == Official(if Error(c) then RESET else CLOSED)
  {
    SenderMeaning(c.sender);
    QueueTotal(c.sender);
  }

  lemma {:induction false} ReachesBook(c: Connection, events: seq<Event>, d: Connection)
    requires ConnectionInv(c) && StateBook(c) && Reaches(c, events, d)
    ensures StateBook(d)
    decreases |events|
  {
    if events != [] {
      EventBook(c, events[0]);
      NextKeeps(c, events[0]);
      ReachesBook(Next(c, events[0]), events[1..], d);
    }
  }

  /** In every run against any peer, the reported state is one of the diagram's, or one between. */
  lemma RunStates(cfg: Config, events: seq<Event>, c: Connection)
    requires cfg.Valid() && Reaches(InitialConnection(cfg), events, c)
    ensures !c.active ==> StateOf(c) == Official(if Error(c) then RESET else CLOSED)
    ensures c.active ==> Between(StateOf(c)) || exists n :: n != RESET && n != CLOSED && StateOf(c) == Official(n)
  {
    RunInv(cfg, events, c);
    InitialConnectionInv(cfg);
    ReachesBook(InitialConnection(cfg), events, c);
    if c.active { ActiveState(c); } else { InactiveState(c); }
  }
}
