/** What a TCP connection means: sender, receiver and the closing flags as a value, and each public
    operation as a function on it. */
module Connecting {
  import opened WrappingIntegers
  import opened ByteStreams
  import opened TcpSegments
  import opened Sending
  import opened Receiving

  datatype Config = Config(rtTimeout: u16, recvCapacity: nat, sendCapacity: nat, isn: u32) {
    predicate Valid() {
      0 < rtTimeout && 0 < recvCapacity && 0 < sendCapacity
    }
  }

  datatype Connection = Connection(
    cfg: Config, sender: Sender, receiver: Receiver, out: seq<Segment>,
    linger: bool, lingerBegin: bool, sinceLast: nat,
    active: bool, sentSyn: bool, sentFin: bool, finAcked: bool, finSeqno: nat)
  {
    function Inbound(): Stream {
      receiver.reas.out
    }

    function Outbound(): Stream {
      sender.stream
    }

    // ---- sending ----

    /** The window field holds 16 bits. */
    function Advertised(): u16
      requires receiver.Valid()
    {
      if receiver.WindowSize() > 0xffff then 0xffff else receiver.WindowSize()
    }

    /** The receiver's part of an outgoing header. */
    function Stamp(seg: Segment): Segment
      requires receiver.Valid()
    {
      var h := seg.header.(win := Advertised());
      seg.(header := if receiver.gotSyn then h.(ack := true, ackno := receiver.Ackno()) else h)
    }

    /** What `send_all` asserts of each segment. */
    predicate CanSendAll() {
      && receiver.Valid()
      && (sender.out == [] || sentSyn || sender.out[0].header.syn)
      && (forall g :: g in sender.out && g.header.fin ==> Outbound().Eof())
    }

    function SendOne(): Connection
      requires receiver.Valid() && sender.out != []
    {
      var g := sender.out[0];
      this.(sender := sender.(out := sender.out[1..]), out := out + [Stamp(g)],
            sentSyn := sentSyn || g.header.syn, sentFin := sentFin || g.header.fin,
            finSeqno := if g.header.fin then 1 + Outbound().read else finSeqno)
    }

    function SendAll(): Connection
      requires receiver.Valid()
      decreases |sender.out|
    {
      if sender.out == [] then this else SendOne().SendAll()
    }

    function SendRst(): Connection
      requires receiver.Valid()
    {
      if !receiver.gotSyn then this
      else this.(out := out + [Segment(DEFAULT_HEADER.(rst := true, seqno := sender.NextSeqno(), ack := true,
                                                       ackno := receiver.Ackno(), win := Advertised()), [])])
    }

    // ---- closing ----

    predicate InboundDone() {
      Inbound().Eof() && receiver.reas.pending == map[]
    }

    predicate OutboundDone() {
      Outbound().Eof() && sentFin && sender.inFlight == 0
    }

    function EndCleanly(): Connection {
      if linger then this.(lingerBegin := true)
      else this.(sender := sender.(stream := sender.stream.EndInput()),
                 receiver := receiver.(reas := receiver.reas.(out := receiver.reas.out.EndInput())),
                 active := false)
    }

    function EndUncleanly(): Connection {
      this.(sender := sender.(stream := sender.stream.SetError()),
            receiver := receiver.(reas := receiver.reas.(out := receiver.reas.out.SetError())),
            lingerBegin := false, linger := false, active := false)
    }

    function TryToEndCleanly(): Connection {
      if InboundDone() && OutboundDone() && finAcked then EndCleanly() else this
    }

    /** The peer finished first and the application has read it all: no need to linger. */
    function CheckNotNeedToLinger(): Connection {
      if Inbound().Eof() && !Outbound().Eof() then this.(linger := false) else this
    }

    // ---- a segment arrives ----

    predicate BeforeSyn(seg: Segment) {
      !receiver.gotSyn && !seg.header.syn
    }

    /** The only segment taken before the peer's SYN: a reset that acknowledges exactly our SYN. */
    predicate ResetBeforeSyn(seg: Segment) {
      sentSyn && sender.AbsSeqno(seg.header.ackno) == sender.AbsSeqno(cfg.isn) + 1 && seg.header.rst
    }

    ghost function Receive(seg: Segment): (c: Connection)
      requires receiver.Valid() && receiver.Handles(seg)
      ensures c.receiver == receiver.SegmentReceived(seg) && c.receiver.Valid()
    {
      this.(receiver := receiver.SegmentReceived(seg)).CheckNotNeedToLinger()
    }

    function AnswerKeepAlive(seg: Segment): (c: Connection)
      ensures c.receiver == receiver
    {
      if receiver.IsKeepAlive(seg) then this.(sender := sender.SendEmptySegment()) else this
    }

    function TakeAck(seg: Segment): (c: Connection)
      ensures c.receiver == receiver
    {
      if !seg.header.ack then this else
      var s := sender.AckReceived(seg.header.ackno, seg.header.win);
      this.(sender := s, finAcked := finAcked || (sentFin && s.AbsSeqno(seg.header.ackno) == finSeqno + 1))
    }

    /** Fills the window and, if nothing else is going out, acknowledges a segment that took space. */
    function Answer(seg: Segment): Connection
      requires sender.CanFill()
    {
      var s := sender.FillWindow();
      this.(sender := if s.out == [] && seg.LengthInSequenceSpace() != 0 then s.SendEmptySegment() else s)
    }

    /** After the receiver has the segment and the acknowledgment is taken. */
    ghost function Taken(seg: Segment): (c: Connection)
      requires receiver.Valid() && receiver.Handles(seg)
      ensures c.receiver.Valid()
    {
      var c := Receive(seg);
      c.AnswerKeepAlive(seg).TakeAck(seg)
    }

    ghost predicate CanProcess(seg: Segment) {
      receiver.Valid() && receiver.Handles(seg) && Taken(seg).sender.CanFill()
    }

    ghost function Process(seg: Segment): Connection
      requires CanProcess(seg)
    {
      Taken(seg).Answer(seg).SendAll().TryToEndCleanly()
    }

    /** A segment the source handles without tripping an assertion. */
    ghost predicate Handles(seg: Segment) {
      active && !BeforeSyn(seg) && !seg.header.rst ==> CanProcess(seg)
    }

    ghost function SegmentReceived(seg: Segment): Connection
      requires Handles(seg)
    {
      if !active then this
      else if BeforeSyn(seg) then (if ResetBeforeSyn(seg) then EndUncleanly() else this)
      else if seg.header.rst then EndUncleanly().(sinceLast := 0)
      else Process(seg).(sinceLast := 0)
    }

    // ---- the application and the clock ----

    function Write(data: seq<byte>): Connection
      requires receiver.Valid() && sender.CanFill() && !Outbound().ended
    {
      this.(sender := sender.(stream := sender.stream.Write(data)).FillWindow()).SendAll().TryToEndCleanly()
    }

    function EndInputStream(): Connection
      requires receiver.Valid() && sender.CanFill()
    {
      this.(sender := sender.(stream := sender.stream.EndInput()).FillWindow()).SendAll().TryToEndCleanly()
    }

    /** The source takes the front of the sender's queue, so a SYN must be there to take. */
    predicate CanConnect() {
      active && sender.out == [] && out == [] && !sender.sentSyn && sender.CanFill() && receiver.Valid()
    }

    function Connect(): Connection
      requires CanConnect()
    {
      var s := sender.FillWindow();
      this.(sender := s.(out := []), out := [s.out[0].(header := s.out[0].header.(win := Advertised()))], sentSyn := true)
    }

    predicate CanTick() {
      receiver.Valid() && (active ==> sender.CanTick())
    }

    function Tick(ms: nat): Connection
      requires CanTick()
    {
      if !active then this else
      var c := this.(sinceLast := sinceLast + ms, sender := sender.Tick(ms));
      if c.sender.timer.retx > MAX_RETX_ATTEMPTS then c.SendRst().EndUncleanly()
      else c.SendAll().AfterTick()
    }

    function AfterTick(): Connection {
      if linger && lingerBegin then
        (if sinceLast >= 10 * cfg.rtTimeout then this.(linger := false).EndCleanly() else this)
      else TryToEndCleanly()
    }

    /** The application reads from the inbound stream. */
    function ReadInbound(len: nat): Connection
      requires receiver.Valid() && len <= Inbound().Buffered()
    {
      this.(receiver := receiver.(reas := receiver.reas.(out := receiver.reas.out.Pop(len))))
    }

    /** The owner takes the queued segments away. */
    function Dequeue(): Connection {
      this.(out := [])
    }
  }

  function InitialConnection(cfg: Config): Connection {
    Connection(cfg, InitialSender(cfg.sendCapacity, cfg.rtTimeout, cfg.isn), InitialReceiver(cfg.recvCapacity), [],
               true, false, 0, true, false, false, false, 0)
  }
}
