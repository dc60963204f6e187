/** Which segments the receiver aborts on, and whether an acknowledged FIN was also handed on, against any peer. */
module FinTruth {
  import opened WrappingIntegers
  import opened ByteStreams
  import opened TcpSegments
  import opened Receiving
  import opened Connecting
  import opened ConnectionInvariants
  import opened ConnectionRuns
  import opened Sides
  import opened StreamReassemblers
  import opened ReachedStates
  import Reassembly
  import ReassemblerRuns
  import LostEnd

  // ---- aborts ----

  datatype Outcome = Aborted | Done(receiver: Receiver)

  /** The window trimming and the push, with the slices the insertion leaves. */
  ghost function TakeOutcome(n: Receiver, seg: Segment, index: nat, ss: seq<Slice>): Outcome
    requires n.Valid()
  {
    if !(index + 1 < n.WindowEnd() || n.Whole(seg, index)) then Done(n)
    else
      match LostEnd.PushOutcome(n.reas, n.Accepted(seg, index), index, seg.header.fin && n.Whole(seg, index), ss)
      case Aborted => Aborted
      case Done(reas) => Done(n.(reas := reas))
  }

  ghost function ReceiveOutcome(r: Receiver, seg: Segment, ss: seq<Slice>): Outcome
    requires r.Valid()
  {
    if r.Ignores(seg) then Done(r)
    else if seg.header.fin && r.gotFin && r.finSeqno != r.IndexOf(seg) + 1 + |seg.payload| then Aborted
    else TakeOutcome(r.Noted(seg), seg, r.IndexOf(seg), ss)
  }

  /** The reassembler right before it drains. */
  ghost function InsertedAt(n: Receiver, seg: Segment, index: nat): Reassembly.State
    requires n.Valid()
  {
    var data, last := n.Accepted(seg, index), seg.header.fin && n.Whole(seg, index);
    (if last then n.reas.NoteEof(index + |data|) else n.reas).Insert(data, index)
  }

  lemma TakeExactly(n: Receiver, seg: Segment, index: nat, ss: seq<Slice>)
    requires n.Valid() && LostEnd.Stored(InsertedAt(n, seg, index), ss)
    ensures TakeOutcome(n, seg, index, ss) == if n.CanTake(seg, index) then Done(n.Take(seg, index)) else Aborted
  {
    LostEnd.PushExactly(n.reas, n.Accepted(seg, index), index, seg.header.fin && n.Whole(seg, index), ss);
  }

  ghost function Inserted(r: Receiver, seg: Segment): Reassembly.State
    requires r.Valid()
  {
    InsertedAt(r.Noted(seg), seg, r.IndexOf(seg))
  }

  /** The receiver aborts on a segment exactly if it does not handle it. */
  lemma ReceiveExactly(r: Receiver, seg: Segment, ss: seq<Slice>)
    requires r.Valid() && LostEnd.Stored(Inserted(r, seg), ss)
    ensures ReceiveOutcome(r, seg, ss) == if r.Handles(seg) then Done(r.SegmentReceived(seg)) else Aborted
  {
    var n, index := r.Noted(seg), r.IndexOf(seg);
    assert n.Valid() && LostEnd.Stored(InsertedAt(n, seg, index), ss);
    TakeExactly(n, seg, index, ss);
  }

  datatype Result = Failed | Handled(c: Connection)

  /** `segment_received` with its assertions: those of the receiver, of `fill_window` and of `send_all`. */
  ghost function SegmentResult(c: Connection, seg: Segment, ss: seq<Slice>): Result
    requires c.receiver.Valid() && (forall r: Receiver :: ReceiveOutcome(c.receiver, seg, ss) == Done(r) ==> r.Valid())
  {
    if !c.active then Handled(c)
    else if c.BeforeSyn(seg) then Handled(if c.ResetBeforeSyn(seg) then c.EndUncleanly() else c)
    else if seg.header.rst then Handled(c.EndUncleanly().(sinceLast := 0))
    else
      match ReceiveOutcome(c.receiver, seg, ss)
      case Aborted => Failed
      case Done(r) =>
        var t := c.(receiver := r).CheckNotNeedToLinger().AnswerKeepAlive(seg).TakeAck(seg);
        if !t.sender.CanFill() || !t.Answer(seg).CanSendAll() then Failed
        else Handled(t.Answer(seg).SendAll().TryToEndCleanly().(sinceLast := 0))
  }

  lemma FlushesFine(c: Connection, seg: Segment)
    requires ConnectionInv(c) && c.active && c.CanProcess(seg) && !c.BeforeSyn(seg)
    ensures c.Taken(seg).Answer(seg).CanSendAll()
  {
    TakenFrame(c, seg);
    AnswerMid(c.Taken(seg), seg);
    FlushKeeps(c.Taken(seg).Answer(seg));
  }

  /** A connection in any state of a run fails an assertion on a segment exactly if it does not handle it. */
  lemma SegmentExactly(c: Connection, seg: Segment, ss: seq<Slice>)
    requires ConnectionInv(c) && LostEnd.Stored(Inserted(c.receiver, seg), ss)
    ensures forall r: Receiver :: ReceiveOutcome(c.receiver, seg, ss) == Done(r) ==> r.Valid()
    ensures SegmentResult(c, seg, ss) == if c.Handles(seg) then Handled(c.SegmentReceived(seg)) else Failed
  {
    ReceiveExactly(c.receiver, seg, ss);
    if c.active && !c.BeforeSyn(seg) && !seg.header.rst && c.CanProcess(seg) { FlushesFine(c, seg); }
  }

  // ---- the FIN that is noted and the FIN that is pushed ----

  lemma PushEof(r: Reassembly.State, data: seq<byte>, index: nat, last: bool)
    requires r.Valid() && r.Admits(data, index, last)
    ensures var p := r.Push(data, index, last);
            p.eof == (r.eof || last) && p.eofIndex == if last && !r.eof then index + |data| else r.eofIndex
  {
    if data != [] && index + |data| > r.Next() {
      Reassembly.PushDrains(r, data, index, last, if last then r.NoteEof(index + |data|) else r);
    }
  }

  /** The end the reassembler knows is where the FIN was noted. */
  predicate FinKnown(r: Receiver) {
    r.reas.eof ==> r.gotFin && r.finSeqno == r.reas.eofIndex + 1
  }

  /** The FIN of `seg` is noted and fits the window. */
  predicate FinFits(r: Receiver, seg: Segment)
    requires r.Valid()
  {
    !r.Ignores(seg) && seg.header.fin && r.Noted(seg).Whole(seg, r.IndexOf(seg))
  }

  /** What a segment does to the two records of the FIN. */
  lemma FinRecords(r: Receiver, seg: Segment)
    requires r.Valid() && r.Handles(seg) && FinKnown(r)
    ensures var d := r.SegmentReceived(seg);
            && FinKnown(d)
            && d.gotFin == (r.gotFin || (seg.header.fin && !r.Ignores(seg)))
            && d.reas.eof == (r.reas.eof || FinFits(r, seg))
  {
    if !r.Ignores(seg) {
      var n, index := r.Noted(seg), r.IndexOf(seg);
      if index + 1 < n.WindowEnd() || n.Whole(seg, index) {
        PushEof(n.reas, n.Accepted(seg, index), index, seg.header.fin && n.Whole(seg, index));
      }
    }
  }

  /** Nothing about the end changed. */
  predicate SameFin(r: Receiver, d: Receiver) {
    d.gotFin == r.gotFin && d.finSeqno == r.finSeqno && d.reas.eof == r.reas.eof && d.reas.eofIndex == r.reas.eofIndex
  }

  lemma AfterTickFin(d: Connection)
    ensures SameFin(d.receiver, d.AfterTick().receiver)
  {
  }

  lemma TickFin(c: Connection, ms: nat)
    requires c.CanTick()
    ensures SameFin(c.receiver, c.Tick(ms).receiver)
  {
    TickCases(c, ms);
    if c.active {
      SendAllFlushes(Ticked(c, ms));
      AfterTickFin(Ticked(c, ms).SendAll());
    }
  }

  lemma EventFinKnown(c: Connection, e: Event)
    requires ConnectionInv(c) && Enabled(c, e) && FinKnown(c.receiver)
    ensures FinKnown(Next(c, e).receiver)
  {
    match e
    case Arrive(seg) =>
      if c.active && !c.BeforeSyn(seg) && !seg.header.rst {
        ProcessReceiver(c, seg);
        FinRecords(c.receiver, seg);
      }
    case Write(data) => FlushReceiver(c.(sender := c.sender.(stream := c.Outbound().Write(data)).FillWindow()));
    case EndInput => FlushReceiver(c.(sender := c.sender.(stream := c.Outbound().EndInput()).FillWindow()));
    case Tick(ms) => TickFin(c, ms);
    case _ =>
  }

  lemma {:induction false} RunFinKnown(c: Connection, events: seq<Event>, d: Connection)
    requires ConnectionInv(c) && Reaches(c, events, d) && FinKnown(c.receiver)
    ensures FinKnown(d.receiver)
    decreases |events|
  {
    if events != [] {
      EventFinKnown(c, events[0]);
      NextKeeps(c, events[0]);
      RunFinKnown(Next(c, events[0]), events[1..], d);
    }
  }

  /** The acknowledgment number counts the FIN. */
  predicate FinCounted(r: Receiver) {
    r.gotSyn && r.gotFin && r.AbsAckno() == 2 + r.reas.Next()
  }

  /** In every run, a FIN that is acknowledged has ended the inbound stream exactly if it was also pushed, that is, if one of
      the segments that carried it fitted the window when it came. */
  lemma FinTruthExactly(cfg: Config, events: seq<Event>, c: Connection)
    requires cfg.Valid() && Reaches(InitialConnection(cfg), events, c) && FinCounted(c.receiver)
    ensures c.Inbound().ended <==> c.receiver.reas.eof
  {
    InitialConnectionInv(cfg);
    RunInv(cfg, events, c);
    RunFinKnown(InitialConnection(cfg), events, c);
  }

  // ---- a run in which it is not ----

  /** Two bytes with the FIN, and then the second byte without it. */
  const BYTES_AND_FIN := Segment(DEFAULT_HEADER.(fin := true, seqno := 1), [1, 2])

  const SECOND_BYTE := Segment(DEFAULT_HEADER.(seqno := 2), [2])

  /** The next byte, alone. */
  lemma OneByte(r: Reassembly.State, b: byte)
    requires r.Valid() && r.pending == map[] && !r.eof && r.out.Room() > 0
    ensures r.Admits([b], r.Next(), false)
    ensures var p := r.Push([b], r.Next(), false);
            p.out == r.out.(written := r.out.written + [b]) && p.pending == map[] && !p.eof
  {
    var s := r.out.written + [b];
    assert s[r.Next()..r.Next() + 1] == [b];
    ReassemblerRuns.PushInStream(r, [b], r.Next(), false, s);
    ReassemblerRuns.PushAdvances(r, [b], r.Next(), false);
    Reassembly.PushFrame(r, [b], r.Next(), false);
    PushEof(r, [b], r.Next(), false);
    var p := r.Push([b], r.Next(), false);
    assert p.out.written == s;
    assert p.pending == map[];
  }

  /** One byte was assembled, `read` of it read, and the FIN is noted right behind the next one. */
  predicate HalfWay(r: Receiver, read: nat) {
    && r.gotSyn && r.isn == 0 && r.checkpoint == 1 && r.gotFin && r.finSeqno == 3 && !r.reas.eof && r.reas.pending == map[]
    && r.reas.out.capacity == 1 && r.reas.Next() == 1 && r.reas.out.read == read && !r.reas.out.ended
  }

  lemma BytesNoted(r: Receiver)
    requires r.Valid() && r.gotSyn && r.isn == 0 && r.checkpoint == 0 && !r.gotFin
    ensures !r.Ignores(BYTES_AND_FIN) && r.IndexOf(BYTES_AND_FIN) == 0
    ensures r.Noted(BYTES_AND_FIN) == r.(checkpoint := 1, gotFin := true, finSeqno := 3)
  {
    assert Wrap(1, 0) == 1;
    UnwrapWrap(1, 0, 0);
  }

  lemma BytesTaken(r: Receiver)
    requires r.Valid() && r.gotSyn && r.isn == 0 && r.checkpoint == 0 && !r.gotFin && !r.reas.eof && r.reas.pending == map[]
    requires r.reas.out.capacity == 1 && r.reas.Next() == 0 && r.reas.out.read == 0 && !r.reas.out.ended
    ensures r.Handles(BYTES_AND_FIN) && HalfWay(r.SegmentReceived(BYTES_AND_FIN), 0)
  {
    BytesNoted(r);
    var n := r.(checkpoint := 1, gotFin := true, finSeqno := 3);
    assert !n.Whole(BYTES_AND_FIN, 0) && n.Accepted(BYTES_AND_FIN, 0) == [1];
    OneByte(n.reas, 1);
  }

  lemma SecondNoted(r: Receiver)
    requires r.Valid() && HalfWay(r, 1)
    ensures !r.Ignores(SECOND_BYTE) && r.Noted(SECOND_BYTE) == r.(checkpoint := 2) && r.IndexOf(SECOND_BYTE) == 1
  {
    assert Wrap(2, 0) == 2;
    UnwrapWrap(2, 0, 1);
  }

  lemma SecondTaken(r: Receiver)
    requires r.Valid() && HalfWay(r, 1)
    ensures r.Handles(SECOND_BYTE)
    ensures var d := r.SegmentReceived(SECOND_BYTE); FinCounted(d) && !d.reas.eof && !d.reas.out.ended
  {
    SecondNoted(r);
    var n := r.(checkpoint := 2);
    assert n.Whole(SECOND_BYTE, 1) && n.Accepted(SECOND_BYTE, 1) == [2];
    OneByte(n.reas, 2);
  }

  lemma ReadOne(c: Connection)
    requires Listening(c) && HalfWay(c.receiver, 0)
    ensures Enabled(c, Read(1)) && Listening(c.ReadInbound(1)) && HalfWay(c.ReadInbound(1).receiver, 1)
  {
    ReadKeeps(c, 1);
  }

  lemma FirstByteIn(cfg: Config) returns (events: seq<Event>, c: Connection)
    requires cfg.Valid() && cfg.recvCapacity == 1
    ensures Reaches(InitialConnection(cfg), events, c) && Listening(c) && HalfWay(c.receiver, 0)
  {
    var before, a := Opened(cfg);
    BytesTaken(a.receiver);
    OnlyReceived(a, BYTES_AND_FIN);
    ReachesThen(InitialConnection(cfg), before, a, Arrive(BYTES_AND_FIN));
    events, c := before + [Arrive(BYTES_AND_FIN)], a.SegmentReceived(BYTES_AND_FIN);
  }

  lemma FirstByteRead(cfg: Config) returns (events: seq<Event>, c: Connection)
    requires cfg.Valid() && cfg.recvCapacity == 1
    ensures Reaches(InitialConnection(cfg), events, c) && Listening(c) && HalfWay(c.receiver, 1)
  {
    var before, b := FirstByteIn(cfg);
    ReadOne(b);
    ReachesThen(InitialConnection(cfg), before, b, Read(1));
    events, c := before + [Read(1)], b.ReadInbound(1);
  }

  /** For every configuration with a receiver of capacity one, a run acknowledges a FIN without ending the inbound stream: two
      bytes with the FIN, of which the window takes one, and then the other one alone. */
  lemma FinUntrueReached(cfg: Config) returns (events: seq<Event>, c: Connection)
    requires cfg.Valid() && cfg.recvCapacity == 1
    ensures Reaches(InitialConnection(cfg), events, c) && c.active && FinCounted(c.receiver) && !c.Inbound().ended
  {
    var before, b := FirstByteRead(cfg);
    SecondTaken(b.receiver);
    OnlyReceived(b, SECOND_BYTE);
    ReachesThen(InitialConnection(cfg), before, b, Arrive(SECOND_BYTE));
    events, c := before + [Arrive(SECOND_BYTE)], b.SegmentReceived(SECOND_BYTE);
  }
}
