/** What a clean close guarantees, over all runs and all peers, and what it does not. */
module CleanClose {
  import opened WrappingIntegers
  import opened ByteStreams
  import opened TcpSegments
  import opened Sending
  import opened SenderInvariants
  import opened SenderSteps
  import opened Receiving
  import opened Connecting
  import opened ConnectionInvariants
  import opened ConnectionRuns
  import Reassembly

  /** The clean close theorem: a connection that is inactive without error has its inbound stream
      drained, every byte written and the FIN sent, all of it acknowledged, and if it lingered, no
      segment for ten times the timeout. */
  lemma CleanCloseMeans(cfg: Config, events: seq<Event>, c: Connection)
    requires cfg.Valid() && Reaches(InitialConnection(cfg), events, c)
    requires !c.active && !Error(c)
    ensures c.Inbound().ended && c.Inbound().read == |c.Inbound().written|
    ensures c.Outbound().ended && Payloads(c.sender.sent) == c.Outbound().written
    ensures c.sentFin && c.finAcked && c.sender.outstanding == []
    ensures c.sender.checkpoint == c.sender.next == |c.Outbound().written| + 2
    ensures c.lingerBegin ==> c.sinceLast >= 10 * c.cfg.rtTimeout
  {
    RunInv(cfg, events, c);
    QueueTotal(c.sender);
    assert c.Outbound().written[..c.Outbound().read] == c.Outbound().written;
  }

  // ---- data past the end ----

  /** The segment brings a byte past the assembled end into the window. */
  predicate PastEnd(r: Receiver, seg: Segment)
    requires r.Valid()
  {
    !r.Ignores(seg) &&
    var n, index := r.Noted(seg), r.IndexOf(seg);
    n.Valid() && n.Accepted(seg, index) != [] && index + |n.Accepted(seg, index)| > r.reas.Next()
  }

  /** On an ended and drained stream a push leaves something pending exactly if something was
      pending before or the push reaches past the end. */
  lemma EndedPush(r: Reassembly.State, data: seq<byte>, index: nat, last: bool)
    requires r.Valid() && r.out.Eof() && r.Admits(data, index, last)
    ensures r.Push(data, index, last).pending == map[] <==>
            r.pending == map[] && (data == [] || index + |data| <= r.Next())
  {
    if data != [] && index + |data| > r.Next() {
      assert !last;
      var n := r;
      var all := Reassembly.Cut(data, index, r.Next()) + r.pending;
      var top := index + |data| - 1;
      assert top in all;
      Reassembly.LowestSize(all, n.out.Room());
      Reassembly.InsertFits(n, data, index);
      Reassembly.DrainKeepsValid(n.Insert(data, index));
      var kept := n.Insert(data, index).pending;
      assert top in Reassembly.Indices(all);
      assert Reassembly.Count(kept) > 0;
      assert Reassembly.Indices(kept) != {};
      assert Reassembly.Run(kept, r.Next()) == [];
      assert Reassembly.From(kept, r.Next()) == kept;
    }
  }

  lemma EndedTakeAt(n: Receiver, seg: Segment, index: nat)
    requires n.Valid() && n.reas.out.Eof() && n.CanTake(seg, index)
    ensures n.Take(seg, index).reas.pending == map[] <==>
            n.reas.pending == map[] && !(n.Accepted(seg, index) != [] && index + |n.Accepted(seg, index)| > n.reas.Next())
  {
    if index + 1 < n.WindowEnd() || n.Whole(seg, index) {
      EndedPush(n.reas, n.Accepted(seg, index), index, seg.header.fin && n.Whole(seg, index));
    }
  }

  lemma EndedTake(r: Receiver, seg: Segment)
    requires r.Valid() && r.reas.out.Eof() && r.Handles(seg)
    ensures r.SegmentReceived(seg).reas.pending == map[] <==> r.reas.pending == map[] && !PastEnd(r, seg)
  {
    if !r.Ignores(seg) { EndedTakeAt(r.Noted(seg), seg, r.IndexOf(seg)); }
  }

  /** Data past the end arrives while the connection lingers. */
  predicate BadEvent(c: Connection, e: Event)
    requires c.receiver.Valid()
  {
    e.Arrive? && c.active && c.lingerBegin && !e.seg.header.rst && !c.BeforeSyn(e.seg) && PastEnd(c.receiver, e.seg)
  }

  /** Lingering, or closed cleanly. */
  predicate Closing(c: Connection) {
    c.lingerBegin || (!c.active && !Error(c))
  }

  predicate NothingPending(c: Connection) {
    c.receiver.reas.pending == map[]
  }

  /** A state in which the sender's part of a call is done: a close from here saw nothing pending. */
  lemma EndsWithNothing(d: Connection)
    requires d.receiver.Valid() && d.active && !Error(d)
    ensures var e := d.SendAll().TryToEndCleanly();
            && e.receiver.reas.pending == d.receiver.reas.pending
            && (Closing(e) && !d.lingerBegin ==> NothingPending(e))
            && (d.lingerBegin ==> e.lingerBegin) && !Error(e)
  {
    SendAllFlushes(d);
  }

  lemma ArriveStep(c: Connection, seg: Segment)
    requires ConnectionInv(c) && c.Handles(seg)
    ensures var d := c.SegmentReceived(seg);
            Closing(d) ==> (NothingPending(d) <==> (Closing(c) ==> NothingPending(c)) && !BadEvent(c, Arrive(seg)))
    ensures Error(c) ==> Error(c.SegmentReceived(seg))
    ensures Closing(c) ==> Closing(c.SegmentReceived(seg)) || Error(c.SegmentReceived(seg))
  {
    if c.active && !c.BeforeSyn(seg) && !seg.header.rst {
      TakenFrame(c, seg);
      ReceivedFrame(c.receiver, seg);
      var t := c.Taken(seg);
      AnswerFrame(t, seg);
      EndsWithNothing(t.Answer(seg));
      if c.lingerBegin {
        EndedTake(c.receiver, seg);
      }
    }
  }

  lemma GrowStep(c: Connection, s: Sender)
    requires ConnectionInv(c) && c.active && s.stream.error == c.Outbound().error
    ensures var d := c.(sender := s).SendAll().TryToEndCleanly();
            && (Closing(d) ==> (NothingPending(d) <==> (Closing(c) ==> NothingPending(c))))
            && (Closing(c) ==> Closing(d))
  {
    EndsWithNothing(c.(sender := s));
  }

  lemma TickStep(c: Connection, ms: nat)
    requires ConnectionInv(c) && c.CanTick()
    ensures var d := c.Tick(ms);
            && (Closing(d) ==> (NothingPending(d) <==> (Closing(c) ==> NothingPending(c))))
            && (Closing(c) ==> Closing(d) || Error(d)) && (Error(c) ==> Error(d))
  {
    TickCases(c, ms);
    if c.active {
      TickFrame(c.sender, ms);
      var t := Ticked(c, ms);
      SendAllFlushes(t);
      if t.sender.timer.retx <= MAX_RETX_ATTEMPTS && !(t.linger && t.lingerBegin) {
        EndsWithNothing(t);
      }
    }
  }

  /** What an event that brings no data past the end may do to the pending bytes of a closing connection. */
  predicate Quietly(c: Connection, d: Connection) {
    && (Closing(d) ==> (NothingPending(d) <==> (Closing(c) ==> NothingPending(c))))
    && (Closing(c) ==> Closing(d) || Error(d)) && (Error(c) ==> Error(d))
  }

  lemma WriteStep(c: Connection, data: seq<byte>)
    requires ConnectionInv(c) && c.active && !c.Outbound().ended && c.sender.CanFill()
    ensures Quietly(c, c.Write(data))
  {
    FillStream(c.sender.(stream := c.sender.stream.Write(data)));
    GrowStep(c, c.sender.(stream := c.sender.stream.Write(data)).FillWindow());
  }

  lemma EndInputStep(c: Connection)
    requires ConnectionInv(c) && c.active && c.sender.CanFill()
    ensures Quietly(c, c.EndInputStream())
  {
    FillStream(c.sender.(stream := c.sender.stream.EndInput()));
    GrowStep(c, c.sender.(stream := c.sender.stream.EndInput()).FillWindow());
  }

  lemma OtherStep(c: Connection, e: Event)
    requires ConnectionInv(c) && Enabled(c, e) && (e.Connect? || e.Read? || e.Dequeue?)
    ensures Quietly(c, Next(c, e))
  {
    if e.Connect? { FillStream(c.sender); }
  }

  lemma EventStep(c: Connection, e: Event)
    requires ConnectionInv(c) && Enabled(c, e)
    ensures var d := Next(c, e);
            && (Closing(d) ==> (NothingPending(d) <==> (Closing(c) ==> NothingPending(c)) && !BadEvent(c, e)))
            && (Closing(c) ==> Closing(d) || Error(d)) && (Error(c) ==> Error(d))
  {
    match e
    case Arrive(seg) => ArriveStep(c, seg);
    case Write(data) => WriteStep(c, data);
    case EndInput => EndInputStep(c);
    case Tick(ms) => TickStep(c, ms);
    case Connect => OtherStep(c, e);
    case Read(len) => OtherStep(c, e);
    case Dequeue => OtherStep(c, e);
  }

  /** No event of the run brings data past the end while the connection lingers. */
  ghost predicate NoBadEvent(c: Connection, events: seq<Event>)
    decreases |events|
  {
    events == [] ||
    (&& !(c.receiver.Valid() && BadEvent(c, events[0]))
     && (Enabled(c, events[0]) ==> NoBadEvent(Next(c, events[0]), events[1..])))
  }

  lemma {:induction false} RunUnassembled(c: Connection, events: seq<Event>, d: Connection)
    requires ConnectionInv(c) && Reaches(c, events, d) && Closing(d) && ConnectionInv(d)
    ensures !Error(c)
    ensures NothingPending(d) <==> (Closing(c) ==> NothingPending(c)) && NoBadEvent(c, events)
    decreases |events|
  {
    if events != [] {
      EventStep(c, events[0]);
      NextKeeps(c, events[0]);
      RunUnassembled(Next(c, events[0]), events[1..], d);
    }
  }

  /** A clean close leaves nothing unassembled exactly if, while lingering, no accepted segment
      carried data past the end of the stream. */
  lemma NothingUnassembledExactly(cfg: Config, events: seq<Event>, c: Connection)
    requires cfg.Valid() && Reaches(InitialConnection(cfg), events, c)
    requires !c.active && !Error(c)
    ensures NothingPending(c) <==> NoBadEvent(InitialConnection(cfg), events)
  {
    InitialConnectionInv(cfg);
    RunInv(cfg, events, c);
    RunUnassembled(InitialConnection(cfg), events, c);
  }

  /** One byte, two positions past everything assembled. */
  function StrayByte(r: Receiver): Segment {
    Segment(DEFAULT_HEADER.(seqno := Wrap(r.reas.Next() + 2, r.isn)), [0])
  }

  predicate StrayReaches(r: Receiver) {
    && r.Valid() && r.gotSyn && r.reas.out.capacity >= 2
    && r.reas.Next() + 2 < TWO64 && Dist(r.reas.Next() + 2, r.checkpoint) < 0x8000_0000
  }

  lemma StrayHandled(r: Receiver)
    requires StrayReaches(r) && r.reas.out.Eof() && r.reas.pending == map[]
    ensures r.Handles(StrayByte(r)) && PastEnd(r, StrayByte(r))
  {
    var g, next := StrayByte(r), r.reas.Next();
    UnwrapWrap(next + 2, r.isn, r.checkpoint);
    assert !r.Ignores(g) && r.IndexOf(g) == next + 1;
    var n := r.Noted(g);
    assert n.Whole(g, next + 1) && n.Accepted(g, next + 1) == [0];
    var c := Reassembly.Cut([0], next + 1, next);
    assert c + r.reas.pending == c && next !in c;
    assert next !in n.reas.Insert([0], next + 1).pending;
    assert Reassembly.Run(n.reas.Insert([0], next + 1).pending, next) == [];
  }

  /** A segment does not stop the lingering. */
  lemma LingerGoesOn(c: Connection, seg: Segment)
    requires ConnectionInv(c) && c.active && c.lingerBegin && c.CanProcess(seg) && !c.BeforeSyn(seg)
    ensures var d := c.Process(seg); d.active && d.lingerBegin && d.cfg == c.cfg
  {
    TakenFrame(c, seg);
    AnswerFrame(c.Taken(seg), seg);
    SendAllFlushes(c.Taken(seg).Answer(seg));
  }

  lemma StrayTaken(c: Connection)
    requires ConnectionInv(c) && c.active && c.lingerBegin && NothingPending(c)
    requires StrayReaches(c.receiver)
    ensures var g := StrayByte(c.receiver);
            && c.Handles(g)
            && var d := c.SegmentReceived(g);
               ConnectionInv(d) && d.active && d.lingerBegin && d.cfg == c.cfg && !NothingPending(d)
  {
    var g := StrayByte(c.receiver);
    StrayHandled(c.receiver);
    assert c.CanProcess(g);
    SegmentKeeps(c, g);
    ArriveStep(c, g);
    LingerGoesOn(c, g);
  }

  /** The promise "nothing unassembled" fails for every connection that lingers within reach of a stray
      byte: the byte is accepted, and when the linger time is over the connection closes cleanly with it. */
  lemma StrayByteBreaks(c: Connection)
    requires ConnectionInv(c) && c.active && c.lingerBegin && NothingPending(c)
    requires StrayReaches(c.receiver)
    ensures var g := StrayByte(c.receiver);
            && c.Handles(g) && c.SegmentReceived(g).CanTick()
            && var d := c.SegmentReceived(g).Tick(10 * c.cfg.rtTimeout);
               !d.active && !Error(d) && !NothingPending(d)
  {
    StrayTaken(c);
    LingerExpires(c.SegmentReceived(StrayByte(c.receiver)));
  }

  lemma LingerExpires(d: Connection)
    requires ConnectionInv(d) && d.active && d.lingerBegin
    ensures d.CanTick()
    ensures var e := d.Tick(10 * d.cfg.rtTimeout);
            !e.active && !Error(e) && e.receiver.reas.pending == d.receiver.reas.pending
  {
    QueueTotal(d.sender);
    TickCases(d, 10 * d.cfg.rtTimeout);
    SendAllFlushes(Ticked(d, 10 * d.cfg.rtTimeout));
  }

  // ---- who lingers ----

  predicate NoLinger(c: Connection) {
    !c.linger && !c.lingerBegin
  }

  lemma FlushNoLinger(d: Connection)
    requires d.receiver.Valid() && NoLinger(d)
    ensures NoLinger(d.SendAll().TryToEndCleanly())
  {
    SendAllFlushes(d);
  }

  /** A segment processed when the inbound stream is drained and the outbound one is not finished puts an end
      to lingering, and none brings it back. */
  lemma ProcessNoLinger(c: Connection, seg: Segment)
    requires c.CanProcess(seg) && !c.lingerBegin
    requires !c.linger || (c.receiver.SegmentReceived(seg).reas.out.Eof() && !c.Outbound().Eof())
    ensures NoLinger(c.Process(seg))
  {
    TakenFlags(c, seg);
    FlushNoLinger(c.Taken(seg).Answer(seg));
  }

  lemma TickNoLinger(c: Connection, ms: nat)
    requires c.CanTick() && NoLinger(c)
    ensures NoLinger(c.Tick(ms))
  {
    TickCases(c, ms);
    if c.active {
      SendAllFlushes(Ticked(c, ms));
    }
  }

  lemma EventNoLinger(c: Connection, e: Event)
    requires Enabled(c, e) && NoLinger(c)
    ensures NoLinger(Next(c, e))
  {
    match e
    case Arrive(seg) =>
      if c.active && !c.BeforeSyn(seg) && !seg.header.rst { ProcessNoLinger(c, seg); }
    case Write(data) => FlushNoLinger(c.(sender := c.sender.(stream := c.sender.stream.Write(data)).FillWindow()));
    case EndInput => FlushNoLinger(c.(sender := c.sender.(stream := c.sender.stream.EndInput()).FillWindow()));
    case Tick(ms) => TickNoLinger(c, ms);
    case _ =>
  }

  lemma {:induction false} ReachesNoLinger(c: Connection, events: seq<Event>, d: Connection)
    requires NoLinger(c) && Reaches(c, events, d)
    ensures NoLinger(d)
    decreases |events|
  {
    if events != [] {
      EventNoLinger(c, events[0]);
      ReachesNoLinger(Next(c, events[0]), events[1..], d);
    }
  }

  /** A passive closer whose application has read everything does not linger: if a segment is processed when the
      inbound stream is drained and the outbound one is not finished, the connection never lingers. */
  lemma PassiveCloserNeverLingers(c: Connection, seg: Segment, events: seq<Event>, d: Connection)
    requires c.active && !c.lingerBegin && c.CanProcess(seg) && !c.BeforeSyn(seg) && !seg.header.rst
    requires c.receiver.SegmentReceived(seg).reas.out.Eof() && !c.Outbound().Eof()
    requires Reaches(c.SegmentReceived(seg), events, d)
    ensures NoLinger(d)
  {
    ProcessNoLinger(c, seg);
    ReachesNoLinger(c.SegmentReceived(seg), events, d);
  }
}
