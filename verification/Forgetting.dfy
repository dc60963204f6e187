/** Two connections whose network has lost everything sent so far: what they can still do by themselves. */
module Forgetting {
  import opened WrappingIntegers
  import opened TcpSegments
  import opened Sending
  import opened SenderInvariants
  import opened SenderSteps
  import opened Receiving
  import opened Connecting
  import opened ConnectionInvariants
  import opened ConnectionRuns
  import opened Flow
  import opened TwoParty
  import opened Wire
  import opened TcpStates
  import opened Moves
  import opened Stall

  /** The network has lost everything. */
  function Forget(w: World): World {
    w.(ab := {}, ba := {})
  }

  predicate Empty(w: World) {
    w.ab == {} && w.ba == {}
  }

  lemma ForgetSane(w: World)
    requires Sane(w)
    ensures Sane(Forget(w))
  {
  }

  // ---- worlds in which nothing more can happen ----

  /** The FIN is sent, and everything is acknowledged: nothing is left to say. */
  predicate Mute(c: Connection) {
    c.sender.sentAll && c.sender.outstanding == []
  }

  /** One side is stalled, and neither has a reason to speak. */
  predicate Frozen(w: World) {
    (Stalled(w.a) || Stalled(w.b)) && (Stalled(w.a) || Mute(w.a)) && (Stalled(w.b) || Mute(w.b))
  }

  lemma MuteTick(c: Connection, ms: nat)
    requires ConnectionInv(c) && c.out == [] && Mute(c) && c.CanTick()
    ensures Mute(c.Tick(ms)) && c.Tick(ms).out == []
  {
    if c.active {
      TickCases(c, ms);
      TickedSender(c, ms);
      SendAllFlushes(Ticked(c, ms));
    }
  }

  lemma MuteStep(c: Connection, e: Event)
    requires ConnectionInv(c) && c.out == [] && Mute(c) && Enabled(c, e) && !e.Arrive?
    ensures Mute(Next(c, e)) && Next(c, e).out == []
  {
    match e
    case EndInput =>
      var d := c.(sender := c.sender.(stream := c.Outbound().EndInput()).FillWindow());
      SendAllFlushes(d);
      EndSender(d.SendAll());
    case Tick(ms) => MuteTick(c, ms);
    case _ =>
  }

  lemma IdleStep(c: Connection, e: Event)
    requires ConnectionInv(c) && c.out == [] && (Stalled(c) || Mute(c)) && Enabled(c, e) && !e.Arrive?
    ensures Next(c, e).out == [] && (Stalled(Next(c, e)) <==> Stalled(c)) && (Mute(c) ==> Mute(Next(c, e)))
  {
    EventStallsExactly(c, e);
    if Stalled(c) { StalledStep(c, e); } else { MuteStep(c, e); }
  }

  lemma FrozenStep(w: World, m: Move)
    requires WorldInv(w) && Frozen(w) && Empty(w) && CanMove(w, m)
    ensures Frozen(Step(w, m)) && Empty(Step(w, m))
  {
    IdleStep(Actor(w, m), m.event);
  }

  /** Nothing is ever sent again. */
  lemma {:induction false} FrozenForever(w: World, moves: seq<Move>, v: World)
    requires WorldInv(w) && Frozen(w) && Empty(w) && Leads(w, moves, v)
    ensures Frozen(v) && Empty(v)
    decreases |moves|
  {
    if moves != [] {
      FrozenStep(w, moves[0]);
      MoveKeeps(w, moves[0]);
      FrozenForever(Step(w, moves[0]), moves[1..], v);
    }
  }

  // ---- a closed peer ----

  /** Only an arrival can acknowledge the FIN. */
  lemma FinStays(c: Connection, e: Event)
    requires Enabled(c, e) && !e.Arrive?
    ensures Next(c, e).finAcked == c.finAcked
  {
    match e
    case Write(data) => SendAllFlushes(c.(sender := c.sender.(stream := c.Outbound().Write(data)).FillWindow()));
    case EndInput => SendAllFlushes(c.(sender := c.sender.(stream := c.Outbound().EndInput()).FillWindow()));
    case Tick(ms) => if c.active { TickCases(c, ms); SendAllFlushes(Ticked(c, ms)); }
    case _ =>
  }

  /** A closed endpoint puts nothing out. */
  lemma ClosedSilent(c: Connection, e: Event)
    requires !c.active && c.out == [] && Enabled(c, e)
    ensures !Next(c, e).active && Next(c, e).out == []
  {
  }

  /** The left endpoint is closed, and nothing of it is on the wire. */
  predicate Gone(w: World) {
    !w.a.active && w.ab == {}
  }

  /** Nobody is left to acknowledge the FIN of the right endpoint. */
  lemma {:induction false} FinUnanswered(w: World, moves: seq<Move>, v: World)
    requires WorldInv(w) && Gone(w) && !w.b.finAcked && Leads(w, moves, v)
    ensures Gone(v) && !v.b.finAcked && WorldInv(v)
    decreases |moves|
  {
    if moves != [] {
      var m := moves[0];
      if m.left { ClosedSilent(w.a, m.event); } else { FinStays(w.b, m.event); }
      MoveKeeps(w, m);
      FinUnanswered(Step(w, m), moves[1..], v);
    }
  }

  // ---- retries ----

  predicate Patient(c: Connection) {
    c.active ==> HasRetries(c.sender)
  }

  lemma {:induction false} ChunksRetries(s: Sender)
    requires s.stream.Valid() && HasRetries(s)
    ensures HasRetries(s.SendChunks())
    decreases s.stream.Buffered()
  {
    if s.CanSendChunk() { ChunksRetries(s.SendChunk()); }
  }

  lemma FillRetries(s: Sender)
    requires s.CanFill() && HasRetries(s)
    ensures HasRetries(s.FillWindow())
  {
    ChunksRetries(s);
  }

  lemma FlushTimer(d: Connection)
    requires d.receiver.Valid()
    ensures d.SendAll().TryToEndCleanly().sender.timer == d.sender.timer
  {
    SendAllFlushes(d);
    EndSender(d.SendAll());
  }

  lemma AckRetries(s: Sender, ackno: u32, win: u16)
    requires HasRetries(s)
    ensures HasRetries(s.AckReceived(ackno, win))
  {
    if s.AbsSeqno(ackno) <= s.next { PopFrame(s.NewWindow(s.AbsSeqno(ackno), win), s.AbsSeqno(ackno)); }
  }

  lemma TakenRetries(c: Connection, seg: Segment)
    requires SenderInv(c.sender) && c.receiver.Valid() && c.receiver.Handles(seg) && HasRetries(c.sender)
    ensures HasRetries(c.Taken(seg).sender)
  {
    KeepAliveOut(c.Receive(seg), seg);
    AckRetries(c.Receive(seg).AnswerKeepAlive(seg).sender, seg.header.ackno, seg.header.win);
  }

  /** After the acknowledgment is taken, the rest of the call leaves retries. */
  lemma AnswerRetries(t: Connection, seg: Segment)
    requires t.receiver.Valid() && t.sender.CanFill() && HasRetries(t.sender)
    ensures HasRetries(t.Answer(seg).SendAll().TryToEndCleanly().sender)
  {
    FillRetries(t.sender);
    FlushTimer(t.Answer(seg));
  }

  lemma ArriveRetries(c: Connection, seg: Segment)
    requires ConnectionInv(c) && c.active && c.CanProcess(seg) && !c.BeforeSyn(seg) && HasRetries(c.sender)
    ensures HasRetries(c.Process(seg).sender)
  {
    TakenRetries(c, seg);
    AnswerRetries(c.Taken(seg), seg);
  }

  lemma EndInputRetries(c: Connection)
    requires c.receiver.Valid() && c.sender.CanFill() && HasRetries(c.sender)
    ensures HasRetries(c.EndInputStream().sender)
  {
    var s := c.sender.(stream := c.Outbound().EndInput());
    FillRetries(s);
    FlushTimer(c.(sender := s.FillWindow()));
  }

  // ---- one timeout ----

  /** A timeout with retries left puts out the oldest segment with everything received and the current window. */
  lemma Timeout(c: Connection)
    requires ConnectionInv(c) && c.active && c.sender.timer.timing && HasRetries(c.sender)
    ensures c.CanTick() && c.sender.outstanding != []
    ensures var d := c.Tick(c.sender.timer.countdown);
            && d.active && d.receiver == c.receiver && d.sender == c.sender.(timer := c.sender.timer.AfterTimeout(c.sender.zeroWindow))
            && d.out == c.out + [c.Stamp(c.sender.outstanding[0].seg)] && d.linger == c.linger
  {
    var ms := c.sender.timer.countdown;
    TickCases(c, ms);
    var t := Ticked(c, ms);
    SendAllFlushes(t);
    QueueTotal(c.sender);
    assert StampAll(t, t.sender.out) == [c.Stamp(c.sender.outstanding[0].seg)];
  }

  lemma OldestCarries(s: Sender)
    requires QueueInv(s) && SentInv(s) && s.outstanding != []
    ensures var o := s.outstanding[0];
            && Carries(o.seg, o.absSeqno, s.isn, s.stream) && !o.seg.header.ack
            && o.absSeqno <= s.checkpoint < o.absSeqno + o.seg.LengthInSequenceSpace() <= s.next
  {
    SuffixRest(s.outstanding, s.sent);
    ChainLength(s.outstanding, Base(s), s.next);
    var k :| 0 <= k < |s.sent| && s.sent[k] == s.outstanding[0];
  }

  /** `g` is the oldest segment `c` has outstanding, with an acknowledgment of everything received. */
  ghost predicate Oldest(g: Segment, abs: nat, c: Connection) {
    && Carries(g, abs, c.sender.isn, c.sender.stream) && (c.receiver.gotSyn ==> Confirms(g, c.receiver))
    && abs <= c.sender.checkpoint < abs + g.LengthInSequenceSpace() <= c.sender.next
  }

  lemma StampOldest(c: Connection)
    requires ConnectionInv(c) && c.sender.outstanding != []
    ensures Oldest(c.Stamp(c.sender.outstanding[0].seg), c.sender.outstanding[0].absSeqno, c)
  {
    OldestCarries(c.sender);
  }

  lemma TickPutsOut(w: World) returns (g: Segment, abs: nat)
    requires WorldInv(w) && w.a.active && w.a.sender.outstanding != [] && HasRetries(w.a.sender)
    ensures w.a.CanTick()
    ensures var d := w.a.Tick(w.a.sender.timer.countdown).Dequeue();
            && d.active && d.receiver == w.a.receiver && d.sender == w.a.sender.(timer := d.sender.timer) && Oldest(g, abs, d)
    ensures g in Sent(w.a.Tick(w.a.sender.timer.countdown))
  {
    Timeout(w.a);
    StampOldest(w.a);
    g, abs := w.a.Stamp(w.a.sender.outstanding[0].seg), w.a.sender.outstanding[0].absSeqno;
    assert w.a.Tick(w.a.sender.timer.countdown).out == [g];
  }

  /** A timeout puts the oldest outstanding segment on the wire again. */
  lemma ResendLeft(w: World) returns (v: World, g: Segment, abs: nat)
    requires Sane(w) && w.a.active && w.a.sender.outstanding != [] && HasRetries(w.a.sender)
    ensures Toward(w, v) && v.b == w.b && v.a.active && v.a.receiver == w.a.receiver
    ensures v.a.sender == w.a.sender.(timer := v.a.sender.timer) && g in v.ab && Oldest(g, abs, v.a)
  {
    g, abs := TickPutsOut(w);
    var tick := Event.Tick(w.a.sender.timer.countdown);
    Go(w, tick);
    v := StepLeft(w, tick);
  }

  // ---- an acknowledgment of everything received arrives ----

  lemma CurrentDecodes(r: Receiver, s: Sender, g: Segment)
    requires Matches(r, s) && Confirms(g, r) && s.checkpoint <= s.next
    ensures r.AbsAckno() <= s.next && s.AbsSeqno(g.header.ackno) == r.AbsAckno()
  {
    AckBelowNext(r, s);
    UnwrapWrap(r.AbsAckno(), s.isn, s.checkpoint);
  }

  lemma AnswerCheckpoint(t: Connection, seg: Segment)
    requires SenderInv(t.sender) && t.receiver.Valid() && t.sender.CanFill()
    ensures t.Answer(seg).SendAll().TryToEndCleanly().sender.checkpoint == t.sender.checkpoint
  {
    FillKeeps(t.sender);
    SendAllFlushes(t.Answer(seg));
    EndSender(t.Answer(seg).SendAll());
  }

  lemma TakenCheckpoint(c: Connection, g: Segment)
    requires SenderInv(c.sender) && c.receiver.Valid() && c.receiver.Handles(g) && Acknowledges(c.sender, g)
    ensures c.Taken(g).sender.checkpoint >= c.sender.AbsSeqno(g.header.ackno)
  {
    KeepAliveOut(c.Receive(g), g);
    var k := c.Receive(g).AnswerKeepAlive(g).sender;
    AckFrame(k, k.AbsSeqno(g.header.ackno), g.header.win);
  }

  /** It frees a stalled sender, and takes effect in full. */
  lemma CurrentAck(c: Connection, g: Segment, r: Receiver)
    requires ConnectionInv(c) && c.active && c.Handles(g) && !c.BeforeSyn(g) && !g.header.rst
    requires Matches(r, c.sender) && Confirms(g, r) && c.sender.checkpoint <= r.AbsAckno()
    ensures var d := c.SegmentReceived(g); !Stalled(d) && d.sender.checkpoint >= r.AbsAckno()
  {
    CurrentDecodes(r, c.sender, g);
    EventStallsExactly(c, Arrive(g));
    assert c.CanProcess(g);
    TakenCheckpoint(c, g);
    TakenFrame(c, g);
    AnswerCheckpoint(c.Taken(g), g);
  }

  /** News brings fresh retries. */
  lemma NewsRetries(s: Sender, ackno: u32, win: u16)
    requires QueueInv(s) && Opening(s) && s.checkpoint < s.AbsSeqno(ackno) <= s.next
    ensures HasRetries(s.AckReceived(ackno, win))
  {
    var a := s.AbsSeqno(ackno);
    AckKeepsQueue(s, a, win);
    AckFrame(s, a, win);
    PopFrame(s.NewWindow(a, win), a);
  }

  lemma NewsArrives(c: Connection, g: Segment)
    requires ConnectionInv(c) && c.active && c.CanProcess(g) && !c.BeforeSyn(g) && Opening(c.sender)
    requires g.header.ack && c.sender.checkpoint < c.sender.AbsSeqno(g.header.ackno) <= c.sender.next
    ensures HasRetries(c.Process(g).sender)
  {
    KeepAliveOut(c.Receive(g), g);
    NewsRetries(c.Receive(g).AnswerKeepAlive(g).sender, g.header.ackno, g.header.win);
    AnswerRetries(c.Taken(g), g);
  }

  /** A segment closes a connection at once only if the inbound stream was over before. */
  lemma ClosesOnlyEnded(c: Connection, g: Segment)
    requires ConnectionInv(c) && StateBook(c) && c.active && c.CanProcess(g) && !c.BeforeSyn(g)
    ensures !c.Process(g).active ==> c.Inbound().ended
  {
    TakenFlags(c, g);
    TakenFrame(c, g);
    AnswerMid(c.Taken(g), g);
    FlushKeeps(c.Taken(g).Answer(g));
  }

  // ---- one round ----

  lemma OldestArrives(w: World, g: Segment, abs: nat)
    requires Sane(w) && w.a.active && w.a.receiver.gotSyn && w.a.Inbound().Buffered() == 0
    requires g in w.ba && Oldest(g, abs, w.b)
    ensures w.a.Handles(g) && w.a.SegmentReceived(g).receiver.AbsAckno() > w.b.sender.checkpoint
  {
    NeverAborts(w.a, w.b, w.ab, w.ba, Arrive(g));
    ArriveReceiver(w.a, g);
    if w.a.receiver.AbsAckno() < abs + g.LengthInSequenceSpace() {
      NextArrives(w.a.receiver, g, w.b.sender, abs);
    } else {
      Deliver(w.a.receiver, g, w.b.sender);
    }
  }

  lemma HearLeft(w: World, g: Segment, abs: nat) returns (v: World, h: Segment)
    requires Sane(w) && w.a.active && w.a.receiver.gotSyn && w.b.receiver.gotSyn && Patient(w.a)
    requires w.a.Inbound().Buffered() == 0 && g in w.ba && Oldest(g, abs, w.b)
    ensures Toward(w, v) && v.b == w.b && h in v.ab && Confirms(h, v.a.receiver)
    ensures v.a.receiver.AbsAckno() > w.b.sender.checkpoint && v.a.sender.checkpoint >= w.b.receiver.AbsAckno()
    ensures Patient(v.a) && !Stalled(v.a)
  {
    Go(w, Arrive(g));
    OldestArrives(w, g, abs);
    h := Ask(w, g);
    CurrentAck(w.a, g, w.b.receiver);
    ArriveRetries(w.a, g);
    v := StepLeft(w, Arrive(g));
  }

  lemma HearAck(w: World, h: Segment) returns (v: World)
    requires Sane(w) && w.a.active && w.a.receiver.gotSyn && h in w.ba && Confirms(h, w.b.receiver)
    requires w.b.receiver.AbsAckno() > w.a.sender.checkpoint
    ensures Toward(w, v) && v.b == w.b && v.a.sender.checkpoint >= w.b.receiver.AbsAckno()
    ensures Patient(v.a) && !Stalled(v.a) && (!v.a.active ==> w.a.Inbound().ended)
  {
    Go(w, Arrive(h));
    CurrentDecodes(w.b.receiver, w.a.sender, h);
    CurrentAck(w.a, h, w.b.receiver);
    NewsArrives(w.a, h);
    ClosesOnlyEnded(w.a, h);
    v := StepLeft(w, Arrive(h));
  }

  /** Neither side is left with something to say to a closed peer. */
  predicate Answered(w: World) {
    (!w.a.active ==> Mute(w.b)) && (!w.b.active ==> Mute(w.a))
  }

  lemma AllAcked(c: Connection)
    requires ConnectionInv(c) && c.sender.checkpoint >= c.sender.next
    ensures c.sender.outstanding == []
  {
  }

  /** After both sides heard everything the other received, a side closes only if the other has nothing to say. */
  lemma RoundAnswered(v: World, before: Receiver)
    requires Sane(v) && v.a.sender.checkpoint >= v.b.receiver.AbsAckno() && v.b.sender.checkpoint >= before.AbsAckno()
    requires !v.a.active ==> before.reas.out.ended && Matches(before, v.b.sender) && before.gotSyn
    ensures Answered(v)
  {
    if !v.b.active {
      ClosedComplete(v.Swap());
      AllAcked(v.a);
    }
    if !v.a.active {
      AllAcked(v.b);
    }
  }

  lemma ResendHeard(w: World, g: Segment, abs: nat) returns (v: World, h: Segment)
    requires Sane(w) && w.a.receiver.gotSyn && w.b.active && w.b.receiver.gotSyn && Patient(w.b)
    requires g in w.ab && Oldest(g, abs, w.a)
    ensures Toward(w, v) && v.a == w.a && h in v.ba && Confirms(h, v.b.receiver)
    ensures v.b.receiver.AbsAckno() > w.a.sender.checkpoint && v.b.sender.checkpoint >= w.a.receiver.AbsAckno()
    ensures Patient(v.b) && !Stalled(v.b)
  {
    var d := DrainLeft(w.Swap());
    v, h := HearLeft(d, g, abs);
    TowardOn(w.Swap(), d, v);
    TowardMirror(w, v);
    v := v.Swap();
  }

  /** Loss is repaired: while there are retries, a timeout, and what it makes the two sides send, moves the highest
      acknowledgment of a sender with something outstanding. Nothing sent earlier is needed. */
  lemma Resend(w: World) returns (v: World)
    requires Sane(w) && w.a.active && w.b.active && w.a.receiver.gotSyn && w.b.receiver.gotSyn
    requires w.a.sender.outstanding != [] && HasRetries(w.a.sender) && Patient(w.b)
    ensures Toward(w, v) && v.a.sender.checkpoint > w.a.sender.checkpoint
    ensures Patient(v.a) && Patient(v.b) && !Stalled(v.a) && !Stalled(v.b) && Answered(v)
  {
    var t, g, abs := ResendLeft(w);
    var u, h := ResendHeard(t, g, abs);
    TowardOn(w, t, u);
    v := HearAck(u, h);
    TowardOn(w, u, v);
    RoundAnswered(v, w.a.receiver);
  }

  // ---- the handshake ----

  lemma SynOutstanding(w: World)
    requires Sane(w) && w.a.sender.sentSyn && !w.b.receiver.gotSyn
    ensures w.a.sender.checkpoint == 0 && w.a.sender.outstanding != [] && w.a.sender.next == 1 && !w.a.sender.sentAll
  {
  }

  /** The peer's SYN arrives first at the left endpoint. */
  lemma SynHeard(w: World, g: Segment) returns (v: World, h: Segment)
    requires Sane(w) && w.a.active && !w.a.receiver.gotSyn && Oldest(g, 0, w.b) && g in w.ba
    ensures Toward(w, v) && v.b == w.b && v.a.active && v.a.receiver.gotSyn && h in v.ab && Confirms(h, v.a.receiver)
    ensures Patient(w.a) || w.b.receiver.gotSyn ==> Patient(v.a)
    ensures w.b.receiver.gotSyn ==> !Stalled(v.a)
  {
    Go(w, Arrive(g));
    h := Ask(w, g);
    ClosesOnlyEnded(w.a, g);
    v := StepLeft(w, Arrive(g));
    if w.b.receiver.gotSyn {
      CurrentDecodes(w.b.receiver, w.a.sender, g);
      CurrentAck(w.a, g, w.b.receiver);
      NewsArrives(w.a, g);
    } else if Patient(w.a) {
      ArriveRetries(w.a, g);
    }
  }

  lemma SynHeardRight(w: World, g: Segment) returns (v: World, h: Segment)
    requires Sane(w) && w.b.active && !w.b.receiver.gotSyn && Oldest(g, 0, w.a) && g in w.ab
    ensures Toward(w, v) && v.a == w.a && v.b.active && v.b.receiver.gotSyn && h in v.ba && Confirms(h, v.b.receiver)
    ensures Patient(w.b) || w.a.receiver.gotSyn ==> Patient(v.b)
    ensures w.a.receiver.gotSyn ==> !Stalled(v.b)
  {
    v, h := SynHeard(w.Swap(), g);
    TowardMirror(w, v);
    v := v.Swap();
  }

  predicate Met(w: World) {
    w.a.active && w.b.active && w.a.receiver.gotSyn && w.b.receiver.gotSyn
  }

  /** The left endpoint has the peer's SYN and repeats its own. */
  lemma GreetBack(w: World) returns (v: World)
    requires Sane(w) && w.a.active && w.b.active && w.a.sender.sentSyn
    requires w.a.receiver.gotSyn && !w.b.receiver.gotSyn && HasRetries(w.a.sender)
    ensures Toward(w, v) && Met(v) && Patient(v.a) && Patient(v.b) && !Stalled(v.a) && !Stalled(v.b)
  {
    SynOutstanding(w);
    var t, g, abs := ResendLeft(w);
    var u, h := SynHeardRight(t, g);
    TowardOn(w, t, u);
    assert !u.a.Inbound().ended;
    v := HearAck(u, h);
    TowardOn(w, u, v);
  }

  lemma GreetFirst(w: World) returns (v: World)
    requires Sane(w) && w.a.active && w.b.active && w.a.sender.sentSyn && w.b.sender.sentSyn
    requires !w.a.receiver.gotSyn && !w.b.receiver.gotSyn && Patient(w.a) && Patient(w.b)
    ensures Toward(w, v) && Met(v) && Patient(v.a) && Patient(v.b) && !Stalled(v.a) && !Stalled(v.b)
  {
    SynOutstanding(w);
    var t, g, abs := ResendLeft(w);
    var u, h := SynHeardRight(t, g);
    TowardOn(w, t, u);
    v := GreetBack(u.Swap());
    TowardMirror(u, v);
    v := v.Swap();
    TowardOn(w, u, v);
  }

  // ---- the applications end their inputs ----

  lemma EndInputSender(c: Connection)
    requires ConnectionInv(c) && c.active
    ensures c.sender.CanFill()
    ensures var s, d := c.sender.(stream := c.Outbound().EndInput()), c.EndInputStream();
            SenderInv(s) && d.sender == s.FillWindow().(out := [])
  {
    var s := c.sender.(stream := c.Outbound().EndInput());
    StreamGrows(c.sender, s.stream);
    SendAllFlushes(c.(sender := s.FillWindow()));
    EndSender(c.(sender := s.FillWindow()).SendAll());
  }

  /** Ending the input before the FIN is sent leaves the connection open and makes it no quieter. */
  lemma EndInputSpeaks(c: Connection)
    requires ConnectionInv(c) && c.active && !c.sender.sentAll && HasRetries(c.sender)
    ensures c.sender.CanFill()
    ensures var d := c.EndInputStream(); !Mute(d) && Announced(d) && HasRetries(d.sender) && (Stalled(d) ==> Stalled(c))
    ensures !Error(c) ==> c.EndInputStream().active
    ensures Announced(c) && c.sender.outstanding == [] && !Stalled(c) ==> c.EndInputStream().sender.next > c.sender.next
  {
    EndInputSender(c);
    EndAnnounces(c);
    EndInputRetries(c);
    EndInputKeeps(c);
    var s := c.sender.(stream := c.Outbound().EndInput());
    FillKeeps(s);
    FillStuck(s);
    QueueTotal(c.EndInputStream().sender);
    if Announced(c) && c.sender.outstanding == [] && !Stalled(c) { FillMoves(s); }
    if !c.EndInputStream().active && !Error(c) { EndInputClean(c); }
  }

  lemma EndInputClean(c: Connection)
    requires ConnectionInv(c) && c.active && c.sender.CanFill() && !Error(c)
    ensures !Error(c.EndInputStream())
  {
    FillStream(c.sender.(stream := c.Outbound().EndInput()));
    FlushNoError(c.(sender := c.sender.(stream := c.Outbound().EndInput()).FillWindow()));
  }

  lemma EndLeftInput(w: World) returns (v: World)
    requires Sane(w) && w.a.active && !w.a.sender.sentAll && HasRetries(w.a.sender)
    ensures Toward(w, v) && v.b == w.b && v.a.active && Announced(v.a) && Patient(v.a)
    ensures !Mute(v.a) && (Stalled(v.a) ==> Stalled(w.a))
    ensures Announced(w.a) && w.a.sender.outstanding == [] && !Stalled(w.a) ==> v.a.sender.next > w.a.sender.next
  {
    Go(w, EndInput);
    EndInputSpeaks(w.a);
    v := StepLeft(w, EndInput);
  }

  lemma AnnounceLeft(w: World) returns (v: World)
    requires Sane(w) && w.a.active && Patient(w.a)
    ensures Toward(w, v) && v.b == w.b && v.a.active && Announced(v.a) && Patient(v.a)
    ensures (Mute(v.a) ==> Mute(w.a)) && (Stalled(v.a) ==> Stalled(w.a))
  {
    if Announced(w.a) {
      TowardSelf(w);
      v := w;
    } else {
      v := EndLeftInput(w);
    }
  }

  lemma AnnounceBoth(w: World) returns (v: World)
    requires Sane(w) && w.a.active && w.b.active && Patient(w.a) && Patient(w.b)
    ensures Toward(w, v) && v.a.active && v.b.active && Announced(v.a) && Announced(v.b) && Patient(v.a) && Patient(v.b)
    ensures Frozen(v) ==> Frozen(w)
  {
    var u := AnnounceLeft(w);
    v := AnnounceLeft(u.Swap());
    TowardMirror(u, v);
    v := v.Swap();
    TowardOn(w, u, v);
  }

  lemma Greet(w: World) returns (v: World)
    requires Sane(w) && w.a.active && w.b.active && Announced(w.a) && Announced(w.b) && Patient(w.a) && Patient(w.b) && !Frozen(w)
    ensures Toward(w, v) && Met(v) && Patient(v.a) && Patient(v.b) && !Frozen(v)
  {
    if w.a.receiver.gotSyn && w.b.receiver.gotSyn {
      TowardSelf(w);
      v := w;
    } else if w.a.receiver.gotSyn {
      v := GreetBack(w);
    } else if w.b.receiver.gotSyn {
      v := GreetBack(w.Swap());
      TowardMirror(w, v);
      v := v.Swap();
    } else {
      v := GreetFirst(w);
    }
  }

  // ---- until neither side has anything to say ----

  ghost predicate Running(w: World) {
    Sane(w) && Talking(w) && Patient(w.a) && Patient(w.b) && !Frozen(w) && Answered(w)
  }

  function Left(c: Connection): int {
    2 * |c.Outbound().written| + 4 - c.sender.checkpoint - c.sender.next
  }

  lemma LeftBound(c: Connection)
    requires ConnectionInv(c)
    ensures Left(c) >= 0
  {
  }

  lemma ClosedMute(c: Connection)
    requires ConnectionInv(c) && !c.active && !Error(c)
    ensures Mute(c)
  {
    QueueTotal(c.sender);
  }

  /** `v` is nearer to the end than `w`. */
  ghost predicate Nearer(w: World, v: World) {
    Toward(w, v) && Running(v) && Left(v.a) + Left(v.b) < Left(w.a) + Left(w.b)
  }

  lemma AheadNearer(w: World, v: World)
    requires Talking(w) && Toward(w, v) && Patient(v.a) && Patient(v.b) && !Frozen(v) && Answered(v)
    requires v.a.sender.checkpoint > w.a.sender.checkpoint || v.a.sender.next > w.a.sender.next
    ensures Nearer(w, v)
  {
  }

  lemma AdvanceByResend(w: World) returns (v: World)
    requires Running(w) && w.a.sender.outstanding != []
    ensures Nearer(w, v)
  {
    if !w.a.active { ClosedMute(w.a); }
    v := Resend(w);
    AheadNearer(w, v);
  }

  lemma AdvanceByEnd(w: World) returns (v: World)
    requires Running(w) && w.a.sender.outstanding == [] && !w.a.sender.sentAll && !Stalled(w.a)
    ensures Nearer(w, v)
  {
    if !w.a.active { ClosedMute(w.a); }
    v := EndLeftInput(w);
    AheadNearer(w, v);
  }

  lemma AdvanceLeft(w: World) returns (v: World)
    requires Running(w) && !Mute(w.a) && !Stalled(w.a)
    ensures Nearer(w, v)
  {
    if w.a.sender.outstanding != [] {
      v := AdvanceByResend(w);
    } else {
      v := AdvanceByEnd(w);
    }
  }

  lemma NearerMirror(w: World, v: World)
    requires Nearer(w.Swap(), v)
    ensures Nearer(w, v.Swap())
  {
    TowardMirror(w, v);
  }

  lemma Advance(w: World) returns (v: World)
    requires Running(w) && !(Mute(w.a) && Mute(w.b))
    ensures Nearer(w, v)
  {
    if !Mute(w.a) && !Stalled(w.a) {
      v := AdvanceLeft(w);
    } else {
      v := AdvanceLeft(w.Swap());
      NearerMirror(w, v);
      v := v.Swap();
    }
  }

  lemma {:induction false} RunOut(w: World) returns (v: World)
    requires Running(w)
    ensures Toward(w, v) && Mute(v.a) && Mute(v.b)
    decreases Left(w.a) + Left(w.b)
  {
    if Mute(w.a) && Mute(w.b) {
      TowardSelf(w);
      v := w;
    } else {
      var u := Advance(w);
      LeftBound(u.a);
      LeftBound(u.b);
      v := RunOut(u);
      TowardOn(w, u, v);
    }
  }

  // ---- closing ----

  lemma MuteComplete(w: World)
    requires Sane(w) && Mute(w.b)
    ensures Complete(w.b, w.a)
  {
    AckBelowNext(w.a.receiver, w.b.sender);
  }

  lemma MuteSettled(c: Connection)
    requires ConnectionInv(c) && Mute(c)
    ensures Settled(c)
  {
    QueueTotal(c.sender);
  }

  lemma CloseMute(w: World) returns (v: World)
    requires Sane(w) && Mute(w.a) && Mute(w.b)
    ensures Toward(w, v) && !v.a.active && v.b == w.b
  {
    if !w.a.active {
      TowardSelf(w);
      v := w;
    } else {
      MuteComplete(w);
      MuteSettled(w.a);
      var u := DrainLeft(w);
      DrainedEof(u);
      SettledRipe(u);
      v := WaitLeft(u);
      TowardOn(w, u, v);
    }
  }

  lemma CloseMuteBoth(w: World) returns (v: World)
    requires Sane(w) && Mute(w.a) && Mute(w.b)
    ensures Toward(w, v) && !v.a.active && !v.b.active
  {
    var u := CloseMute(w);
    ClosedMute(u.a);
    v := CloseMute(u.Swap());
    TowardMirror(u, v);
    v := v.Swap();
    TowardOn(w, u, v);
  }

  /** Both sides closed without an error. */
  predicate Closed(w: World) {
    !w.a.active && !w.b.active && !Error(w.a) && !Error(w.b)
  }

  /** Neither side is closed while the other's FIN is not acknowledged, and not both have fallen silent. */
  predicate Closable(w: World) {
    !Frozen(w) && (!w.a.active ==> w.b.finAcked) && (!w.b.active ==> w.a.finAcked)
  }

  lemma FinMute(c: Connection)
    requires ConnectionInv(c) && c.finAcked
    ensures Mute(c)
  {
    QueueTotal(c.sender);
  }

  lemma FinishOpen(w: World) returns (v: World)
    requires Sane(w) && w.a.active && w.b.active && Patient(w.a) && Patient(w.b) && !Frozen(w)
    ensures Toward(w, v) && Mute(v.a) && Mute(v.b)
  {
    var t := AnnounceBoth(w);
    var u := Greet(t);
    TowardOn(w, t, u);
    v := RunOut(u);
    TowardOn(w, u, v);
  }

  lemma FinishForgotten(w: World) returns (v: World)
    requires Sane(w) && Patient(w.a) && Patient(w.b) && Closable(w)
    ensures Toward(w, v) && Closed(v)
  {
    var u := w;
    if w.a.active && w.b.active {
      u := FinishOpen(w);
    } else {
      if !w.a.active { ClosedMute(w.a); FinMute(w.b); }
      if !w.b.active { ClosedMute(w.b); FinMute(w.a); }
      TowardSelf(w);
    }
    v := CloseMuteBoth(u);
    TowardOn(w, u, v);
  }

  lemma NeverFinishes(w: World, moves: seq<Move>, v: World)
    requires WorldInv(w) && Empty(w) && !Closable(w) && Leads(w, moves, v)
    ensures !Closed(v)
  {
    if Frozen(w) {
      FrozenForever(w, moves, v);
    } else if !w.a.active && !w.b.finAcked {
      FinUnanswered(w, moves, v);
    } else {
      LeadsMirror(w.Swap(), moves, v);
      FinUnanswered(w.Swap(), Mirror(moves), v.Swap());
    }
  }

  /** Each side has read exactly what the other wrote. */
  predicate Exchanged(w: World, v: World) {
    && v.b.Inbound().written == w.a.Outbound().written && v.b.Inbound().read == |w.a.Outbound().written|
    && v.a.Inbound().written == w.b.Outbound().written && v.a.Inbound().read == |w.b.Outbound().written|
  }

  lemma ClosedExchanged(w: World, v: World)
    requires Sane(w) && Toward(w, v) && Closed(v)
    ensures Exchanged(w, v)
  {
    LinkFaithful(v.a, v.b, v.ab, v.ba);
    LinkFaithful(v.b, v.a, v.ba, v.ab);
  }

  /** When the network has lost everything and both sides have retries left, both can still close cleanly exactly if
      neither is closed while the other's FIN is not acknowledged, and not both have fallen silent with one of them stalled.
      Then each can have read exactly what the other wrote. */
  lemma FinishesExactly(cfgA: Config, cfgB: Config, moves: seq<Move>, w: World)
    requires cfgA.Valid() && cfgB.Valid() && Leads(InitialWorld(cfgA, cfgB), moves, w)
    requires !Error(w.a) && !Error(w.b) && Patient(w.a) && Patient(w.b)
    ensures (exists v :: Possible(Forget(w), v) && Closed(v)) <==> Closable(w)
    ensures Closable(w) ==> exists v :: Possible(Forget(w), v) && Closed(v) && Exchanged(w, v)
  {
    ReachableSane(cfgA, cfgB, moves, w);
    ForgetSane(w);
    if Closable(w) {
      var v := FinishForgotten(Forget(w));
      ClosedExchanged(Forget(w), v);
    } else {
      forall v | Possible(Forget(w), v) ensures !Closed(v) {
        var more :| Leads(Forget(w), more, v);
        NeverFinishes(Forget(w), more, v);
      }
    }
  }
}
