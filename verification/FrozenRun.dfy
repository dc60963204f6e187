/** Two endpoints of this stack that fall silent for good, by an acknowledgment that is delivered a second time, late. */
module FrozenRun {
  import opened WrappingIntegers
  import opened TcpSegments
  import opened SenderInvariants
  import opened SenderSteps
  import opened Receiving
  import opened Connecting
  import opened ConnectionInvariants
  import opened ConnectionRuns
  import opened Flow
  import opened Sides
  import opened TwoParty
  import opened Wire
  import opened Moves
  import opened Stall
  import opened Replays
  import opened Forgetting

  /** The left application wrote one byte and did not end its input; the right receiver has room for one. */
  ghost predicate Stage(w: World) {
    && Live(w) && |w.a.Outbound().written| == 1 && !w.a.Outbound().ended && w.a.sender.sentSyn
    && w.b.Outbound().written == [] && w.b.Inbound().capacity == 1
  }

  lemma StageOpen(w: World)
    requires Stage(w)
    ensures w.a.active && w.b.active && !w.a.sender.sentAll && w.a.sender.next <= 2
  {
    if !w.b.active { ClosedComplete(w.Swap()); }
  }

  lemma FirstWrite(cfg: Config)
    requires cfg.Valid()
    ensures var c := InitialConnection(cfg);
            && Enabled(c, Event.Write([0]))
            && var d := c.Write([0]);
               !Error(d) && |d.Outbound().written| == 1 && !d.Outbound().ended && d.sender.sentSyn && d.receiver == c.receiver
  {
    var c := InitialConnection(cfg);
    InitialConnectionInv(cfg);
    AlwaysEnabled(c, [0], 0, 0);
    var s := c.sender.(stream := c.Outbound().Write([0]));
    FillStream(s);
    FlushWritten(c.(sender := s.FillWindow()));
    FlushNoError(c.(sender := s.FillWindow()));
    SendAllFlushes(c.(sender := s.FillWindow()));
    EndSender(c.(sender := s.FillWindow()).SendAll());
    FlushReceiver(c.(sender := s.FillWindow()));
  }

  lemma FirstMove(cfgA: Config, cfgB: Config)
    requires cfgA.Valid() && cfgB.Valid()
    ensures var i := InitialWorld(cfgA, cfgB);
            && Enabled(i.a, Event.Write([0])) && CanMove(i, Move(true, Event.Write([0]))) && Live(StepLeft(i, Event.Write([0])))
  {
    var i := InitialWorld(cfgA, cfgB);
    InitialWorldInv(cfgA, cfgB);
    FirstWrite(cfgA);
    LeftWired(i, Event.Write([0]));
    BooksStep(i.a, i.b, i.ab, i.ba, Event.Write([0]));
  }

  lemma StageOne(cfgA: Config, cfgB: Config) returns (w: World)
    requires cfgA.Valid() && cfgB.Valid() && cfgB.recvCapacity == 1
    ensures Stage(w) && Possible(InitialWorld(cfgA, cfgB), w) && !w.a.receiver.gotSyn && !w.b.receiver.gotSyn
  {
    var i := InitialWorld(cfgA, cfgB);
    FirstMove(cfgA, cfgB);
    FirstWrite(cfgA);
    OneMove(i, Move(true, Event.Write([0])));
    w := StepLeft(i, Event.Write([0]));
  }

  // ---- one step each ----

  lemma ArriveStream(c: Connection, g: Segment)
    requires c.active && c.Handles(g) && !c.BeforeSyn(g) && !g.header.rst
    ensures c.SegmentReceived(g).Outbound().ended == c.Outbound().ended
    ensures c.SegmentReceived(g).Inbound().capacity == c.Inbound().capacity
  {
    ProcessWritten(c, g);
    ArriveReceiver(c, g);
    ReceivedFrame(c.receiver, g);
  }

  lemma LeftHears(w: World, g: Segment) returns (v: World)
    requires Stage(w) && g in w.ba && !w.a.BeforeSyn(g) && !g.header.rst
    ensures Enabled(w.a, Arrive(g)) && v == StepLeft(w, Arrive(g)) && Toward(w, v) && Stage(v)
  {
    StageOpen(w);
    Go(w, Arrive(g));
    ArriveStream(w.a, g);
    v := StepLeft(w, Arrive(g));
  }

  lemma RightHears(w: World, g: Segment) returns (v: World)
    requires Stage(w) && g in w.ab && !w.b.BeforeSyn(g) && !g.header.rst
    ensures Enabled(w.b, Arrive(g)) && v == StepRight(w, Arrive(g)) && Toward(w, v) && Stage(v)
  {
    StageOpen(w);
    v := GoRight(w, Arrive(g));
    ArriveStream(w.b, g);
  }

  lemma RightAnswers(w: World, g: Segment) returns (v: World, h: Segment)
    requires Stage(w) && g in w.ab && !w.b.BeforeSyn(g) && !g.header.rst && g.LengthInSequenceSpace() > 0
    ensures Toward(w, v) && Stage(v) && v.a == w.a && v.ab == w.ab
    ensures h in v.ba && Confirms(h, v.b.receiver) && h.header.win == v.b.Advertised()
  {
    v := RightHears(w, g);
    StageOpen(w);
    h := Ask(w.Swap(), g);
  }

  // ---- the handshake, and the FIN of the right endpoint ----

  lemma EndKeepsReceiver(c: Connection)
    requires ConnectionInv(c) && c.active
    ensures c.sender.CanFill() && c.EndInputStream().receiver == c.receiver && Announced(c.EndInputStream())
  {
    EndAnnounces(c);
    FlushReceiver(c.(sender := c.sender.(stream := c.Outbound().EndInput()).FillWindow()));
  }

  lemma EndRight(w: World) returns (v: World)
    requires Stage(w)
    ensures Toward(w, v) && Stage(v) && Announced(v.b) && v.a == w.a && v.b.receiver == w.b.receiver
  {
    StageOpen(w);
    v := GoRight(w, EndInput);
    EndKeepsReceiver(w.b);
  }

  /** The left endpoint has the peer's SYN, and its answer offers a window. */
  lemma SynToLeft(w: World) returns (v: World, h: Segment)
    requires Stage(w) && w.b.sender.sentSyn && !w.a.receiver.gotSyn
    ensures Toward(w, v) && Stage(v) && v.b == w.b && v.a.receiver.gotSyn && v.a.receiver.AbsAckno() == 1
    ensures h in v.ab && Confirms(h, v.a.receiver) && h.header.win > 0
  {
    var syn := SynCopy(w);
    StageOpen(w);
    v := LeftHears(w, syn);
    h := Ask(w, syn);
    ArriveReceiver(w.a, syn);
    ReceivedSyn(w.a.receiver, syn);
    AckBelowNext(v.a.receiver, v.b.sender);
  }

  /** An acknowledgment of the left SYN alone, with a window of at most one. */
  predicate Old(g: Segment, w: World) {
    g in w.ba && g.header.ack && !g.header.rst && g.header.ackno == Wrap(1, w.a.sender.isn) && g.header.win <= 1
  }

  lemma FreshIsOld(v: World, g: Segment)
    requires Stage(v) && v.a.sender.checkpoint == 0 && g in v.ba && Confirms(g, v.b.receiver) && g.header.win == v.b.Advertised()
    ensures Old(g, v)
  {
    AckBelowNext(v.b.receiver, v.a.sender);
  }

  lemma SynToRight(w: World) returns (v: World, g: Segment)
    requires Stage(w) && !w.b.receiver.gotSyn
    ensures Toward(w, v) && Stage(v) && v.b.receiver.gotSyn && v.a == w.a && Old(g, v) && v.ab == w.ab
  {
    var syn := SynCopy(w.Swap());
    v, g := RightAnswers(w, syn);
    FreshIsOld(v, g);
  }

  /** The acknowledgment of its SYN lets the right endpoint send its FIN. */
  lemma FinFromRight(w: World, h: Segment) returns (v: World)
    requires Stage(w) && Announced(w.b) && w.b.receiver.gotSyn
    requires h in w.ab && Confirms(h, w.a.receiver) && h.header.win > 0 && w.a.receiver.AbsAckno() == 1
    ensures Toward(w, v) && Stage(v) && v.a == w.a && w.ba <= v.ba && v.b.sender.sentAll && v.b.sender.next == 2
  {
    StageOpen(w);
    v := RightHears(w, h);
    if !w.b.sender.sentAll {
      CurrentDecodes(w.a.receiver, w.b.sender, h);
      AckArrives(w.b, h);
    }
  }

  lemma Deliverable(w: World, g: Segment, abs: nat)
    requires Stage(w) && w.a.receiver.gotSyn && w.b.sender.next == 2 && w.a.receiver.AbsAckno() == 1
    requires g in w.ba && Carries(g, abs, w.b.sender.isn, w.b.sender.stream) && abs <= 1 < abs + g.LengthInSequenceSpace() <= 2
    ensures w.a.Handles(g) && w.a.SegmentReceived(g).receiver.AbsAckno() > 1
  {
    StageOpen(w);
    NeverAborts(w.a, w.b, w.ab, w.ba, Arrive(g));
    NextArrives(w.a.receiver, g, w.b.sender, abs);
    ArriveReceiver(w.a, g);
  }

  /** The FIN arrives, and its acknowledgment is put out. */
  lemma FinToLeft(w: World) returns (v: World, h: Segment)
    requires Stage(w) && w.a.receiver.gotSyn && w.b.sender.next == 2 && w.a.receiver.AbsAckno() == 1
    ensures Toward(w, v) && Stage(v) && v.b == w.b && v.ba == w.ba
    ensures h in v.ab && Confirms(h, v.a.receiver) && v.a.receiver.AbsAckno() == 2
  {
    var g, abs := CopyOver(w.b.sender, w.ba, 1);
    StageOpen(w);
    Deliverable(w, g, abs);
    v := LeftHears(w, g);
    h := Ask(w, g);
    AckBelowNext(v.a.receiver, v.b.sender);
  }

  lemma RightMute(w: World, h: Segment) returns (v: World)
    requires Stage(w) && w.b.sender.sentAll && w.b.receiver.gotSyn && w.b.sender.next == 2
    requires h in w.ab && Confirms(h, w.a.receiver) && w.a.receiver.AbsAckno() == 2
    ensures Toward(w, v) && Stage(v) && v.a == w.a && w.ba <= v.ba && Mute(v.b)
  {
    StageOpen(w);
    v := RightHears(w, h);
    CurrentAck(w.b, h, w.a.receiver);
    AllAcked(v.b);
  }

  // ---- one byte, its acknowledgment, and the old acknowledgment again ----

  lemma OldDecodes(w: World, g: Segment)
    requires Stage(w) && Old(g, w) && w.b.receiver.gotSyn
    ensures w.a.sender.AbsSeqno(g.header.ackno) == 1 && Offer(g.header.win) == 1
  {
    UnwrapWrap(1, w.a.sender.isn, w.a.sender.checkpoint);
  }

  lemma OldTaken(c: Connection, g: Segment)
    requires ConnectionInv(c) && c.active && c.CanProcess(g) && !c.BeforeSyn(g) && c.sender.sentSyn && 1 <= c.sender.next
    requires g.header.ack && c.sender.AbsSeqno(g.header.ackno) == 1 && Offer(g.header.win) == 1
    ensures var t := c.Taken(g).sender; SenderInv(t) && t.CanFill() && t.Edge() == 2 && t.sentSyn && t.stream == c.sender.stream
  {
    TakenExtends(c, g);
    KeepAliveOut(c.Receive(g), g);
    AckFrame(c.Receive(g).AnswerKeepAlive(g).sender, 1, g.header.win);
  }

  /** The window lets the byte out. */
  lemma ByteFromLeft(w: World, g: Segment) returns (v: World)
    requires Stage(w) && Old(g, w) && w.a.receiver.gotSyn && w.b.receiver.gotSyn
    ensures Toward(w, v) && Stage(v) && v.b == w.b && v.ba == w.ba && v.a.sender.next == 2
  {
    StageOpen(w);
    v := LeftHears(w, g);
    OldDecodes(w, g);
    assert w.a.CanProcess(g);
    OldTaken(w.a, g);
    FillKeeps(w.a.Taken(g).sender);
    AnswerNext(w.a.Taken(g), g);
    StageOpen(v);
  }

  lemma ByteArrives(w: World, g: Segment, abs: nat)
    requires Stage(w) && w.b.receiver.gotSyn && w.a.sender.next == 2 && w.b.receiver.AbsAckno() == 1
    requires g in w.ab && Carries(g, abs, w.a.sender.isn, w.a.sender.stream) && abs <= 1 < abs + g.LengthInSequenceSpace() <= 2
    ensures w.b.Handles(g) && w.b.SegmentReceived(g).receiver.AbsAckno() > 1
  {
    StageOpen(w);
    NeverAborts(w.b, w.a, w.ba, w.ab, Arrive(g));
    NextArrives(w.b.receiver, g, w.a.sender, abs);
    ArriveReceiver(w.b, g);
  }

  lemma ByteToRight(w: World) returns (v: World)
    requires Stage(w) && w.b.receiver.gotSyn && w.a.sender.next == 2 && Mute(w.b)
    ensures Toward(w, v) && Stage(v) && v.a == w.a && w.ba <= v.ba && v.b.receiver.AbsAckno() == 2 && Mute(v.b)
  {
    StageOpen(w);
    AckBelowNext(w.b.receiver, w.a.sender);
    if w.b.receiver.AbsAckno() == 2 {
      TowardSelf(w);
      v := w;
    } else {
      var g, abs := CopyOver(w.a.sender, w.ab, 1);
      ByteArrives(w, g, abs);
      v := RightHears(w, g);
      AckBelowNext(v.b.receiver, v.a.sender);
      AllAcked(v.b);
    }
  }

  lemma AckToLeft(w: World) returns (v: World)
    requires Stage(w) && w.a.receiver.gotSyn && w.b.receiver.gotSyn && w.a.sender.next == 2 && w.b.receiver.AbsAckno() == 2
    ensures Toward(w, v) && Stage(v) && v.b == w.b && v.ba == w.ba && v.a.sender.next == 2 && v.a.sender.checkpoint == 2
  {
    StageOpen(w);
    var g :| g in w.ba && Confirms(g, w.b.receiver);
    v := LeftHears(w, g);
    CurrentAck(w.a, g, w.b.receiver);
    StageOpen(v);
  }

  lemma OldAgain(w: World, g: Segment) returns (v: World)
    requires Stage(w) && Old(g, w) && w.a.receiver.gotSyn && w.b.receiver.gotSyn
    requires w.a.sender.next == 2 && w.a.sender.checkpoint == 2
    ensures Toward(w, v) && v.b == w.b && Stalled(v.a)
  {
    StageOpen(w);
    v := LeftHears(w, g);
    OldDecodes(w, g);
    EventStallsExactly(w.a, Arrive(g));
  }

  // ---- the whole run ----

  /** The handshake is done, the right endpoint has nothing left to say, and an old acknowledgment is still on the wire. */
  ghost predicate OneSided(w: World, g: Segment) {
    Stage(w) && w.a.receiver.gotSyn && w.b.receiver.gotSyn && Mute(w.b) && Old(g, w)
  }

  lemma Introduced(w: World) returns (v: World, h: Segment, g: Segment)
    requires Stage(w) && !w.a.receiver.gotSyn && !w.b.receiver.gotSyn
    ensures Toward(w, v) && Stage(v) && Announced(v.b) && v.a.receiver.gotSyn && v.b.receiver.gotSyn && Old(g, v)
    ensures h in v.ab && Confirms(h, v.a.receiver) && h.header.win > 0 && v.a.receiver.AbsAckno() == 1
  {
    var t := EndRight(w);
    var u;
    u, h := SynToLeft(t);
    TowardOn(w, t, u);
    v, g := SynToRight(u);
    TowardOn(w, u, v);
  }

  lemma Hushed(w: World) returns (v: World, g: Segment)
    requires Stage(w) && !w.a.receiver.gotSyn && !w.b.receiver.gotSyn
    ensures Toward(w, v) && OneSided(v, g)
  {
    var s, h;
    s, h, g := Introduced(w);
    var t := FinFromRight(s, h);
    TowardOn(w, s, t);
    var u, k := FinToLeft(t);
    TowardOn(w, t, u);
    v := RightMute(u, k);
    TowardOn(w, u, v);
  }

  lemma Freezes(w: World, g: Segment) returns (v: World)
    requires OneSided(w, g)
    ensures Toward(w, v) && Frozen(v)
  {
    var s := ByteFromLeft(w, g);
    var t := ByteToRight(s);
    TowardOn(w, s, t);
    var u := AckToLeft(t);
    TowardOn(w, t, u);
    v := OldAgain(u, g);
    TowardOn(w, u, v);
  }

  /** Between two endpoints of this stack, for every configuration with a receiver of capacity one: some moves stall one side
      by an old acknowledgment when the other has nothing left to say. If the network then loses what is old, nothing is ever
      sent again, and whatever the left application writes stays where it is. */
  lemma FrozenReached(cfgA: Config, cfgB: Config) returns (w: World)
    requires cfgA.Valid() && cfgB.Valid() && cfgB.recvCapacity == 1
    ensures Possible(InitialWorld(cfgA, cfgB), w) && Stalled(w.a) && Mute(w.b) && !Error(w.a) && !Error(w.b)
    ensures forall moves, v :: Leads(Forget(w), moves, v) ==> Frozen(v) && Empty(v)
  {
    var t := StageOne(cfgA, cfgB);
    var u, g := Hushed(t);
    w := Freezes(u, g);
    PossibleOn(InitialWorld(cfgA, cfgB), t, u);
    PossibleOn(InitialWorld(cfgA, cfgB), u, w);
    forall moves, v | Leads(Forget(w), moves, v) ensures Frozen(v) && Empty(v) {
      FrozenForever(Forget(w), moves, v);
    }
  }
}
