/** What is on the wire in every run of two connections: a copy of every segment sent for the first time, and
    an acknowledgment of everything received. */
module Wire {
  import opened ByteStreams
  import opened TcpSegments
  import opened Sending
  import opened SenderInvariants
  import opened SenderSteps
  import opened Receiving
  import opened Connecting
  import opened ConnectionInvariants
  import opened ConnectionRuns
  import opened Flow
  import opened Emission
  import opened Sides
  import opened TwoParty

  /** A copy of `p` is among `wire`, whatever it acknowledges. */
  ghost predicate Copied(p: Segment, wire: set<Segment>) {
    exists g :: g in wire && SameData(p, g)
  }

  ghost predicate OnWire(s: Sender, wire: set<Segment>) {
    forall k :: 0 <= k < |s.sent| ==> Copied(s.sent[k].seg, wire)
  }

  /** `g` acknowledges everything `r` has. */
  predicate Confirms(g: Segment, r: Receiver) {
    r.gotSyn && g.header.ack && !g.header.rst && g.header.ackno == r.Ackno()
  }

  ghost predicate Confirmed(r: Receiver, wire: set<Segment>) {
    r.gotSyn ==> exists g :: g in wire && Confirms(g, r)
  }

  // ---- what a flush puts out ----

  lemma {:induction false} StampedAt(c: Connection, segs: seq<Segment>, k: nat)
    requires c.receiver.Valid() && k < |segs|
    ensures c.Stamp(segs[k]) in StampAll(c, segs)
  {
    if k > 0 { StampedAt(c, segs[1..], k - 1); }
  }

  lemma FlushPutsOut(d: Connection, k: nat)
    requires d.receiver.Valid() && k < |d.sender.out|
    ensures d.Stamp(d.sender.out[k]) in Sent(d.SendAll().TryToEndCleanly())
    ensures Copied(d.sender.out[k], Sent(d.SendAll().TryToEndCleanly()))
  {
    SendAllFlushes(d);
    StampedAt(d, d.sender.out, k);
    assert SameData(d.sender.out[k], d.Stamp(d.sender.out[k]));
  }

  /** Everything `d` has sent since `s` is put out. */
  ghost predicate News(s: Sender, d: Connection) {
    forall k :: |s.sent| <= k < |d.sender.sent| ==> Copied(d.sender.sent[k].seg, Sent(d))
  }

  lemma FlushSent(d: Connection)
    requires d.receiver.Valid()
    ensures d.SendAll().TryToEndCleanly().sender.sent == d.sender.sent
  {
    SendAllFlushes(d);
    EndSender(d.SendAll());
  }

  lemma FlushNews(s: Sender, d: Connection)
    requires d.receiver.Valid() && Queued(s, d.sender)
    ensures News(s, d.SendAll().TryToEndCleanly())
  {
    FlushSent(d);
    forall k | |s.sent| <= k < |d.sender.sent| ensures Copied(d.sender.sent[k].seg, Sent(d.SendAll().TryToEndCleanly())) {
      FlushPutsOut(d, k - |s.sent| + |s.out|);
    }
  }

  // ---- what each event puts out ----

  lemma AnswerNews(t: Connection, seg: Segment)
    requires t.receiver.Valid() && t.sender.CanFill()
    ensures News(t.sender, t.Answer(seg).SendAll().TryToEndCleanly())
  {
    FillQueued(t.sender);
    if t.Answer(seg).sender == t.sender.FillWindow() {
      FlushNews(t.sender, t.Answer(seg));
    } else {
      FlushSent(t.Answer(seg));
    }
  }

  lemma ArriveNews(c: Connection, seg: Segment)
    requires c.Handles(seg)
    ensures News(c.sender, c.SegmentReceived(seg))
  {
    if c.active && !c.BeforeSyn(seg) && !seg.header.rst {
      TakenWritten(c, seg);
      AnswerNews(c.Taken(seg), seg);
    }
  }

  lemma GrowNews(c: Connection, b: Stream)
    requires c.receiver.Valid() && c.sender.(stream := b).CanFill()
    ensures News(c.sender, c.(sender := c.sender.(stream := b).FillWindow()).SendAll().TryToEndCleanly())
  {
    FillQueued(c.sender.(stream := b));
    FlushNews(c.sender.(stream := b), c.(sender := c.sender.(stream := b).FillWindow()));
  }

  lemma ConnectNews(c: Connection)
    requires c.CanConnect()
    ensures News(c.sender, c.Connect())
  {
    FillQueued(c.sender);
    var d := c.Connect();
    assert SameData(c.sender.Syn(), d.out[0]);
  }

  lemma TickNews(c: Connection, ms: nat)
    requires ConnectionInv(c) && c.CanTick()
    ensures News(c.sender, c.Tick(ms))
  {
    if c.active {
      TickFrame(c.sender, ms);
      TickedSender(c, ms);
    }
  }

  lemma EventNews(c: Connection, e: Event)
    requires ConnectionInv(c) && Enabled(c, e)
    ensures News(c.sender, Next(c, e))
  {
    match e
    case Arrive(seg) => ArriveNews(c, seg);
    case Write(data) => GrowNews(c, c.Outbound().Write(data));
    case EndInput => GrowNews(c, c.Outbound().EndInput());
    case Connect => ConnectNews(c);
    case Tick(ms) => TickNews(c, ms);
    case _ =>
  }

  // ---- answers ----

  lemma OutNotReset(s: Sender, k: nat)
    requires SentInv(s) && OutInv(s) && k < |s.out|
    ensures !s.out[k].header.rst
  {
    var g := s.out[k];
    if FromSent(g, s.sent) {
      var i :| 0 <= i < |s.sent| && s.sent[i].seg == g;
    }
  }

  lemma AnswerQueues(t: Connection, seg: Segment)
    requires t.sender.CanFill() && seg.LengthInSequenceSpace() > 0
    ensures t.Answer(seg).sender.out != [] && t.Answer(seg).receiver == t.receiver
  {
  }

  lemma FlushReplies(a: Connection) returns (g: Segment)
    requires Mid(a) && a.receiver.gotSyn && a.sender.out != []
    ensures var d := a.SendAll().TryToEndCleanly();
            g in Sent(d) && d.receiver == a.receiver && Confirms(g, a.receiver) && g.header.win == a.Advertised()
  {
    OutNotReset(a.sender, 0);
    FlushPutsOut(a, 0);
    FlushReceiver(a);
    g := a.Stamp(a.sender.out[0]);
  }

  /** A segment that takes sequence space is answered with everything received and the current window. */
  lemma Reply(c: Connection, seg: Segment) returns (g: Segment)
    requires ConnectionInv(c) && c.active && c.CanProcess(seg) && !c.BeforeSyn(seg) && seg.LengthInSequenceSpace() > 0
    ensures var d := c.Process(seg);
            g in Sent(d) && d.receiver.Valid() && Confirms(g, d.receiver) && g.header.win == d.Advertised()
  {
    TakenFrame(c, seg);
    var t := c.Taken(seg);
    ReceivedSyn(c.receiver, seg);
    AnswerMid(t, seg);
    AnswerQueues(t, seg);
    g := FlushReplies(t.Answer(seg));
  }

  /** A segment without sequence space changes nothing that is acknowledged. */
  lemma EmptyReceived(r: Receiver, seg: Segment)
    requires r.Valid() && r.Handles(seg) && seg.LengthInSequenceSpace() == 0
    ensures r.SegmentReceived(seg) == r.(checkpoint := r.SegmentReceived(seg).checkpoint)
  {
    if !r.Ignores(seg) { TakeNothing(r.Noted(seg), seg, r.IndexOf(seg)); }
  }

  // ---- in every run ----

  ghost predicate Wired(w: World) {
    && WorldInv(w)
    && OnWire(w.a.sender, w.ab) && OnWire(w.b.sender, w.ba)
    && Confirmed(w.a.receiver, w.ab) && Confirmed(w.b.receiver, w.ba)
  }

  lemma OnWireStep(c: Connection, e: Event, wire: set<Segment>)
    requires ConnectionInv(c) && Enabled(c, e) && OnWire(c.sender, wire)
    ensures OnWire(Next(c, e).sender, wire + Sent(Next(c, e)))
  {
    EventExtends(c, e);
    EventNews(c, e);
    var d := Next(c, e);
    forall k | 0 <= k < |d.sender.sent| ensures Copied(d.sender.sent[k].seg, wire + Sent(d)) {
      if k < |c.sender.sent| { assert Copied(c.sender.sent[k].seg, wire); }
    }
  }

  /** The acknowledgment number stands, or the event put out the new one. */
  ghost predicate AckNews(c: Connection, d: Connection) {
    || (d.receiver.gotSyn == c.receiver.gotSyn && d.receiver.isn == c.receiver.isn && d.receiver.AbsAckno() == c.receiver.AbsAckno())
    || exists g :: g in Sent(d) && Confirms(g, d.receiver)
  }

  lemma ArriveAck(c: Connection, seg: Segment)
    requires ConnectionInv(c) && c.Handles(seg)
    ensures AckNews(c, c.SegmentReceived(seg))
  {
    if c.active && !c.BeforeSyn(seg) && !seg.header.rst {
      if seg.LengthInSequenceSpace() > 0 {
        var g := Reply(c, seg);
      } else {
        EmptyReceived(c.receiver, seg);
        ProcessReceiver(c, seg);
      }
    }
  }

  lemma EventAck(c: Connection, e: Event)
    requires ConnectionInv(c) && Enabled(c, e)
    ensures AckNews(c, Next(c, e))
  {
    match e
    case Arrive(seg) => ArriveAck(c, seg);
    case Write(data) => FlushReceiver(c.(sender := c.sender.(stream := c.sender.stream.Write(data)).FillWindow()));
    case EndInput => FlushReceiver(c.(sender := c.sender.(stream := c.sender.stream.EndInput()).FillWindow()));
    case Tick(ms) => TickAck(c, ms);
    case _ =>
  }

  lemma TickAck(c: Connection, ms: nat)
    requires ConnectionInv(c) && c.CanTick()
    ensures AckNews(c, c.Tick(ms))
  {
    TickCases(c, ms);
    if c.active {
      var t := Ticked(c, ms);
      SendAllFlushes(t);
      EndReceiver(t.SendAll());
      if c.lingerBegin { assert c.receiver.reas.out.EndInput() == c.receiver.reas.out; }
    }
  }

  lemma ConfirmedStep(c: Connection, e: Event, wire: set<Segment>)
    requires ConnectionInv(c) && Enabled(c, e) && Confirmed(c.receiver, wire)
    ensures Confirmed(Next(c, e).receiver, wire + Sent(Next(c, e)))
  {
    EventAck(c, e);
    var d := Next(c, e);
    if d.receiver.gotSyn && !(exists g :: g in Sent(d) && Confirms(g, d.receiver)) {
      var g :| g in wire && Confirms(g, c.receiver);
      assert Confirms(g, d.receiver);
    }
  }

  lemma LeftWired(w: World, e: Event)
    requires Wired(w) && Offered(w.a, e, w.ba)
    ensures Enabled(w.a, e) && Wired(StepLeft(w, e))
  {
    LeftKeeps(w, e);
    OnWireStep(w.a, e, w.ab);
    ConfirmedStep(w.a, e, w.ab);
  }

  lemma MoveWired(w: World, m: Move)
    requires Wired(w) && Offered(Actor(w, m), m.event, Inbox(w, m))
    ensures CanMove(w, m) && Wired(Step(w, m))
  {
    if m.left { LeftWired(w, m.event); } else { LeftWired(w.Swap(), m.event); }
  }

  lemma {:induction false} LeadsWired(w: World, moves: seq<Move>, v: World)
    requires Wired(w) && Leads(w, moves, v)
    ensures Wired(v)
    decreases |moves|
  {
    if moves != [] {
      MoveWired(w, moves[0]);
      LeadsWired(Step(w, moves[0]), moves[1..], v);
    }
  }

  /** In every reachable world a copy of each first transmission is on the wire, and so is an acknowledgment of
      everything each side received. */
  lemma ReachableWired(cfgA: Config, cfgB: Config, moves: seq<Move>, w: World)
    requires cfgA.Valid() && cfgB.Valid() && Leads(InitialWorld(cfgA, cfgB), moves, w)
    ensures Wired(w)
  {
    InitialWorldInv(cfgA, cfgB);
    LeadsWired(InitialWorld(cfgA, cfgB), moves, w);
  }
}
