/** Each operation of the TCP sender keeps the whole sender invariant. */
module SenderSteps {
  import opened WrappingIntegers
  import opened ByteStreams
  import opened TcpSegments
  import opened Sending
  import opened SenderInvariants

  ghost predicate SenderInv(s: Sender) {
    QueueInv(s) && TimerInv(s) && StreamInv(s) && SentInv(s) && OutInv(s)
  }

  /** What only grows while a sender runs. */
  ghost predicate Extends(s: Sender, t: Sender) {
    && t.isn == s.isn && t.timer.initialRto == s.timer.initialRto
    && s.sent <= t.sent && s.next <= t.next && s.checkpoint <= t.checkpoint
    && Grows(s.stream, t.stream)
    && (s.sentSyn ==> t.sentSyn) && (s.sentAll ==> t.sentAll)
  }

  lemma ExtendsTrans(s: Sender, t: Sender, u: Sender)
    requires Extends(s, t) && Extends(t, u)
    ensures Extends(s, u)
  {
  }

  lemma InitialInv(capacity: nat, rtTimeout: u16, isn: u32)
    requires 0 < capacity && 0 < rtTimeout
    ensures SenderInv(InitialSender(capacity, rtTimeout, isn))
  {
    assert DoubledTimes(InitialSender(capacity, rtTimeout, isn).timer, 0);
  }

  // ---- the output queue ----

  lemma FromSentLater(g: Segment, a: seq<Placed>, b: seq<Placed>)
    requires FromSent(g, a) && a <= b
    ensures FromSent(g, b)
  {
    var k :| 0 <= k < |a| && a[k].seg == g;
    assert b[k].seg == g;
  }

  /** A queue that gained only first transmissions and bare segments. */
  lemma OutLater(s: Sender, t: Sender)
    requires OutInv(s) && s.sent <= t.sent && t.isn == s.isn && s.next <= t.next
    requires forall g :: g in t.out ==> g in s.out || FromSent(g, t.sent) || (IsBare(g, t.isn, t.next) && !g.header.ack && !g.header.rst)
    ensures OutInv(t)
  {
    forall g | g in s.out && FromSent(g, s.sent) ensures FromSent(g, t.sent) {
      FromSentLater(g, s.sent, t.sent);
    }
    forall g | g in s.out && IsBare(g, s.isn, s.next) ensures IsBare(g, t.isn, t.next) {}
  }

  lemma EmitKeepsOut(s: Sender, t: Sender, seg: Segment)
    requires OutInv(s) && t.sent == s.sent && t.out == s.out && t.isn == s.isn && t.next == s.next
    ensures OutInv(t.Emit(seg))
  {
    var u := t.Emit(seg);
    assert u.sent[|s.sent|].seg == seg;
    OutLater(s, u);
  }

  // ---- fill_window ----

  /** `seg` is the right next segment of `s`, and `t` is `s` after the stream and the flags moved. */
  ghost predicate Proper(s: Sender, t: Sender, seg: Segment) {
    && t == s.(stream := t.stream, sentAll := t.sentAll, sentSyn := true)
    && s.stream.read + |seg.payload| <= |s.stream.written|
    && t.stream == s.stream.(read := s.stream.read + |seg.payload|)
    && seg.payload == Part(s.stream.written, s.stream.read, |seg.payload|)
    && seg.LengthInSequenceSpace() > 0 && !seg.header.ack && seg.header.fin == t.sentAll
    && Carries(seg, s.next, s.isn, s.stream)
    && (t.sentAll ==> t.stream.Eof())
    && s.sentSyn != seg.header.syn && !s.sentAll
  }

  lemma EmitKeepsStream(s: Sender, t: Sender, seg: Segment)
    requires StreamInv(s) && Proper(s, t, seg)
    ensures StreamInv(t.Emit(seg))
  {
  }

  lemma EmitExtends(s: Sender, t: Sender, seg: Segment)
    requires Proper(s, t, seg)
    ensures Extends(s, t.Emit(seg))
  {
  }

  lemma EmitKeeps(s: Sender, t: Sender, seg: Segment)
    requires SenderInv(s) && Proper(s, t, seg)
    ensures SenderInv(t.Emit(seg)) && Extends(s, t.Emit(seg))
  {
    EmitKeepsQueue(t, seg);
    EmitKeepsTimer(t, seg);
    EmitKeepsSent(s, t, seg);
    EmitKeepsOut(s, t, seg);
    EmitKeepsStream(s, t, seg);
    EmitExtends(s, t, seg);
  }

  lemma ConnectKeeps(s: Sender)
    requires SenderInv(s) && !s.sentSyn
    ensures SenderInv(s.Connect()) && Extends(s, s.Connect()) && s.Connect().next == 1
  {
    EmitKeeps(s, s.(sentSyn := true), s.Syn());
  }

  lemma SendFinKeeps(s: Sender)
    requires SenderInv(s) && s.sentSyn && !s.sentAll && s.stream.Eof()
    ensures SenderInv(s.SendFin()) && Extends(s, s.SendFin()) && s.SendFin().next == s.next + 1
  {
    EmitKeeps(s, s.(sentAll := true), s.Fin());
  }

  lemma SendChunkKeeps(s: Sender)
    requires SenderInv(s) && s.sentSyn && s.CanSendChunk()
    ensures SenderInv(s.SendChunk()) && Extends(s, s.SendChunk()) && s.SendChunk().next <= s.Edge()
  {
    ChunkCarries(s);
    EmitKeeps(s, s.(stream := s.stream.Pop(s.ChunkSize()), sentAll := s.Chunk().header.fin), s.Chunk());
  }

  /** Sending data stays within the window and stops only when the window is full, everything is
      sent, or the stream has nothing more for now. */
  lemma {:induction false} SendChunksKeeps(s: Sender)
    requires SenderInv(s) && s.sentSyn && s.next <= s.Edge()
    requires s.next == s.Edge() || s.sentAll || !s.stream.Eof()
    ensures var t := s.SendChunks();
            && SenderInv(t) && Extends(s, t)
            && t.next <= s.Edge() && t.winBegin == s.winBegin && t.winSize == s.winSize && t.checkpoint == s.checkpoint
            && (t.next == t.Edge() || t.sentAll || (t.stream.Buffered() == 0 && !t.stream.ended))
    decreases s.stream.Buffered()
  {
    if s.CanSendChunk() {
      SendChunkKeeps(s);
      SendChunksKeeps(s.SendChunk());
      ExtendsTrans(s, s.SendChunk(), s.SendChunk().SendChunks());
    }
  }

  /** `fill_window` keeps the invariant, never sends past the window edge (the FIN counted), and after
      the SYN leaves a full window, a sent FIN, or an empty stream whose input is still open. */
  lemma FillKeeps(s: Sender)
    requires SenderInv(s) && s.CanFill()
    ensures var t := s.FillWindow();
            && SenderInv(t) && Extends(s, t)
            && t.sentSyn && (!s.sentSyn ==> t.next == 1)
            && (t.next <= s.next || t.next <= s.Edge())
            && t.winBegin == s.winBegin && t.winSize == s.winSize && t.checkpoint == s.checkpoint
            && (s.sentSyn ==> t.Edge() <= t.next || t.sentAll || (t.stream.Buffered() == 0 && !t.stream.ended))
  {
    if !s.sentSyn {
      ConnectKeeps(s);
    } else if s.sentAll || s.Edge() <= s.next {
    } else if s.stream.Eof() {
      SendFinKeeps(s);
    } else {
      SendChunksKeeps(s);
    }
  }

  /** Exactly the new first transmissions were queued, in order. */
  ghost predicate Queued(s: Sender, t: Sender) {
    && s.sent <= t.sent && s.out <= t.out && |t.out| - |s.out| == |t.sent| - |s.sent|
    && (forall k :: |s.sent| <= k < |t.sent| ==> t.sent[k].seg == t.out[k - |s.sent| + |s.out|])
  }

  lemma {:induction false} ChunksQueued(s: Sender)
    requires s.stream.Valid()
    ensures Queued(s, s.SendChunks())
    decreases s.stream.Buffered()
  {
    if s.CanSendChunk() {
      var m, t := s.SendChunk(), s.SendChunks();
      ChunksQueued(m);
      assert m.sent[|s.sent|].seg == m.out[|s.out|];
      forall k | |s.sent| <= k < |t.sent| ensures t.sent[k].seg == t.out[k - |s.sent| + |s.out|] {
        if k == |s.sent| { assert t.sent[k] == m.sent[k] && t.out[|s.out|] == m.out[|s.out|]; }
      }
    }
  }

  lemma FillQueued(s: Sender)
    requires s.CanFill()
    ensures Queued(s, s.FillWindow())
  {
    ChunksQueued(s);
  }

  lemma {:induction false} ChunksStream(s: Sender)
    requires s.stream.Valid()
    ensures s.SendChunks().stream == s.stream.(read := s.SendChunks().stream.read)
    decreases s.stream.Buffered()
  {
    if s.CanSendChunk() { ChunksStream(s.SendChunk()); }
  }

  /** Of the stream, `fill_window` moves only the read position. */
  lemma FillStream(s: Sender)
    requires s.CanFill()
    ensures s.FillWindow().stream == s.stream.(read := s.FillWindow().stream.read)
  {
    ChunksStream(s);
  }

  /** A FIN sent by `fill_window` is in the queue, and only then is one. */
  lemma FillFin(s: Sender)
    requires SenderInv(s) && s.CanFill() && !s.sentAll
    ensures var t := s.FillWindow();
            t.sentAll <==> exists k :: |s.out| <= k < |t.out| && t.out[k].header.fin
  {
    var t := s.FillWindow();
    FillKeeps(s);
    FillQueued(s);
    if t.sentAll {
      var k := |t.sent| - 1;
      assert Chain(t.sent, 0, t.next);
      assert t.sent[k].seg.header.fin;
      assert t.out[k - |s.sent| + |s.out|].header.fin;
    }
    forall k | |s.out| <= k < |t.out| ensures t.out[k].header.fin ==> t.sentAll {
      assert t.sent[k - |s.out| + |s.sent|].seg == t.out[k];
    }
  }

  // ---- acknowledgments and time ----

  lemma {:induction false} PopSuffix(s: Sender, ack: nat, sent: seq<Placed>)
    requires Suffix(s.outstanding, sent)
    ensures Suffix(s.PopAcked(ack).outstanding, sent)
    decreases |s.outstanding|
  {
    if s.outstanding != [] && s.outstanding[0].AbsEnd() <= ack {
      var rest := s.(inFlight := s.inFlight - s.outstanding[0].seg.LengthInSequenceSpace(), outstanding := s.outstanding[1..]);
      SuffixRest(s.outstanding, sent);
      PopSuffix(rest, ack, sent);
    }
  }

  /** An acknowledgment changes the window, the queue, the timer and the highest acknowledgment only. */
  lemma AckFrame(s: Sender, ack: u64, win: u16)
    ensures var a := s.AckAbsolute(ack, win);
            && a.isn == s.isn && a.stream == s.stream && a.next == s.next && a.sentSyn == s.sentSyn
            && a.sentAll == s.sentAll && a.out == s.out && a.sent == s.sent
            && a.timer.initialRto == s.timer.initialRto
            && a.winBegin == ack && a.winSize == (if win == 0 then 1 else win)
            && a.checkpoint == (if ack > s.checkpoint then ack else s.checkpoint)
  {
    PopFrame(s.NewWindow(ack, win), ack);
  }

  lemma AckKeeps(s: Sender, ack: u64, win: u16)
    requires SenderInv(s) && ack <= s.next
    ensures SenderInv(s.AckAbsolute(ack, win)) && Extends(s, s.AckAbsolute(ack, win))
  {
    AckKeepsQueue(s, ack, win);
    AckKeepsTimer(s, ack, win);
    AckFrame(s, ack, win);
    AckFields(s, ack, win);
    PopSuffix(s.NewWindow(ack, win), ack, s.sent);
    var a := s.AckAbsolute(ack, win);
    assert s.outstanding == [] ==> a.outstanding == [] by { PopFrame(s.NewWindow(ack, win), ack); }
    assert StreamInv(a) && SentInv(a) && OutInv(a);
  }

  lemma TickFrame(s: Sender, ms: nat)
    requires s.CanTick()
    ensures var t := s.Tick(ms);
            && t == s.(timer := t.timer, out := t.out)
            && t.timer.initialRto == s.timer.initialRto
            && (t.out == s.out || (s.outstanding != [] && t.out == s.out + [s.outstanding[0].seg]))
  {
  }

  /** A tick either sends nothing or the oldest outstanding segment once more. */
  lemma TickKeeps(s: Sender, ms: nat)
    requires SenderInv(s)
    ensures var t := s.Tick(ms);
            && QueueInv(t) && StreamInv(t) && SentInv(t) && OutInv(t)
            && (t.timer.retx <= MAX_RETX_ATTEMPTS ==> TimerInv(t))
            && t.timer.retx <= MAX_RETX_ATTEMPTS + 1
  {
    TickKeepsQueue(s, ms);
    TickKeepsTimer(s, ms);
    TickFrame(s, ms);
    if s.outstanding != [] {
      SuffixRest(s.outstanding, s.sent);
    }
    OutLater(s, s.Tick(ms));
  }

  // ---- the application's side ----

  /** Growth of the outgoing stream keeps the invariant. */
  lemma StreamGrows(s: Sender, b: Stream)
    requires SenderInv(s) && Grows(s.stream, b) && b.Valid() && b.read == s.stream.read
    ensures SenderInv(s.(stream := b)) && Extends(s, s.(stream := b))
  {
    CarriesAll(s.sent, s.isn, s.stream, b);
    assert b.written[..b.read] == s.stream.written[..b.read];
    var t := s.(stream := b);
    assert QueueInv(t) && TimerInv(t) && StreamInv(t) && SentInv(t) && OutInv(t);
  }

  lemma SendEmptyKeeps(s: Sender)
    requires SenderInv(s)
    ensures SenderInv(s.SendEmptySegment()) && Extends(s, s.SendEmptySegment())
  {
    var t := s.SendEmptySegment();
    assert IsBare(t.out[|s.out|], t.isn, t.next);
    OutLater(s, t);
  }

  lemma DrainKeeps(s: Sender)
    requires SenderInv(s)
    ensures SenderInv(s.(out := []))
  {
  }
}
