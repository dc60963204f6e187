/** What every operation of the TCP sender keeps. */
module SenderInvariants {
  import opened WrappingIntegers
  import opened ByteStreams
  import opened TcpSegments
  import opened Sending

  // ---- the outstanding queue ----

  /** The segments follow one another without gap from `start` to `end`. */
  ghost predicate Chain(o: seq<Placed>, start: nat, end: nat) {
    if o == [] then start == end else
      && o[0].absSeqno == start
      && o[0].seg.LengthInSequenceSpace() > 0
      && Chain(o[1..], o[0].AbsEnd(), end)
  }

  lemma {:induction false} ChainAppend(o: seq<Placed>, p: Placed, start: nat)
    requires Chain(o, start, p.absSeqno) && p.seg.LengthInSequenceSpace() > 0
    ensures Chain(o + [p], start, p.AbsEnd())
  {
    if o != [] {
      ChainAppend(o[1..], p, o[0].AbsEnd());
      assert (o + [p])[1..] == o[1..] + [p];
    }
  }

  lemma {:induction false} ChainLength(o: seq<Placed>, start: nat, end: nat)
    requires Chain(o, start, end)
    ensures start <= end
    ensures o != [] ==> o[0].AbsEnd() <= end
  {
    if o != [] { ChainLength(o[1..], o[0].AbsEnd(), end); }
  }

  /** The total length of a contiguous queue is the distance between its ends. */
  lemma {:induction false} ChainTotal(o: seq<Placed>, start: nat, end: nat)
    requires Chain(o, start, end)
    ensures TotalLength(o) == end - start
  {
    if o != [] { ChainTotal(o[1..], o[0].AbsEnd(), end); }
  }

  function TotalLength(o: seq<Placed>): nat {
    if o == [] then 0 else o[0].seg.LengthInSequenceSpace() + TotalLength(o[1..])
  }

  /** The first sequence position not acknowledged segment-wise. */
  function Base(s: Sender): nat {
    if s.outstanding == [] then s.next else s.outstanding[0].absSeqno
  }

  /** The outstanding segments are contiguous and end at `next`, `inFlight` is their total length,
      the first of them straddles the highest accepted acknowledgment, and none is left exactly when
      that acknowledgment is `next`. */
  ghost predicate QueueInv(s: Sender) {
    && Chain(s.outstanding, Base(s), s.next)
    && s.inFlight == s.next - Base(s)
    && Base(s) <= s.checkpoint <= s.next
    && (s.outstanding == [] <==> s.checkpoint == s.next)
    && (s.outstanding != [] ==> s.checkpoint < s.outstanding[0].AbsEnd())
  }

  lemma QueueTotal(s: Sender)
    requires QueueInv(s)
    ensures s.inFlight == TotalLength(s.outstanding)
    ensures s.inFlight == 0 <==> s.outstanding == []
  {
    ChainTotal(s.outstanding, Base(s), s.next);
  }

  lemma EmitKeepsQueue(s: Sender, seg: Segment)
    requires QueueInv(s) && seg.LengthInSequenceSpace() > 0
    ensures QueueInv(s.Emit(seg))
  {
    ChainAppend(s.outstanding, Placed(seg, s.next), Base(s));
    ChainLength(s.outstanding, Base(s), s.next);
  }

  /** Popping up to `ack` leaves a contiguous queue whose first segment ends beyond `ack`. */
  lemma {:induction false} PopAckedQueue(s: Sender, ack: nat, start: nat)
    requires Chain(s.outstanding, start, s.next) && s.inFlight == s.next - start
    ensures var p := s.PopAcked(ack);
            && p == s.(inFlight := p.inFlight, outstanding := p.outstanding)
            && Chain(p.outstanding, Base(p), p.next) && p.inFlight == p.next - Base(p)
            && (p.outstanding != [] ==> ack < p.outstanding[0].AbsEnd())
            && (Base(p) == start || Base(p) <= ack)
    decreases |s.outstanding|
  {
    if s.outstanding != [] && s.outstanding[0].AbsEnd() <= ack {
      var first := s.outstanding[0];
      var rest := s.(inFlight := s.inFlight - first.seg.LengthInSequenceSpace(), outstanding := s.outstanding[1..]);
      PopAckedQueue(rest, ack, first.AbsEnd());
    }
  }

  /** What an acknowledgment leaves of the queue and the highest acknowledgment. */
  lemma AckFields(s: Sender, ack: u64, win: u16)
    ensures var a, p := s.AckAbsolute(ack, win), s.NewWindow(ack, win).PopAcked(ack);
            && a.outstanding == p.outstanding && a.inFlight == p.inFlight && a.next == p.next
            && a.stream == p.stream && a.out == p.out && a.sent == p.sent
            && a.checkpoint == if ack > p.checkpoint then ack else p.checkpoint
  {
  }

  /** Any acknowledgment, old, repeated or new, keeps the queue. */
  lemma AckKeepsQueue(s: Sender, ack: u64, win: u16)
    requires QueueInv(s) && ack <= s.next
    ensures QueueInv(s.AckAbsolute(ack, win))
    ensures s.AckAbsolute(ack, win).checkpoint == if ack > s.checkpoint then ack else s.checkpoint
  {
    var w := s.NewWindow(ack, win);
    PopAckedQueue(w, ack, Base(s));
    var p := w.PopAcked(ack);
    ChainLength(p.outstanding, Base(p), p.next);
    AckFields(s, ack, win);
    if ack <= s.checkpoint { PopNothing(w, ack); }
  }

  lemma PopNothing(s: Sender, ack: nat)
    requires s.outstanding != [] ==> ack < s.outstanding[0].AbsEnd()
    ensures s.PopAcked(ack) == s
  {
  }

  lemma TickKeepsQueue(s: Sender, ms: nat)
    requires QueueInv(s) && s.CanTick()
    ensures QueueInv(s.Tick(ms))
  {
  }

  // ---- the retransmission timer ----

  function Pow2(e: nat): nat {
    if e == 0 then 1 else 2 * Pow2(e - 1)
  }

  lemma {:induction false} Pow2Mono(e: nat, f: nat)
    requires e <= f
    ensures 0 < Pow2(e) <= Pow2(f)
  {
    if e < f { Pow2Mono(e, f - 1); } else if e > 0 { Pow2Mono(e - 1, e - 1); }
  }

  lemma Pow2Sixteen()
    ensures Pow2(16) == 0x1_0000
  {
    assert Pow2(4) == 16 && Pow2(8) == 256 && Pow2(12) == 4096;
  }

  /** The current timeout is the initial one doubled `e` times, without loss to 32 bits. */
  predicate DoubledTimes(t: Timer, e: nat) {
    t.rto == t.initialRto * Pow2(e)
  }

  /** How often the timeout may have doubled: once per retransmission in a row, and up to eight times
      more left over from the SYN, whose acknowledgment does not reset the timeout. */
  function DoublingBound(t: Timer, acked: bool): nat {
    (if acked then MAX_RETX_ATTEMPTS else 0) + (if t.timing then t.retx else 0)
  }

  /** The timeout stays a power of two times the initial one; `acked` says something was acknowledged. */
  ghost predicate Sound(t: Timer, acked: bool) {
    && 0 < t.initialRto < 0x1_0000
    && t.retx <= MAX_RETX_ATTEMPTS
    && exists e: nat :: e <= DoublingBound(t, acked) && DoubledTimes(t, e)
  }

  /** The timer runs exactly when something is outstanding and then has time left. */
  ghost predicate TimerInv(s: Sender) {
    s.CanTick() && Sound(s.timer, s.checkpoint > 0)
  }

  lemma Product(a: nat, p: nat, q: nat, n: nat)
    requires p <= q && a < n && 0 < q
    ensures a * p <= a * q < n * q
  {
  }

  /** While the retry limit is not exceeded the timeout never wraps: it is `rt_timeout * 2^e` with e at most 16. */
  lemma TimeoutBound(t: Timer, acked: bool) returns (e: nat)
    requires Sound(t, acked)
    ensures e <= DoublingBound(t, acked) && e <= 16 && DoubledTimes(t, e) && 0 < t.rto < TWO32
  {
    e :| e <= DoublingBound(t, acked) && DoubledTimes(t, e);
    Pow2Mono(e, 16);
    Pow2Sixteen();
    Product(t.initialRto, Pow2(e), Pow2(16), 0x1_0000);
    Product(t.initialRto, 1, Pow2(e), t.initialRto + 1);
  }

  lemma BeginSound(t: Timer, acked: bool)
    requires Sound(t, acked) && !t.timing
    ensures Sound(t.Begin(), acked) && t.Begin().countdown > 0
  {
    var e := TimeoutBound(t, acked);
    assert DoubledTimes(t.Begin(), e);
  }

  lemma EmitKeepsTimer(s: Sender, seg: Segment)
    requires TimerInv(s)
    ensures TimerInv(s.Emit(seg))
  {
    if !s.timer.timing { BeginSound(s.timer, s.checkpoint > 0); }
  }

  lemma ResetSound(t: Timer, acked: bool)
    requires 0 < t.initialRto < 0x1_0000
    ensures Sound(t.Reset(), acked) && Sound(t.Reset().Begin(), acked) && t.Reset().Begin().countdown > 0
  {
    assert DoubledTimes(t.Reset(), 0) && DoubledTimes(t.Reset().Begin(), 0);
  }

  /** The first acknowledgment, of the SYN alone, leaves the timeout as it is. */
  lemma AckedSound(t: Timer, acked: bool)
    requires Sound(t, acked)
    ensures Sound(t, true)
    ensures !acked || !t.timing ==> Sound(t.(timing := false), true)
  {
    var e := TimeoutBound(t, acked);
    assert DoubledTimes(t, e) && DoubledTimes(t.(timing := false), e);
  }

  lemma AckKeepsTimer(s: Sender, ack: u64, win: u16)
    requires TimerInv(s) && QueueInv(s) && ack <= s.next
    ensures TimerInv(s.AckAbsolute(ack, win))
  {
    var w := s.NewWindow(ack, win);
    if ack > 1 && ack > s.checkpoint {
      PopFrame(w, ack);
      ResetSound(s.timer, true);
    } else if ack > s.checkpoint {
      PopFrame(w, ack);
      AckedSound(s.timer, false);
      PopAckedQueue(w, ack, Base(s));
    } else {
      PopNothing(w, ack);
    }
  }

  /** Popping touches the queue and its length only. */
  lemma {:induction false} PopFrame(s: Sender, ack: nat)
    ensures var p := s.PopAcked(ack);
            p == s.(inFlight := p.inFlight, outstanding := p.outstanding) && (s.outstanding == [] ==> p.outstanding == [])
    decreases |s.outstanding|
  {
    if s.outstanding != [] && s.outstanding[0].AbsEnd() <= ack {
      PopFrame(s.(inFlight := s.inFlight - s.outstanding[0].seg.LengthInSequenceSpace(), outstanding := s.outstanding[1..]), ack);
    }
  }

  /** A tick keeps the timer unless it is the ninth retransmission in a row, which ends the connection. */
  lemma TickKeepsTimer(s: Sender, ms: nat)
    requires TimerInv(s)
    ensures s.Tick(ms).timer.retx <= MAX_RETX_ATTEMPTS + 1
    ensures s.Tick(ms).timer.retx <= MAX_RETX_ATTEMPTS ==> TimerInv(s.Tick(ms))
  {
    var t, acked := s.Tick(ms).timer, s.checkpoint > 0;
    var e := TimeoutBound(s.timer, acked);
    if s.timer.timing && s.timer.countdown <= ms {
      if t.retx <= MAX_RETX_ATTEMPTS {
        if e <= 15 { DoublingFits(s.timer, e); }
        assert DoubledTimes(t, if s.zeroWindow then e else e + 1);
      }
    } else {
      assert DoubledTimes(t, e);
    }
  }

  /** Doubling stays below 2^32 from e at most 15. */
  lemma DoublingFits(t: Timer, e: nat)
    requires 0 < t.initialRto < 0x1_0000 && DoubledTimes(t, e) && e <= 15
    ensures 0 < t.rto * 2 == t.initialRto * Pow2(e + 1) < TWO32
  {
    Pow2Sixteen();
    assert t.initialRto * (2 * Pow2(e)) == 2 * (t.initialRto * Pow2(e));
    Pow2Mono(e + 1, 16);
    Product(t.initialRto, Pow2(e + 1), Pow2(16), 0x1_0000);
    Product(t.initialRto, 1, Pow2(e + 1), t.initialRto + 1);
  }

  /** From e = 16 the doubling is exact precisely if `rt_timeout < 2^15`. */
  lemma LastDoublingFits(t: Timer)
    requires 0 < t.initialRto < 0x1_0000 && DoubledTimes(t, 16)
    ensures t.rto * 2 % TWO32 == t.initialRto * Pow2(17) <==> t.initialRto < 0x8000
  {
    Pow2Sixteen();
    assert Pow2(17) == 0x2_0000;
    assert t.rto == t.initialRto * 0x1_0000;
  }

  /** The ninth retransmission in a row doubles for the last time; no run gets past e = 17, and the
      doubling is exact whenever `rt_timeout < 2^15`. */
  lemma LastDoubling(s: Sender, ms: nat) returns (e: nat)
    requires TimerInv(s) && s.timer.initialRto < 0x8000
    ensures e <= 17 && DoubledTimes(s.Tick(ms).timer, e)
  {
    e := TimeoutBound(s.timer, s.checkpoint > 0);
    if s.timer.timing && s.timer.countdown <= ms && !s.zeroWindow {
      if e <= 15 { DoublingFits(s.timer, e); } else { LastDoublingFits(s.timer); }
      e := e + 1;
    }
  }

  // ---- what the segments carry ----

  /** At absolute number 0 the segment is a bare SYN; at `abs > 0` it carries the written bytes from
      index `abs - 1` on, and a FIN only if these bytes reach the end of a stream that ended. */
  predicate Carries(g: Segment, abs: nat, isn: u32, stream: Stream) {
    && g.header.seqno == Wrap(abs, isn)
    && !g.header.rst
    && g.header.syn == (abs == 0)
    && |g.payload| <= MAX_PAYLOAD_SIZE
    && (abs == 0 ==> g.payload == [] && !g.header.fin)
    && (abs > 0 ==> abs - 1 + |g.payload| <= |stream.written|
                    && g.payload == Part(stream.written, abs - 1, |g.payload|))
    && (g.header.fin ==> stream.ended && abs - 1 + |g.payload| == |stream.written|)
  }

  /** A segment without data and flags, at some number up to `next`. */
  ghost predicate IsBare(g: Segment, isn: u32, next: nat) {
    && g.payload == [] && !g.header.syn && !g.header.fin
    && exists a: nat :: a <= next && g.header.seqno == Wrap(a, isn)
  }

  ghost predicate AllCarry(sent: seq<Placed>, isn: u32, stream: Stream) {
    forall k :: 0 <= k < |sent| ==> Carries(sent[k].seg, sent[k].absSeqno, isn, stream) && !sent[k].seg.header.ack
  }

  function Payloads(sent: seq<Placed>): seq<byte> {
    if sent == [] then [] else sent[0].seg.payload + Payloads(sent[1..])
  }

  /** Where the stream stands: SYN, the bytes read and the FIN account for `next`. */
  predicate StreamInv(s: Sender) {
    && s.stream.Valid()
    && (!s.sentSyn ==> s.next == 0 && s.sent == [] && s.outstanding == [] && s.stream.read == 0 && !s.sentAll)
    && (s.sentSyn ==> s.next == 1 + s.stream.read + (if s.sentAll then 1 else 0))
    && (s.sentAll ==> s.stream.Eof())
  }

  /** The first transmissions: contiguous from 0, faithful, together exactly the bytes read, with a FIN
      on the last one if everything is sent and on no other. */
  ghost predicate History(sent: seq<Placed>, next: nat, isn: u32, stream: Stream, sentAll: bool) {
    && Chain(sent, 0, next)
    && AllCarry(sent, isn, stream)
    && stream.Valid() && Payloads(sent) == stream.written[..stream.read]
    && FinLast(sent, sentAll)
  }

  ghost predicate FinLast(sent: seq<Placed>, sentAll: bool) {
    forall k :: 0 <= k < |sent| ==> (sent[k].seg.header.fin <==> sentAll && k == |sent| - 1)
  }

  ghost predicate Suffix<T(!new)>(a: seq<T>, b: seq<T>) {
    a == b || (b != [] && Suffix(a, b[1..]))
  }

  /** The first transmissions are right, and the outstanding segments are the latest of them. */
  ghost predicate SentInv(s: Sender) {
    History(s.sent, s.next, s.isn, s.stream, s.sentAll) && Suffix(s.outstanding, s.sent)
  }

  ghost predicate FromSent(g: Segment, sent: seq<Placed>) {
    exists k :: 0 <= k < |sent| && sent[k].seg == g
  }

  /** Everything queued for transmission is a segment sent before (a retransmission), a fresh one, or bare. */
  ghost predicate OutInv(s: Sender) {
    forall g :: g in s.out ==> FromSent(g, s.sent) || (IsBare(g, s.isn, s.next) && !g.header.ack && !g.header.rst)
  }

  /** The stream only grows, and not after its end. */
  predicate Grows(a: Stream, b: Stream) {
    && a.written <= b.written && a.read <= b.read && a.capacity == b.capacity
    && (a.ended ==> b.ended && b.written == a.written)
    && (a.error ==> b.error)
  }

  lemma CarriesLater(g: Segment, abs: nat, isn: u32, a: Stream, b: Stream)
    requires Carries(g, abs, isn, a) && Grows(a, b)
    ensures Carries(g, abs, isn, b)
  {
    if abs > 0 {
      PartIs(a.written, abs - 1, |g.payload|);
      PartIs(b.written, abs - 1, |g.payload|);
      assert a.written[abs - 1..abs - 1 + |g.payload|] == b.written[abs - 1..abs - 1 + |g.payload|];
    }
  }

  lemma {:induction false} PayloadsAppend(sent: seq<Placed>, p: Placed)
    ensures Payloads(sent + [p]) == Payloads(sent) + p.seg.payload
  {
    if sent == [] {
      assert sent + [p] == [p];
    } else {
      PayloadsAppend(sent[1..], p);
      assert (sent + [p])[1..] == sent[1..] + [p];
    }
  }

  /** One more first transmission, carrying the next bytes of the stream. */
  lemma HistoryAppend(sent: seq<Placed>, next: nat, isn: u32, a: Stream, seg: Segment, fin: bool)
    requires History(sent, next, isn, a, false)
    requires a.read + |seg.payload| <= |a.written| && seg.payload == Part(a.written, a.read, |seg.payload|)
    requires seg.LengthInSequenceSpace() > 0 && !seg.header.ack && seg.header.fin == fin
    requires Carries(seg, next, isn, a)
    ensures History(sent + [Placed(seg, next)], next + seg.LengthInSequenceSpace(), isn,
                    a.(read := a.read + |seg.payload|), fin)
  {
    var b := a.(read := a.read + |seg.payload|);
    ChainAppend(sent, Placed(seg, next), 0);
    CarriesAppend(sent, isn, a, b, Placed(seg, next));
    PayloadsAppend(sent, Placed(seg, next));
    FinAppend(sent, Placed(seg, next));
    TakePart(a.written, a.read, |seg.payload|);
  }

  lemma FinAppend(sent: seq<Placed>, p: Placed)
    requires FinLast(sent, false)
    ensures FinLast(sent + [p], p.seg.header.fin)
  {
  }

  lemma CarriesAppend(sent: seq<Placed>, isn: u32, a: Stream, b: Stream, p: Placed)
    requires AllCarry(sent, isn, a) && Grows(a, b)
    requires Carries(p.seg, p.absSeqno, isn, a) && !p.seg.header.ack
    ensures AllCarry(sent + [p], isn, b)
  {
    CarriesAll(sent, isn, a, b);
    CarriesLater(p.seg, p.absSeqno, isn, a, b);
  }

  lemma CarriesAll(sent: seq<Placed>, isn: u32, a: Stream, b: Stream)
    requires AllCarry(sent, isn, a) && Grows(a, b)
    ensures AllCarry(sent, isn, b)
  {
    forall k | 0 <= k < |sent| ensures Carries(sent[k].seg, sent[k].absSeqno, isn, b) {
      CarriesLater(sent[k].seg, sent[k].absSeqno, isn, a, b);
    }
  }

  lemma {:induction false} SuffixAppend<T(!new)>(a: seq<T>, b: seq<T>, x: T)
    requires Suffix(a, b)
    ensures Suffix(a + [x], b + [x])
  {
    if a != b {
      SuffixAppend(a, b[1..], x);
      assert (b + [x])[1..] == b[1..] + [x];
    }
  }

  lemma {:induction false} SuffixRest<T(!new)>(a: seq<T>, b: seq<T>)
    requires Suffix(a, b) && a != []
    ensures Suffix(a[1..], b) && a[0] in b
  {
    if a != b { SuffixRest(a, b[1..]); }
  }

  lemma EmitKeepsSent(s: Sender, t: Sender, seg: Segment)
    requires SentInv(s) && !s.sentAll
    requires t.next == s.next && t.isn == s.isn && t.sent == s.sent && t.outstanding == s.outstanding
    requires s.stream.read + |seg.payload| <= |s.stream.written|
    requires t.stream == s.stream.(read := s.stream.read + |seg.payload|)
    requires seg.payload == Part(s.stream.written, s.stream.read, |seg.payload|)
    requires seg.LengthInSequenceSpace() > 0 && !seg.header.ack && seg.header.fin == t.sentAll
    requires Carries(seg, s.next, s.isn, s.stream)
    ensures SentInv(t.Emit(seg))
  {
    EmitHistory(t, seg);
    HistoryAppend(s.sent, s.next, s.isn, s.stream, seg, t.sentAll);
    SuffixAppend(s.outstanding, s.sent, Placed(seg, s.next));
  }

  lemma EmitHistory(t: Sender, seg: Segment)
    ensures SentInv(t.Emit(seg)) <==>
            && History(t.sent + [Placed(seg, t.next)], t.next + seg.LengthInSequenceSpace(), t.isn, t.stream, t.sentAll)
            && Suffix(t.outstanding + [Placed(seg, t.next)], t.sent + [Placed(seg, t.next)])
  {
  }

  lemma ChunkCarries(s: Sender)
    requires StreamInv(s) && s.sentSyn && s.CanSendChunk()
    ensures var g := s.Chunk();
            && |g.payload| == s.ChunkSize() && !g.header.ack
            && Carries(g, s.next, s.isn, s.stream)
            && s.next + g.LengthInSequenceSpace() <= s.Edge()
            && (g.header.fin ==> s.stream.Pop(s.ChunkSize()).Eof())
  {
  }
}
