/** One direction of a connection: a sender and the peer's receiver. */
module Flow {
  import opened WrappingIntegers
  import opened ByteStreams
  import opened TcpSegments
  import opened Sending
  import opened SenderInvariants
  import opened SenderSteps
  import opened Receiving
  import opened ReassemblerRuns
  import Reassembly

  const HALF := 0x8000_0000

  /** The bytes that left the sender at least once. */
  function SentBytes(s: Sender): seq<byte>
    requires s.stream.Valid()
  {
    s.stream.written[..s.stream.read]
  }

  /** A segment of this sender: bare, or carrying what belongs at some absolute number. */
  ghost predicate SentBy(g: Segment, s: Sender) {
    IsBare(g, s.isn, s.next) ||
    exists abs: nat :: abs + g.LengthInSequenceSpace() <= s.next && Carries(g, abs, s.isn, s.stream)
  }

  /** Nothing has happened yet. */
  predicate Untouched(r: Receiver) {
    r.reas.out.written == [] && r.reas.pending == map[] && !r.reas.eof && !r.reas.out.ended && !r.gotFin && r.checkpoint == 0
  }

  /** What the receiver knows is true of the sender: bytes, end and FIN. */
  ghost predicate Matches(r: Receiver, s: Sender) {
    && s.stream.Valid() && StreamInv(s) && s.next < HALF
    && (if r.gotSyn then s.sentSyn && r.isn == s.isn else Untouched(r))
    && InStream(r.reas, SentBytes(s))
    && r.gotFin == r.reas.eof
    && (r.gotFin ==> s.sentAll && r.finSeqno == 1 + |SentBytes(s)|)
    && r.checkpoint <= s.next
  }

  /** The receiver's right edge: capacity past what was read, and one more for a FIN that is reached. */
  lemma EdgeForm(r: Receiver)
    requires r.Valid()
    ensures r.WindowEnd() == 1 + r.reas.out.read + r.reas.out.capacity + (r.AbsAckno() - (1 + r.reas.Next()))
  {
  }

  /** Nothing is acknowledged that was not sent. */
  lemma AckBelowNext(r: Receiver, s: Sender)
    requires Matches(r, s) && r.gotSyn
    ensures r.AbsAckno() <= s.next
    ensures r.AbsAckno() == s.next && s.sentAll ==> r.reas.out.ended && r.reas.out.written == s.stream.written
  {
    if r.AbsAckno() == s.next && s.sentAll {
      assert SentBytes(s) == s.stream.written;
    }
  }

  /** The sender moving on does not falsify what the receiver knows. */
  lemma MatchesLater(r: Receiver, s: Sender, t: Sender)
    requires Matches(r, s) && Extends(s, t) && StreamInv(t) && t.next < HALF
    ensures Matches(r, t)
  {
    assert SentBytes(s) <= SentBytes(t);
    if s.sentAll { assert SentBytes(t) == SentBytes(s); }
  }

  lemma SentByLater(g: Segment, s: Sender, t: Sender)
    requires SentBy(g, s) && Extends(s, t)
    ensures SentBy(g, t)
  {
    if IsBare(g, s.isn, s.next) {
      assert IsBare(g, t.isn, t.next);
    } else {
      var abs: nat :| abs + g.LengthInSequenceSpace() <= s.next && Carries(g, abs, s.isn, s.stream);
      CarriesLater(g, abs, s.isn, s.stream, t.stream);
    }
  }

  /** Reading makes room and changes nothing else. */
  lemma ReadMatches(r: Receiver, s: Sender, len: nat)
    requires Matches(r, s) && len <= r.reas.out.Buffered()
    ensures var d := r.(reas := r.reas.(out := r.reas.out.Pop(len)));
            Matches(d, s) && d.AbsAckno() == r.AbsAckno() && d.WindowEnd() >= r.WindowEnd()
  {
  }

  // ---- a segment of the sender arrives ----

  lemma DecodesExactly(r: Receiver, s: Sender, abs: nat)
    requires Matches(r, s) && r.gotSyn && abs <= s.next
    ensures r.AbsSeqno(Wrap(abs, s.isn)) == abs
  {
    UnwrapWrap(abs, s.isn, r.checkpoint);
  }

  /** A segment carrying data is an excerpt of the bytes sent. */
  lemma CarriesExcerpt(g: Segment, abs: nat, s: Sender)
    requires StreamInv(s) && abs > 0 && Carries(g, abs, s.isn, s.stream) && abs + g.LengthInSequenceSpace() <= s.next
    ensures Excerpt(g.payload, abs - 1, g.header.fin, SentBytes(s))
    ensures g.header.fin ==> s.sentAll
  {
    assert s.sentSyn;
    var n := |g.payload|;
    assert abs - 1 + n <= s.stream.read;
    PartIs(s.stream.written, abs - 1, n);
    assert SentBytes(s)[abs - 1..abs - 1 + n] == s.stream.written[abs - 1..abs - 1 + n];
  }

  /** An empty payload without FIN changes nothing but the recorded numbers. */
  lemma TakeNothing(r: Receiver, g: Segment, index: nat)
    requires r.Valid() && g.payload == [] && !g.header.fin
    ensures r.CanTake(g, index) && r.Take(g, index) == r
  {
    assert r.Accepted(g, index) == [];
  }

  /** The receiver's progress on one segment. */
  ghost predicate Advances(r: Receiver, g: Segment, s: Sender) {
    && r.Valid() && r.Handles(g)
    && var d := r.SegmentReceived(g);
       Matches(d, s) && d.AbsAckno() >= r.AbsAckno() && d.WindowEnd() >= r.WindowEnd()
       && d.reas.out.capacity == r.reas.out.capacity && (r.gotSyn ==> d.gotSyn)
  }

  lemma DeliverIgnored(r: Receiver, g: Segment, s: Sender)
    requires Matches(r, s) && r.Ignores(g)
    ensures Advances(r, g, s)
  {
  }

  lemma DeliverFirstSyn(r: Receiver, g: Segment, s: Sender)
    requires Matches(r, s) && !r.gotSyn && g.header.syn && Carries(g, 0, s.isn, s.stream) && 1 <= s.next
    ensures Advances(r, g, s)
  {
    var n := r.NoteSyn(g);
    UnwrapWrap(0, s.isn, 0);
    assert n.isn == s.isn;
    assert r.Noted(g) == n && r.IndexOf(g) == 0;
    TakeNothing(n, g, 0);
  }

  /** A repeated SYN or a bare segment at number `abs`. */
  lemma DeliverEmpty(r: Receiver, g: Segment, s: Sender, abs: nat)
    requires Matches(r, s) && r.gotSyn && abs <= s.next && g.header.seqno == Wrap(abs, s.isn)
    requires g.payload == [] && !g.header.fin && (abs == 0 ==> g.header.syn)
    ensures Advances(r, g, s)
  {
    DecodesExactly(r, s, abs);
    var n := r.NoteSeqno(abs);
    assert r.Noted(g) == n && !r.Ignores(g);
    TakeNothing(n, g, r.IndexOf(g));
  }

  /** After the header of a data segment is noted. */
  lemma NotedData(r: Receiver, g: Segment, s: Sender, abs: nat)
    requires Matches(r, s) && r.gotSyn && 0 < abs && Carries(g, abs, s.isn, s.stream)
    requires abs + g.LengthInSequenceSpace() <= s.next
    ensures !r.Ignores(g) && r.IndexOf(g) == abs - 1
    ensures r.Noted(g) == r.NoteSeqno(abs).NoteFin(g, abs - 1)
    ensures g.header.fin && r.gotFin ==> r.finSeqno == abs + |g.payload|
    ensures g.header.fin ==> r.Noted(g).finSeqno == 1 + |SentBytes(s)| && r.Noted(g).gotFin
    ensures !g.header.fin ==> r.Noted(g).gotFin == r.gotFin && r.Noted(g).finSeqno == r.finSeqno
  {
    DecodesExactly(r, s, abs);
    CarriesExcerpt(g, abs, s);
  }

  /** The part inside the window is an excerpt too, and a FIN that fits is never cut off. */
  lemma AcceptedExcerpt(r: Receiver, g: Segment, s: Sender, index: nat)
    requires r.Valid() && s.stream.Valid() && Excerpt(g.payload, index, g.header.fin, SentBytes(s))
    ensures index + 1 < r.WindowEnd() || r.Whole(g, index) ==>
              Excerpt(r.Accepted(g, index), index, g.header.fin && r.Whole(g, index), SentBytes(s))
  {
    var b, acc := SentBytes(s), r.Accepted(g, index);
    if index + 1 < r.WindowEnd() || r.Whole(g, index) {
      assert b[index..index + |g.payload|][..|acc|] == b[index..index + |acc|];
    }
  }

  /** Taking the data of a segment whose FIN, if any, fits. `n` is the receiver after the header. */
  lemma TakeData(r: Receiver, n: Receiver, g: Segment, s: Sender, index: nat)
    requires Matches(r, s) && r.gotSyn && n == r.(checkpoint := n.checkpoint, gotFin := n.gotFin, finSeqno := n.finSeqno)
    requires n.checkpoint <= s.next && n.gotFin == (r.gotFin || g.header.fin)
    requires n.gotFin ==> s.sentAll && n.finSeqno == 1 + |SentBytes(s)|
    requires Excerpt(g.payload, index, g.header.fin, SentBytes(s))
    requires g.header.fin ==> n.Whole(g, index)
    ensures n.CanTake(g, index) && Matches(n.Take(g, index), s)
    ensures r.reas.out.written <= n.Take(g, index).reas.out.written
    ensures n.Take(g, index).reas.out.read == r.reas.out.read && n.Take(g, index).reas.out.capacity == r.reas.out.capacity
  {
    AcceptedExcerpt(n, g, s, index);
    if index + 1 < n.WindowEnd() || n.Whole(g, index) {
      var acc, last := n.Accepted(g, index), g.header.fin && n.Whole(g, index);
      PushInStream(n.reas, acc, index, last, SentBytes(s));
      Reassembly.PushFrame(n.reas, acc, index, last);
    }
  }

  /** The right edge and the acknowledgment never retreat. */
  lemma EdgeMono(r: Receiver, d: Receiver, s: Sender)
    requires Matches(r, s) && Matches(d, s) && r.reas.out.written <= d.reas.out.written
    requires d.reas.out.read == r.reas.out.read && d.reas.out.capacity == r.reas.out.capacity
    requires r.gotFin ==> d.gotFin
    ensures d.AbsAckno() >= r.AbsAckno() && d.WindowEnd() >= r.WindowEnd()
  {
    EdgeForm(r);
    EdgeForm(d);
  }

  lemma ReceivedIs(r: Receiver, g: Segment, n: Receiver, index: nat)
    requires r.Valid() && !r.Ignores(g) && n == r.Noted(g) && index == r.IndexOf(g)
    requires g.header.fin && r.gotFin ==> r.finSeqno == index + 1 + |g.payload|
    requires n.CanTake(g, index)
    ensures r.Handles(g) && r.SegmentReceived(g) == n.Take(g, index)
  {
  }

  lemma DeliverData(r: Receiver, g: Segment, s: Sender, abs: nat)
    requires Matches(r, s) && r.gotSyn && 0 < abs && Carries(g, abs, s.isn, s.stream)
    requires abs + g.LengthInSequenceSpace() <= s.next <= r.WindowEnd() + 1
    ensures Advances(r, g, s)
  {
    NotedData(r, g, s, abs);
    CarriesExcerpt(g, abs, s);
    var n := r.Noted(g);
    NotedEdge(r, n, g);
    TakeData(r, n, g, s, abs - 1);
    ReceivedIs(r, g, n, abs - 1);
    TakeFrame(n, g, abs - 1);
    EdgeMono(r, n.Take(g, abs - 1), s);
  }

  lemma NotedEdge(r: Receiver, n: Receiver, g: Segment)
    requires r.Valid() && n == r.(checkpoint := n.checkpoint, gotFin := n.gotFin, finSeqno := n.finSeqno)
    requires r.gotFin ==> n.gotFin && n.finSeqno == r.finSeqno
    ensures n.Valid() && n.WindowEnd() >= r.WindowEnd()
  {
  }

  /** Any segment of the sender, fresh, repeated or reordered, is handled without tripping an assertion,
      keeps the receiver true to the sender, and never moves the right edge back. */
  lemma Deliver(r: Receiver, g: Segment, s: Sender)
    requires Matches(r, s) && SentBy(g, s) && s.next <= r.WindowEnd() + 1
    ensures Advances(r, g, s)
  {
    if r.Ignores(g) {
      DeliverIgnored(r, g, s);
    } else if IsBare(g, s.isn, s.next) {
      var a: nat :| a <= s.next && g.header.seqno == Wrap(a, s.isn);
      DecodesExactly(r, s, a);
      DeliverEmpty(r, g, s, a);
    } else {
      var abs: nat :| abs + g.LengthInSequenceSpace() <= s.next && Carries(g, abs, s.isn, s.stream);
      if !r.gotSyn {
        DeliverFirstSyn(r, g, s);
      } else if abs == 0 {
        DeliverEmpty(r, g, s, 0);
      } else {
        DeliverData(r, g, s, abs);
      }
    }
  }
}
