/** What two connections can do as long as the network keeps delivering what was ever sent, old copies included: from every
    world reached without an error both can still close cleanly. Nothing here needs a timeout; what retransmission
    can repair by itself, and what it cannot, is in `Forgetting`. */
module Replays {
  import opened TcpSegments
  import opened Sending
  import opened SenderInvariants
  import opened Receiving
  import opened Connecting
  import opened ConnectionInvariants
  import opened ConnectionRuns
  import opened Flow
  import opened Emission
  import opened TwoParty
  import opened Wire
  import opened Moves

  /** A world reached without an error, with all that was ever sent still on the wire. */
  ghost predicate Live(w: World) {
    Sane(w) && Wired(w)
  }

  /** A copy of the peer's SYN. */
  lemma SynCopy(w: World) returns (g: Segment)
    requires Wired(w) && w.b.sender.sentSyn
    ensures g in w.ba && g.header.syn && !g.header.rst && Carries(g, 0, w.b.sender.isn, w.b.sender.stream)
  {
    var s := w.b.sender;
    assert s.sent != [] && s.sent[0].absSeqno == 0;
    assert Copied(s.sent[0].seg, w.ba);
    g :| g in w.ba && SameData(s.sent[0].seg, g);
  }

  lemma SynLeft(w: World) returns (v: World)
    requires Live(w) && w.b.sender.sentSyn
    ensures Toward(w, v) && v.a.receiver.gotSyn
  {
    if w.a.receiver.gotSyn {
      TowardSelf(w);
      v := w;
    } else {
      var g := SynCopy(w);
      ClosedHasSyn(w.a);
      Go(w, Arrive(g));
      ArriveReceiver(w.a, g);
      ReceivedSyn(w.a.receiver, g);
      v := StepLeft(w, Arrive(g));
    }
  }

  lemma {:induction false} Covering(o: seq<Placed>, start: nat, end: nat, n: nat) returns (k: nat)
    requires Chain(o, start, end) && start <= n < end
    ensures k < |o| && o[k].absSeqno <= n < o[k].AbsEnd()
  {
    if n < o[0].AbsEnd() {
      k := 0;
    } else {
      k := Covering(o[1..], o[0].AbsEnd(), end, n);
      k := k + 1;
    }
  }

  /** A copy of the segment over position `n`. */
  lemma CopyOver(s: Sender, wire: set<Segment>, n: nat) returns (g: Segment, abs: nat)
    requires SentInv(s) && OnWire(s, wire) && n < s.next
    ensures g in wire && !g.header.rst && Carries(g, abs, s.isn, s.stream)
    ensures abs <= n < abs + g.LengthInSequenceSpace() <= s.next
  {
    var k := Covering(s.sent, 0, s.next, n);
    assert Copied(s.sent[k].seg, wire);
    g :| g in wire && SameData(s.sent[k].seg, g);
    ChainBound(s.sent, 0, s.next, k);
    abs := s.sent[k].absSeqno;
  }

  /** What the peer sent and the left endpoint misses arrives. */
  lemma NextLeft(w: World) returns (v: World)
    requires Live(w) && w.a.active && w.a.receiver.gotSyn && w.a.Inbound().Buffered() == 0
    requires w.a.receiver.AbsAckno() < w.b.sender.next
    ensures Toward(w, v) && v.a.receiver.AbsAckno() > w.a.receiver.AbsAckno()
  {
    var g, abs := CopyOver(w.b.sender, w.ba, w.a.receiver.AbsAckno());
    NextArrives(w.a.receiver, g, w.b.sender, abs);
    Go(w, Arrive(g));
    ArriveReceiver(w.a, g);
    v := StepLeft(w, Arrive(g));
  }

  lemma PollWith(w: World, seg: Segment) returns (v: World, g: Segment)
    requires Sane(w) && w.a.active && w.a.receiver.gotSyn && seg in w.ba && !seg.header.rst && seg.LengthInSequenceSpace() > 0
    ensures Toward(w, v) && v.b == w.b && g in v.ab && Confirms(g, v.a.receiver) && g.header.win == v.a.Advertised()
  {
    g := Ask(w, seg);
    Go(w, Arrive(seg));
    v := StepLeft(w, Arrive(seg));
  }

  /** The peer's SYN, delivered once more, makes the left endpoint repeat its acknowledgment and window. */
  lemma PollLeft(w: World) returns (v: World, g: Segment)
    requires Live(w) && w.a.active && w.a.receiver.gotSyn && w.b.sender.sentSyn
    ensures Toward(w, v) && v.b == w.b && g in v.ab && Confirms(g, v.a.receiver) && g.header.win == v.a.Advertised()
    ensures v.a.receiver.WindowEnd() >= w.a.receiver.WindowEnd()
  {
    var syn := SynCopy(w);
    v, g := PollWith(w, syn);
  }

  /** When the left endpoint has everything and is asked again, the right one can send on. */
  lemma MoreRight(w: World) returns (v: World)
    requires Live(w) && w.a.active && w.b.active && w.a.receiver.gotSyn && w.b.receiver.gotSyn && Announced(w.b)
    requires w.a.Inbound().Buffered() == 0 && w.a.receiver.AbsAckno() == w.b.sender.next && !w.b.sender.sentAll
    ensures Toward(w, v) && v.b.sender.next > w.b.sender.next
  {
    var u, g := PollLeft(w);
    AckBelowNext(u.a.receiver, u.b.sender);
    OfferDecodes(u.a.receiver, u.b.sender, g);
    v := GoRight(u, Arrive(g));
    AckArrives(u.b, g);
    TowardOn(w, u, v);
  }

  lemma OpenWhileIncomplete(w: World)
    requires Live(w) && !Complete(w.b, w.a)
    ensures w.a.active && w.b.active
  {
    if !w.a.active { ClosedComplete(w); }
    if !w.b.active { ClosedComplete(w.Swap()); }
  }

  function Distance(w: World): int {
    2 * |w.b.Outbound().written| + 4 - w.b.sender.next - w.a.receiver.AbsAckno()
  }

  /** One round of old and new copies brings the direction forward. */
  lemma Round(w: World) returns (v: World)
    requires Live(w) && Talking(w) && !Complete(w.b, w.a)
    ensures Toward(w, v) && Distance(v) < Distance(w)
  {
    OpenWhileIncomplete(w);
    var u := DrainLeft(w);
    AckBelowNext(u.a.receiver, u.b.sender);
    if u.a.receiver.AbsAckno() < u.b.sender.next {
      v := NextLeft(u);
    } else {
      v := MoreRight(u);
    }
    TowardOn(w, u, v);
  }

  lemma DistanceBound(w: World)
    requires Live(w) && w.a.receiver.gotSyn
    ensures Distance(w) >= 0
  {
    AckBelowNext(w.a.receiver, w.b.sender);
  }

  lemma {:induction false} Across(w: World) returns (v: World)
    requires Live(w) && Talking(w)
    ensures Toward(w, v) && Complete(v.b, v.a)
    decreases Distance(w)
  {
    if Complete(w.b, w.a) {
      TowardSelf(w);
      v := w;
    } else {
      var u := Round(w);
      DistanceBound(u);
      v := Across(u);
      TowardOn(w, u, v);
    }
  }

  lemma BothAcross(w: World) returns (v: World)
    requires Live(w) && Talking(w)
    ensures Toward(w, v) && Complete(v.a, v.b) && Complete(v.b, v.a)
  {
    var u := Across(w);
    v := Across(u.Swap());
    TowardMirror(u, v);
    v := v.Swap();
    CompleteStays(u, v);
    TowardOn(w, u, v);
  }

  lemma SettleLeft(w: World) returns (v: World)
    requires Live(w) && w.a.active && w.a.receiver.gotSyn && Complete(w.a, w.b) && w.a.Inbound().Eof()
    ensures Toward(w, v) && Ripe(v.a)
  {
    var g :| g in w.ba && Confirms(g, w.b.receiver);
    OfferDecodes(w.b.receiver, w.a.sender, g);
    Go(w, Arrive(g));
    AckSettles(w.a, g);
    v := StepLeft(w, Arrive(g));
    SettledRipe(v);
  }

  lemma RipenLeft(w: World) returns (v: World)
    requires Live(w) && w.a.active && Complete(w.a, w.b) && Complete(w.b, w.a)
    ensures Toward(w, v) && Ripe(v.a)
  {
    var u := DrainLeft(w);
    DrainedEof(u);
    v := SettleLeft(u);
    TowardOn(w, u, v);
  }

  /** With both directions complete the left endpoint can close. */
  lemma CloseLeft(w: World) returns (v: World)
    requires Live(w) && Complete(w.a, w.b) && Complete(w.b, w.a)
    ensures Toward(w, v) && !v.a.active
  {
    if !w.a.active {
      TowardSelf(w);
      v := w;
    } else {
      var u := RipenLeft(w);
      v := WaitLeft(u);
      TowardOn(w, u, v);
    }
  }

  lemma CloseBoth(w: World) returns (v: World)
    requires Live(w) && Complete(w.a, w.b) && Complete(w.b, w.a)
    ensures Toward(w, v) && !v.a.active && !v.b.active
  {
    var u := CloseLeft(w);
    CompleteStays(w, u);
    CompleteStays(w.Swap(), u.Swap());
    v := CloseLeft(u.Swap());
    TowardMirror(u, v);
    v := v.Swap();
    TowardOn(w, u, v);
  }

  lemma Talk(w: World) returns (v: World)
    requires Live(w)
    ensures Toward(w, v) && Talking(v)
  {
    var t := EndBoth(w);
    var u := SynLeft(t);
    TowardOn(w, t, u);
    v := SynLeft(u.Swap());
    TowardMirror(u, v);
    v := v.Swap();
    TowardOn(w, u, v);
  }

  lemma Finish(w: World) returns (v: World)
    requires Live(w)
    ensures Toward(w, v) && !v.a.active && !v.b.active
  {
    var t := Talk(w);
    var u := BothAcross(t);
    TowardOn(w, t, u);
    v := CloseBoth(u);
    TowardOn(w, u, v);
  }

  /** From every world reached without an error, stalled senders and closed windows included, some moves lead to both sides
      closed cleanly, each having read exactly what the other wrote. The moves rest on the network delivering old
      copies again: a copy of every first transmission, and the peer's SYN to ask for the current window. */
  lemma CanAlwaysFinish(cfgA: Config, cfgB: Config, moves: seq<Move>, w: World) returns (more: seq<Move>, v: World)
    requires cfgA.Valid() && cfgB.Valid() && Leads(InitialWorld(cfgA, cfgB), moves, w)
    requires !Error(w.a) && !Error(w.b)
    ensures Leads(w, more, v) && !v.a.active && !v.b.active && !Error(v.a) && !Error(v.b)
    ensures v.b.Inbound().written == w.a.Outbound().written && v.b.Inbound().read == |w.a.Outbound().written|
    ensures v.a.Inbound().written == w.b.Outbound().written && v.a.Inbound().read == |w.b.Outbound().written|
  {
    ReachableSane(cfgA, cfgB, moves, w);
    ReachableWired(cfgA, cfgB, moves, w);
    v := Finish(w);
    more :| Leads(w, more, v);
    LinkFaithful(v.a, v.b, v.ab, v.ba);
    LinkFaithful(v.b, v.a, v.ba, v.ab);
  }
}
