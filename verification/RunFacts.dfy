/** What holds in every state of every run of one connection, whatever the peer sends. */
module RunFacts {
  import opened WrappingIntegers
  import opened TcpSegments
  import opened SenderInvariants
  import opened Connecting
  import opened ConnectionRuns
  import Emission

  /** In every active state of every run the timer's assertions hold and its timeout is
      `rt_timeout * 2^e` with e at most 16, below 2^32. */
  lemma TimerAlways(cfg: Config, events: seq<Event>, c: Connection) returns (e: nat)
    requires cfg.Valid() && Reaches(InitialConnection(cfg), events, c) && c.active
    ensures c.sender.CanTick() && c.sender.timer.retx <= MAX_RETX_ATTEMPTS
    ensures e <= 16 && c.sender.timer.rto == c.sender.timer.initialRto * Pow2(e) < TWO32
  {
    RunInv(cfg, events, c);
    e := TimeoutBound(c.sender.timer, c.sender.checkpoint > 0);
  }

  /** For arbitrary acknowledgments the outstanding segments are contiguous and end at the next number, the
      bytes in flight are their total length, the first of them straddles the highest acknowledgment
      accepted, and there is none exactly when that acknowledgment is the next number. */
  lemma QueueAlways(cfg: Config, events: seq<Event>, c: Connection)
    requires cfg.Valid() && Reaches(InitialConnection(cfg), events, c)
    ensures var s := c.sender;
            && Chain(s.outstanding, Base(s), s.next) && s.inFlight == TotalLength(s.outstanding)
            && (s.outstanding == [] <==> s.checkpoint == s.next)
            && (s.outstanding != [] ==> s.outstanding[0].absSeqno <= s.checkpoint < s.outstanding[0].AbsEnd())
  {
    RunInv(cfg, events, c);
    QueueTotal(c.sender);
  }

  /** The segments sent for the first time follow one another from number 0 and carry at each number s >= 1 the
      bytes written from index s - 1 on, at most 1000; together they are the bytes read from the outgoing stream.
      Only the last one has a FIN, sent after the end of the input, at 1 + the total length. */
  lemma SegmentationAlways(cfg: Config, events: seq<Event>, c: Connection, k: nat)
    requires cfg.Valid() && Reaches(InitialConnection(cfg), events, c) && k < |c.sender.sent|
    ensures var s := c.sender;
            && Chain(s.sent, 0, s.next) && s.stream.Valid() && Payloads(s.sent) == s.stream.written[..s.stream.read]
            && Carries(s.sent[k].seg, s.sent[k].absSeqno, s.isn, s.stream)
            && (s.sent[k].seg.header.fin <==> s.sentAll && k == |s.sent| - 1)
            && (s.sent[k].seg.header.fin ==> s.stream.ended && s.sent[k].AbsEnd() == s.next == |s.stream.written| + 2)
  {
    RunInv(cfg, events, c);
  }

  /** Everything a call queues for the wire, first transmission or not, is bare or carries what belongs at its number, and
      acknowledges and offers no more than the receiver has. */
  lemma OutputAlways(cfg: Config, events: seq<Event>, c: Connection, e: Event)
    requires cfg.Valid() && Reaches(InitialConnection(cfg), events, c) && Enabled(c, e)
    ensures Emission.OutGood(Next(c, e), Emission.Standing(c, e))
  {
    RunInv(cfg, events, c);
    Emission.EventGood(c, e);
  }

  /** At every call boundary the FIN counts as acknowledged exactly when it was sent and nothing is in flight,
      although its acknowledgment is decoded twice around a checkpoint that moves in between. */
  lemma BooksAlways(cfg: Config, events: seq<Event>, c: Connection)
    requires cfg.Valid() && Reaches(InitialConnection(cfg), events, c)
    ensures c.finAcked <==> c.sentFin && c.sender.inFlight == 0
    ensures c.sentFin <==> c.sender.sentAll
    ensures c.sentFin ==> c.finSeqno == 1 + |c.Outbound().written|
  {
    RunInv(cfg, events, c);
  }
}
