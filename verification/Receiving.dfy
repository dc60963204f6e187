/** What the TCP receiver means: its state as a value and each operation as a function on it. */
module Receiving {
  import opened WrappingIntegers
  import opened ByteStreams
  import opened TcpSegments
  import Reassembly

  datatype Receiver = Receiver(
    reas: Reassembly.State, gotSyn: bool, gotFin: bool, isn: u32, finSeqno: nat, checkpoint: u64)
  {
    predicate Valid() {
      reas.Valid()
    }

    /** The absolute number of the first position not received: SYN, bytes, and a FIN that is reached. */
    function AbsAckno(): nat {
      var a := 1 + reas.Next();
      if gotFin && a == finSeqno then a + 1 else a
    }

    function Ackno(): u32
      requires gotSyn
    {
      Wrap(AbsAckno(), isn)
    }

    function WindowSize(): nat
      requires Valid()
    {
      reas.out.capacity - reas.out.Buffered()
    }

    function WindowEnd(): nat
      requires Valid()
    {
      AbsAckno() + WindowSize()
    }

    /** A keep-alive: no sequence space, one before what we expect. */
    predicate IsKeepAlive(seg: Segment) {
      seg.LengthInSequenceSpace() == 0 && gotSyn && seg.header.seqno == (Ackno() - 1) % TWO32
    }

    /** The first SYN fixes the initial sequence number. */
    function NoteSyn(seg: Segment): Receiver {
      if gotSyn then this else this.(gotSyn := true, isn := seg.header.seqno)
    }

    function AbsSeqno(n: u32): u64 {
      Unwrap(n, isn, checkpoint)
    }

    /** Number 0 belongs to the SYN; anything else there is ignored. */
    predicate Ignores(seg: Segment) {
      (!gotSyn || AbsSeqno(seg.header.seqno) == 0) && !seg.header.syn
    }

    function StreamIndex(abs: u64): nat {
      if abs == 0 then 0 else abs - 1
    }

    function NoteFin(seg: Segment, index: nat): Receiver {
      if seg.header.fin && !gotFin then this.(gotFin := true, finSeqno := index + 1 + |seg.payload|) else this
    }

    function NoteSeqno(abs: u64): Receiver {
      if abs == 0 then this else this.(checkpoint := abs)
    }

    /** How much of the payload lies inside the window. */
    function Accepted(seg: Segment, index: nat): seq<byte>
      requires Valid()
    {
      if index + 1 + |seg.payload| <= WindowEnd() then seg.payload
      else if index + 1 < WindowEnd() then seg.payload[..WindowEnd() - (index + 1)]
      else []
    }

    predicate Whole(seg: Segment, index: nat)
      requires Valid()
    {
      index + 1 + |seg.payload| <= WindowEnd()
    }

    /** The window trimming; a segment cut short or outside the window loses its FIN. */
    ghost predicate CanTake(seg: Segment, index: nat)
      requires Valid()
    {
      index + 1 < WindowEnd() || Whole(seg, index) ==>
        reas.Admits(Accepted(seg, index), index, seg.header.fin && Whole(seg, index))
    }

    ghost function Take(seg: Segment, index: nat): (r: Receiver)
      requires Valid() && CanTake(seg, index)
      ensures r.Valid()
    {
      if index + 1 < WindowEnd() || Whole(seg, index) then
        this.(reas := reas.Push(Accepted(seg, index), index, seg.header.fin && Whole(seg, index)))
      else this
    }

    /** The state in which the payload of a segment that is not ignored is looked at. */
    function Noted(seg: Segment): Receiver {
      var r := NoteSyn(seg);
      var abs := r.AbsSeqno(seg.header.seqno);
      r.NoteSeqno(abs).NoteFin(seg, StreamIndex(abs))
    }

    function IndexOf(seg: Segment): nat {
      StreamIndex(NoteSyn(seg).AbsSeqno(seg.header.seqno))
    }

    /** A segment the source handles without tripping an assertion. */
    ghost predicate Handles(seg: Segment)
      requires Valid()
    {
      Ignores(seg) ||
      (&& (seg.header.fin && gotFin ==> finSeqno == IndexOf(seg) + 1 + |seg.payload|)
       && Noted(seg).CanTake(seg, IndexOf(seg)))
    }

    ghost function SegmentReceived(seg: Segment): (r: Receiver)
      requires Valid() && Handles(seg)
      ensures r.Valid()
    {
      if Ignores(seg) then this else Noted(seg).Take(seg, IndexOf(seg))
    }
  }

  function InitialReceiver(capacity: nat): Receiver {
    Receiver(Reassembly.State(Stream(capacity, [], 0, false, false), map[], {}, false, 0), false, false, 0, 0, 0)
  }

  /** What a segment leaves alone in the receiver, and what it never takes back: in particular
      nothing is assembled after the end. */
  lemma ReceivedFrame(r: Receiver, seg: Segment)
    requires r.Valid() && r.Handles(seg)
    ensures var d := r.SegmentReceived(seg);
            && d.reas.out == r.reas.out.(written := d.reas.out.written, ended := d.reas.out.ended)
            && r.reas.out.written <= d.reas.out.written
            && (r.reas.out.ended ==> d.reas.out.ended && d.reas.out.written == r.reas.out.written)
            && (r.gotSyn ==> d.gotSyn && d.isn == r.isn) && (d.gotSyn ==> r.gotSyn || seg.header.syn)
            && (!d.gotSyn ==> d == r)
            && (r.reas.eof ==> d.reas.eof && d.reas.eofIndex == r.reas.eofIndex)
  {
    if !r.Ignores(seg) {
      TakeFrame(r.Noted(seg), seg, r.IndexOf(seg));
    }
  }

  lemma TakeFrame(r: Receiver, seg: Segment, index: nat)
    requires r.Valid() && r.CanTake(seg, index)
    ensures var d := r.Take(seg, index);
            && d == r.(reas := d.reas)
            && d.reas.out == r.reas.out.(written := d.reas.out.written, ended := d.reas.out.ended)
            && r.reas.out.written <= d.reas.out.written
            && (r.reas.out.ended ==> d.reas.out.ended && d.reas.out.written == r.reas.out.written)
            && (r.reas.eof ==> d.reas.eof && d.reas.eofIndex == r.reas.eofIndex)
  {
    if index + 1 < r.WindowEnd() || r.Whole(seg, index) {
      Reassembly.PushFrame(r.reas, r.Accepted(seg, index), index, seg.header.fin && r.Whole(seg, index));
    }
  }

  lemma ReceivedSyn(r: Receiver, seg: Segment)
    requires r.Valid() && r.Handles(seg) && (r.gotSyn || seg.header.syn)
    ensures r.SegmentReceived(seg).gotSyn
  {
    if !r.Ignores(seg) { TakeFrame(r.Noted(seg), seg, r.IndexOf(seg)); }
  }
}
