/** The TCP receiver: sequence number decoding, window trimming and FIN bookkeeping. */
module TcpReceivers {
  import opened WrappingIntegers
  import opened TcpSegments
  import opened Receiving
  import opened StreamReassemblers
  import Reassembly

  class TcpReceiver {
    const reassembler: StreamReassembler
    const capacity: nat
    var receivedSyn: bool
    var receivedFin: bool
    var isn: u32
    var absFinSeqno: nat
    var checkpoint: u64

    ghost function Repr(): set<object> {
      {this} + reassembler.Repr()
    }

    ghost predicate Valid()
      reads Repr()
    {
      reassembler.Valid() && capacity == reassembler.capacity
    }

    ghost function State(): Receiver
      reads this, reassembler.Repr()
      requires reassembler.Valid()
    {
      Receiver(reassembler.State(), receivedSyn, receivedFin, isn, absFinSeqno, checkpoint)
    }

    constructor (capacity: nat)
      requires 0 < capacity
      ensures Valid() && fresh(Repr())
      ensures State() == InitialReceiver(capacity)
    {
      reassembler := new StreamReassembler(capacity);
      this.capacity := capacity;
      receivedSyn, receivedFin, isn, absFinSeqno, checkpoint := false, false, 0, 0, 0;
    }

    method SegmentReceived(seg: Segment)
      requires Valid() && State().Handles(seg)
      modifies Repr()
      ensures Valid()
      ensures State() == old(State()).SegmentReceived(seg)
    {
      var ignored, streamIndex := NoteHeader(seg);
      if ignored {
        return;
      }
      TakeInWindow(seg, streamIndex);
    }

    /** Decodes the sequence number and records SYN and FIN. */
    method NoteHeader(seg: Segment) returns (ignored: bool, streamIndex: nat)
      requires Valid()
      requires State().Ignores(seg) ||
               (seg.header.fin && receivedFin ==> absFinSeqno == State().IndexOf(seg) + 1 + |seg.payload|)
      modifies this
      ensures Valid()
      ensures ignored == old(State()).Ignores(seg)
      ensures State() == if ignored then old(State()) else old(State()).Noted(seg)
      ensures !ignored ==> streamIndex == old(State()).IndexOf(seg)
    {
      streamIndex := 0;
      if !receivedSyn {
        if !seg.header.syn {
          return true, 0;
        }
        NoteSyn(seg);
      }
      var abs := Unwrap(seg.header.seqno, isn, checkpoint);
      if abs != 0 {
        NoteSeqno(abs);
        streamIndex := abs - 1;
      } else if !seg.header.syn {
        return true, 0;
      }
      NoteFin(seg, streamIndex);
      ignored := false;
    }

    method NoteSyn(seg: Segment)
      requires Valid() && !receivedSyn
      modifies this`receivedSyn, this`isn
      ensures Valid() && State() == old(State()).NoteSyn(seg)
    {
      receivedSyn := true;
      isn := seg.header.seqno;
    }

    method NoteSeqno(abs: u64)
      requires Valid() && abs != 0
      modifies this`checkpoint
      ensures Valid() && State() == old(State()).NoteSeqno(abs)
    {
      checkpoint := abs;
    }

    method NoteFin(seg: Segment, streamIndex: nat)
      requires Valid() && (seg.header.fin && receivedFin ==> absFinSeqno == streamIndex + 1 + |seg.payload|)
      modifies this`receivedFin, this`absFinSeqno
      ensures Valid() && State() == old(State()).NoteFin(seg, streamIndex)
    {
      if seg.header.fin {
        if !receivedFin {
          receivedFin := true;
          absFinSeqno := streamIndex + 1 + |seg.payload|;
        }
        assert absFinSeqno == streamIndex + 1 + |seg.payload|;
      }
    }

    method TakeInWindow(seg: Segment, streamIndex: nat)
      requires Valid() && State().CanTake(seg, streamIndex)
      modifies Repr()
      ensures Valid()
      ensures State() == old(State()).Take(seg, streamIndex)
    {
      ghost var before := State();
      var winEnd := AbsAckno() + WindowSize();
      if streamIndex + 1 + |seg.payload| <= winEnd {
        assert before.Whole(seg, streamIndex) && before.Accepted(seg, streamIndex) == seg.payload;
        reassembler.PushSubstring(seg.payload, streamIndex, seg.header.fin);
      } else if streamIndex + 1 < winEnd {
        assert !before.Whole(seg, streamIndex);
        assert before.Accepted(seg, streamIndex) == seg.payload[..winEnd - (streamIndex + 1)];
        reassembler.PushSubstring(seg.payload[..winEnd - (streamIndex + 1)], streamIndex, false);
      }
    }

    function UnassembledBytes(): (n: nat)
      reads Repr()
      requires Valid()
      ensures n == 0 <==> State().reas.pending == map[]
    {
      Reassembly.CountZero(State().reas.pending);
      reassembler.unasmBytes
    }

    /** Ending the inbound stream from outside, once it has ended by itself. */
    method EndStream()
      requires Valid() && State().reas.out.ended
      modifies reassembler.output.Repr()
      ensures Valid()
      ensures State() == old(State())
    {
      assert State().reas.out.EndInput() == State().reas.out;
      reassembler.output.EndInput();
    }

    method FailStream()
      requires Valid()
      modifies reassembler.output.Repr()
      ensures Valid()
      ensures State() == old(State()).(reas := old(State()).reas.(out := old(State()).reas.out.SetError()))
    {
      reassembler.output.SetError();
    }

    function AbsAckno(): (a: nat)
      reads Repr()
      requires Valid()
      ensures a == State().AbsAckno()
    {
      var a := 1 + reassembler.output.bytesWritten;
      if receivedFin && a == absFinSeqno then a + 1 else a
    }

    function WindowSize(): (n: nat)
      reads Repr()
      requires Valid()
      ensures n == State().WindowSize()
    {
      capacity - reassembler.output.BufferSize()
    }
  }
}
