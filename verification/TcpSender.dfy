/** The TCP sender: segmentation, the outstanding queue and the retransmission timer. */
module TcpSenders {
  import opened WrappingIntegers
  import opened ByteStreams
  import opened TcpSegments
  import opened Sending

  class TcpSender {
    const isn: u32
    const initialRto: nat
    const stream: ByteStream
    var rto: nat
    var countdown: nat
    var timing: bool
    var nextSeqno: nat
    var sentSyn: bool
    var windowBegin: nat
    var windowSize: nat
    var actualZeroWindowSize: bool
    var bytesInFlight: int
    var outstandingSegs: seq<Placed>
    var checkpoint: u64
    var consecutiveRx: nat
    var sentAll: bool
    var segmentsOut: seq<Segment>
    ghost var sent: seq<Placed>

    ghost function Repr(): set<object> {
      {this} + stream.Repr()
    }

    ghost predicate Valid()
      reads Repr()
    {
      stream.Valid()
    }

    ghost function State(): Sender
      reads this, stream.Repr()
      requires stream.Valid()
    {
      Sender(isn, Timer(initialRto, rto, countdown, timing, consecutiveRx), stream.State(), nextSeqno, sentSyn,
             windowBegin, windowSize, actualZeroWindowSize, bytesInFlight, outstandingSegs, checkpoint, sentAll,
             segmentsOut, sent)
    }

    constructor (capacity: nat, rtTimeout: u16, isn: u32)
      requires 0 < capacity
      ensures Valid() && fresh(Repr())
      ensures State() == InitialSender(capacity, rtTimeout, isn)
    {
      this.isn, initialRto := isn, rtTimeout;
      stream := new ByteStream(capacity);
      rto, countdown, timing := rtTimeout, rtTimeout, false;
      nextSeqno, sentSyn := 0, false;
      windowBegin, windowSize, actualZeroWindowSize := 0, 1, false;
      bytesInFlight, outstandingSegs, checkpoint, consecutiveRx, sentAll := 0, [], 0, 0, false;
      segmentsOut, sent := [], [];
    }

    /** Queues a segment for sending and remembers it until acknowledged. The caller moves `nextSeqno`. */
    method Send(seg: Segment)
      requires Valid()
      modifies this
      ensures Valid()
      ensures State() == old(State()).Emit(seg).(next := old(State()).next)
    {
      StartTimer();
      segmentsOut := segmentsOut + [seg];
      PushOutstandingSeg(seg);
    }

    method StartTimer()
      requires Valid()
      modifies this`countdown, this`timing, this`consecutiveRx
      ensures Valid()
      ensures State() == old(State()).(timer := if old(State()).timer.timing then old(State()).timer else old(State()).timer.Begin())
    {
      if !timing {
        BeginTiming();
      }
    }

    method PushOutstandingSeg(seg: Segment)
      requires Valid()
      modifies this`outstandingSegs, this`bytesInFlight, this`sent
      ensures Valid()
      ensures State() == old(State()).(outstanding := old(outstandingSegs) + [Placed(seg, nextSeqno)],
                                       sent := old(sent) + [Placed(seg, nextSeqno)],
                                       inFlight := old(bytesInFlight) + seg.LengthInSequenceSpace())
    {
      outstandingSegs := outstandingSegs + [Placed(seg, nextSeqno)];
      bytesInFlight := bytesInFlight + seg.LengthInSequenceSpace();
      sent := sent + [Placed(seg, nextSeqno)];
    }

    method BeginTiming()
      requires Valid()
      modifies this`countdown, this`timing, this`consecutiveRx
      ensures Valid() && State() == old(State()).(timer := old(State()).timer.Begin())
    {
      countdown, timing, consecutiveRx := rto, true, 0;
    }

    method FillWindow()
      requires Valid() && State().CanFill()
      modifies Repr()
      ensures Valid()
      ensures State() == old(State()).FillWindow()
    {
      if !sentSyn {
        Connect();
        return;
      }
      if sentAll || windowBegin + windowSize <= nextSeqno {
        return;
      }
      var remaining := windowBegin + windowSize - nextSeqno;
      if stream.eof {
        SendFin();
        return;
      }
      ghost var target := State().SendChunks();
      while remaining > 0 && stream.BufferSize() > 0 && !sentAll
        invariant Valid() && stream.Valid()
        invariant remaining == windowBegin + windowSize - nextSeqno
        invariant State().SendChunks() == target
        decreases stream.State().Buffered()
      {
        remaining := SendData(remaining);
      }
    }

    method Connect()
      requires Valid() && !sentSyn && nextSeqno == 0
      modifies this
      ensures Valid()
      ensures State() == old(State()).Connect()
    {
      Send(Segment(DEFAULT_HEADER.(syn := true, seqno := isn), []));
      sentSyn, nextSeqno := true, 1;
    }

    method SendFin()
      requires Valid()
      modifies this
      ensures Valid()
      ensures State() == old(State()).SendFin()
    {
      Send(Segment(DEFAULT_HEADER.(fin := true, seqno := Wrap(nextSeqno, isn)), []));
      nextSeqno, sentAll := nextSeqno + 1, true;
    }

    /** One round of the loop: read, build the segment, send it. */
    method SendData(remaining: nat) returns (left: nat)
      requires Valid() && State().CanSendChunk() && remaining == windowBegin + windowSize - nextSeqno
      modifies Repr()
      ensures Valid()
      ensures State() == old(State()).SendChunk()
      ensures left == windowBegin + windowSize - nextSeqno
    {
      var seg := ReadChunk(remaining);
      SendFresh(seg);
      left := remaining - seg.LengthInSequenceSpace();
    }

    /** Sends a segment of the stream and moves past it. */
    method SendFresh(seg: Segment)
      requires Valid()
      modifies this
      ensures Valid()
      ensures State() == old(State()).(sentAll := seg.header.fin).Emit(seg)
    {
      sentAll := seg.header.fin;
      assert State() == old(State()).(sentAll := seg.header.fin);
      Send(seg);
      nextSeqno := nextSeqno + seg.LengthInSequenceSpace();
    }

    method ReadChunk(remaining: nat) returns (seg: Segment)
      requires Valid() && State().CanSendChunk() && remaining == windowBegin + windowSize - nextSeqno
      modifies stream.Repr()
      ensures Valid()
      ensures State() == old(State()).(stream := old(State()).stream.Pop(old(State()).ChunkSize()))
      ensures seg == old(State()).Chunk() && seg.LengthInSequenceSpace() <= remaining
    {
      ghost var s := State();
      var readSize := NextSize(remaining);
      var data := ReadStream(readSize);
      var sendEof := stream.eof && readSize < remaining;
      assert sendEof == (s.stream.Pop(readSize).Eof() && readSize < s.Edge() - s.next);
      seg := Segment(DEFAULT_HEADER.(fin := sendEof, seqno := Wrap(nextSeqno, isn)), data);
    }

    /** As much as window, segment size and stream allow. */
    method NextSize(remaining: nat) returns (readSize: nat)
      requires Valid() && State().CanSendChunk() && remaining == windowBegin + windowSize - nextSeqno
      ensures readSize == State().ChunkSize()
    {
      var maxReadSize := if remaining <= MAX_PAYLOAD_SIZE then remaining else MAX_PAYLOAD_SIZE;
      readSize := if maxReadSize <= stream.BufferSize() then maxReadSize else stream.BufferSize();
    }

    method ReadStream(len: nat) returns (data: seq<byte>)
      requires Valid() && 0 < len <= State().stream.Buffered()
      modifies stream.Repr()
      ensures Valid()
      ensures State() == old(State()).(stream := old(State()).stream.Pop(len))
      ensures data == Part(old(State()).stream.written, old(State()).stream.read, len)
    {
      ghost var before := stream.State();
      PartIs(before.written, before.read, len);
      data := stream.Read(len);
    }

    method AckReceived(ackno: u32, win: u16)
      requires Valid()
      modifies this
      ensures Valid()
      ensures State() == old(State()).AckReceived(ackno, win)
    {
      var ack := Unwrap(ackno, isn, checkpoint);
      if ack > nextSeqno {
        return;
      }
      AckAbsolute(ack, win);
    }

    method AckAbsolute(ack: u64, win: u16)
      requires Valid()
      modifies this
      ensures Valid()
      ensures State() == old(State()).AckAbsolute(ack, win)
    {
      windowBegin := ack;
      actualZeroWindowSize := win == 0;
      windowSize := if actualZeroWindowSize then 1 else win;
      assert State() == old(State()).NewWindow(ack, win);
      PopAcked(ack);
      UpdateAfterAck(ack);
    }

    method UpdateAfterAck(ack: u64)
      requires Valid()
      modifies this
      ensures Valid()
      ensures State() == old(State()).AfterAck(ack)
    {
      if ack > 1 && ack > checkpoint {
        ResetTimer();
        if outstandingSegs != [] {
          BeginTiming();
        }
      }
      if ack > checkpoint {
        checkpoint := ack;
      }
      if outstandingSegs == [] {
        timing := false;
      }
    }

    /** Removes the fully acknowledged segments. */
    method PopAcked(ack: nat)
      requires Valid()
      modifies this`bytesInFlight, this`outstandingSegs
      ensures Valid()
      ensures State() == old(State()).PopAcked(ack)
    {
      ghost var target := State().PopAcked(ack);
      while outstandingSegs != []
        invariant Valid()
        invariant State().PopAcked(ack) == target
        decreases |outstandingSegs|
      {
        if outstandingSegs[0].AbsEnd() <= ack {
          PopOutstandingSeg();
        } else {
          break;
        }
      }
    }

    method PopOutstandingSeg()
      requires Valid() && outstandingSegs != []
      modifies this`bytesInFlight, this`outstandingSegs
      ensures Valid()
      ensures var first := old(outstandingSegs)[0];
              State() == old(State()).(inFlight := old(bytesInFlight) - first.seg.LengthInSequenceSpace(),
                                       outstanding := old(outstandingSegs)[1..])
    {
      bytesInFlight := bytesInFlight - outstandingSegs[0].seg.LengthInSequenceSpace();
      outstandingSegs := outstandingSegs[1..];
    }

    method ResetTimer()
      requires Valid()
      modifies this`rto, this`countdown, this`timing, this`consecutiveRx
      ensures Valid() && State() == old(State()).(timer := old(State()).timer.Reset())
    {
      rto, countdown, timing, consecutiveRx := initialRto, initialRto, false, 0;
    }

    method Tick(ms: nat)
      requires Valid() && State().CanTick()
      modifies this
      ensures Valid()
      ensures State() == old(State()).Tick(ms)
    {
      if !timing {
        assert outstandingSegs == [];
        return;
      }
      if countdown > ms {
        countdown := countdown - ms;
        return;
      }
      countdown := 0;
      Resend(outstandingSegs[0].seg);
      UpdateTimerAfterTimeout();
    }

    method Resend(seg: Segment)
      requires Valid() && timing
      modifies this`segmentsOut
      ensures Valid() && State() == old(State()).(out := old(segmentsOut) + [seg])
    {
      segmentsOut := segmentsOut + [seg];
    }

    method UpdateTimerAfterTimeout()
      requires Valid()
      modifies this`consecutiveRx, this`rto, this`countdown
      ensures Valid()
      ensures State() == old(State()).(timer := old(State()).timer.AfterTimeout(actualZeroWindowSize))
    {
      consecutiveRx := consecutiveRx + 1;
      if !actualZeroWindowSize {
        rto := rto * 2 % TWO32;
      }
      countdown := rto;
    }

    method EndStream()
      requires Valid()
      modifies stream.Repr()
      ensures Valid()
      ensures State() == old(State()).(stream := old(State()).stream.EndInput())
    {
      stream.EndInput();
    }

    method FailStream()
      requires Valid()
      modifies stream.Repr()
      ensures Valid()
      ensures State() == old(State()).(stream := old(State()).stream.SetError())
    {
      stream.SetError();
    }

    /** The owner takes the front of the queue. */
    method PopSegment() returns (seg: Segment)
      requires Valid() && segmentsOut != []
      modifies this`segmentsOut
      ensures Valid()
      ensures seg == old(segmentsOut)[0] && State() == old(State()).(out := old(State()).out[1..])
    {
      seg, segmentsOut := segmentsOut[0], segmentsOut[1..];
    }

    method SendEmptySegment()
      requires Valid()
      modifies this
      ensures Valid()
      ensures State() == old(State()).SendEmptySegment()
    {
      segmentsOut := segmentsOut + [Segment(DEFAULT_HEADER.(seqno := Wrap(nextSeqno, isn)), [])];
    }
  }
}
