/** What the TCP sender means: its state as a value and each operation as a function on it. */
module Sending {
  import opened WrappingIntegers
  import opened ByteStreams
  import opened TcpSegments

  /** A segment together with the absolute number of its first sequence position. */
  datatype Placed = Placed(seg: Segment, absSeqno: nat) {
    function AbsEnd(): nat {
      absSeqno + seg.LengthInSequenceSpace()
    }
  }

  function Min(a: nat, b: nat): nat {
    if a <= b then a else b
  }

  /** The retransmission timer: timeouts, whether it runs, and the retransmissions in a row. */
  datatype Timer = Timer(initialRto: nat, rto: nat, countdown: nat, timing: bool, retx: nat) {

    function Begin(): Timer {
      this.(countdown := rto, timing := true, retx := 0)
    }

    function Reset(): Timer {
      this.(rto := initialRto, countdown := initialRto, timing := false, retx := 0)
    }

    /** Doubling is 32-bit arithmetic; a closed window does not double. */
    function Next(zeroWindow: bool): nat {
      if zeroWindow then rto else rto * 2 % TWO32
    }

    function AfterTimeout(zeroWindow: bool): Timer {
      this.(retx := retx + 1, rto := Next(zeroWindow), countdown := Next(zeroWindow))
    }
  }

  /** The fields of the sender; `sent` also remembers every segment sent for the first time. */
  datatype Sender = Sender(
    isn: u32, timer: Timer, stream: Stream, next: nat, sentSyn: bool,
    winBegin: nat, winSize: nat, zeroWindow: bool,
    inFlight: int, outstanding: seq<Placed>, checkpoint: u64, sentAll: bool,
    out: seq<Segment>, sent: seq<Placed>)
  {
    function AbsSeqno(n: u32): u64 {
      Unwrap(n, isn, checkpoint)
    }

    function NextSeqno(): u32 {
      Wrap(next, isn)
    }

    function Edge(): nat {
      winBegin + winSize
    }

    // ---- sending ----

    /** Queues a fresh segment, starts the timer if it is off, and moves past the segment. */
    function Emit(seg: Segment): Sender {
      this.(timer := if timer.timing then timer else timer.Begin(),
         out := out + [seg], outstanding := outstanding + [Placed(seg, next)],
         sent := sent + [Placed(seg, next)], inFlight := inFlight + seg.LengthInSequenceSpace(), next := next + seg.LengthInSequenceSpace())
    }

    function Syn(): Segment {
      Segment(DEFAULT_HEADER.(syn := true, seqno := isn), [])
    }

    function Fin(): Segment {
      Segment(DEFAULT_HEADER.(fin := true, seqno := NextSeqno()), [])
    }

    function Connect(): Sender {
      this.(sentSyn := true).Emit(Syn())
    }

    function SendFin(): Sender {
      this.(sentAll := true).Emit(Fin())
    }

    predicate CanSendChunk() {
      stream.Valid() && next < Edge() && stream.Buffered() > 0 && !sentAll
    }

    function ChunkSize(): (n: nat)
      requires CanSendChunk()
      ensures 0 < n <= stream.Buffered() && n <= MAX_PAYLOAD_SIZE && n <= Edge() - next
    {
      Min(Min(Edge() - next, MAX_PAYLOAD_SIZE), stream.Buffered())
    }

    /** The next segment of data, with the FIN if the stream ends with it and the window has room. */
    function Chunk(): Segment
      requires CanSendChunk()
    {
      var n := ChunkSize();
      var fin := stream.Pop(n).Eof() && n < Edge() - next;
      Segment(DEFAULT_HEADER.(fin := fin, seqno := NextSeqno()), Part(stream.written, stream.read, n))
    }

    function SendChunk(): Sender
      requires CanSendChunk()
    {
      this.(stream := stream.Pop(ChunkSize()), sentAll := Chunk().header.fin).Emit(Chunk())
    }

    function SendChunks(): Sender
      requires stream.Valid()
      decreases stream.Buffered()
    {
      if CanSendChunk() then SendChunk().SendChunks() else this
    }

    /** What `fill_window` asserts before the SYN is sent. */
    predicate CanFill() {
      stream.Valid() && (!sentSyn ==> winBegin == 0 && winSize == 1 && next == 0)
    }

    function FillWindow(): Sender
      requires CanFill()
    {
      if !sentSyn then Connect()
      else if sentAll || Edge() <= next then this
      else if stream.Eof() then SendFin()
      else SendChunks()
    }

    function SendEmptySegment(): Sender {
      this.(out := out + [Segment(DEFAULT_HEADER.(seqno := NextSeqno()), [])])
    }

    // ---- acknowledgments ----

    /** Drops the segments that end at or before `ack`. */
    function PopAcked(ack: nat): Sender
      decreases |outstanding|
    {
      if outstanding != [] && outstanding[0].AbsEnd() <= ack then
        this.(inFlight := inFlight - outstanding[0].seg.LengthInSequenceSpace(), outstanding := outstanding[1..]).PopAcked(ack)
      else this
    }

    function NewWindow(ack: nat, win: nat): Sender {
      this.(winBegin := ack, zeroWindow := win == 0, winSize := if win == 0 then 1 else win)
    }

    /** News beyond the SYN restarts the timer with the initial timeout; an empty queue stops it. */
    function AckTimer(ack: u64): Timer {
      var t := if ack > 1 && ack > checkpoint
               then (if outstanding != [] then timer.Reset().Begin() else timer.Reset())
               else timer;
      if outstanding == [] then t.(timing := false) else t
    }

    /** Timer and highest acknowledgment, after the queue is popped. */
    function AfterAck(ack: u64): Sender {
      this.(timer := AckTimer(ack), checkpoint := if ack > checkpoint then ack else checkpoint)
    }

    function AckAbsolute(ack: u64, win: u16): Sender {
      NewWindow(ack, win).PopAcked(ack).AfterAck(ack)
    }

    /** An acknowledgment of something never sent is ignored. */
    function AckReceived(ackno: u32, win: u16): Sender {
      if AbsSeqno(ackno) > next then this else AckAbsolute(AbsSeqno(ackno), win)
    }

    // ---- time ----

    /** What `tick` asserts. */
    predicate CanTick() {
      (timer.timing <==> outstanding != []) && (timer.timing ==> timer.countdown > 0)
    }

    function Tick(ms: nat): Sender
      requires CanTick()
    {
      if !timer.timing then this
      else if timer.countdown > ms then this.(timer := timer.(countdown := timer.countdown - ms))
      else this.(out := out + [outstanding[0].seg], timer := timer.AfterTimeout(zeroWindow))
    }
  }

  function InitialSender(capacity: nat, rtTimeout: u16, isn: u32): Sender {
    Sender(isn, Timer(rtTimeout, rtTimeout, rtTimeout, false, 0), Stream(capacity, [], 0, false, false), 0, false,
           0, 1, false, 0, [], 0, false, [], [])
  }
}
