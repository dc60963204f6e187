# A verified model of the sponge TCP stack

This project models the sponge TCP stack in Dafny and proves what its layers promise, from the circular
array under a byte stream up to two TCP endpoints that talk over a network which loses, repeats and reorders
segments. The network interface with address resolution and the wire formats with the Internet checksum are
modelled beside it. `dafny verify dfyconfig.toml` checks everything.

## How it is built

Each stateful class of the stack appears twice.

* As a *value*: a datatype with the fields of the class and one function per operation (`Stream`,
  `Reassembly.State`, `Sender`, `Receiver`, `Connection`, `Interface`, `Sum`, `Parser`). The functions say in
  the plainest terms what an operation does: the reassembler, for instance, is a sparse map from stream indices
  to bytes, of which a push keeps the lowest indices there is room for.
* As a *class* in the form of the source: fields that methods update, a circular array, slices in an ordered list,
  loops with invariants. Every method is proved to take the value of the object to the value of the function:
  `State() == old(State()).Operation(...)`. The ordered map of the reassembler is a sorted sequence of slices
  and the hash maps of the network interface are maps.

The theorems are about the values, and so about every run of the classes. An assertion of the source becomes a
precondition (`Admits`, `Handles`, `CanFill`, `CanTick`, `CanSendAll`), and the invariants prove these
preconditions; for two endpoints of this stack no assertion ever fails, whatever the network does. Against an
arbitrary peer the preconditions on segments are exact: with the assertions of the source written out, a push, a
receiver and a connection in any state of a run fail one precisely on what `Admits` and `Handles` exclude
(`LostEnd.PushExactly`, `FinTruth.ReceiveExactly`, `FinTruth.SegmentExactly`).

| file | content |
|---|---|
| `WrappingIntegers.dfy` | 32-bit sequence numbers, `wrap` and `unwrap` with the 64-bit wrap-around |
| `ByteStream.dfy` | ring buffer and byte stream |
| `Reassembly.dfy`, `StreamReassembler.dfy`, `ReassemblerRuns.dfy`, `LostEnd.dfy` | reassembler: meaning, class, runs of one stream, streams that run past their end |
| `TcpSegment.dfy` | headers, segments, fixed parameters |
| `Sending.dfy`, `SenderInvariants.dfy`, `SenderSteps.dfy`, `TcpSender.dfy` | sender: meaning, invariants, class |
| `Receiving.dfy`, `TcpReceiver.dfy` | receiver: meaning, class |
| `Connecting.dfy`, `ConnectionInvariants.dfy`, `ConnectionRuns.dfy`, `TcpConnection.dfy` | connection: meaning, invariant, runs, class |
| `RunFacts.dfy`, `CleanClose.dfy`, `TcpState.dfy`, `ReachedStates.dfy`, `FinTruth.dfy`, `Stall.dfy` | one connection against an arbitrary peer |
| `Flow.dfy`, `Emission.dfy`, `Sides.dfy`, `TwoParty.dfy` | two connections over a bad network: safety |
| `Wire.dfy`, `Moves.dfy`, `Replays.dfy` | what they can do while the network still delivers old copies |
| `Forgetting.dfy`, `FrozenRun.dfy` | what they can do by themselves when it has lost everything, and how they fall silent |
| `Checksum.dfy`, `Parser.dfy`, `TcpCodec.dfy`, `Ipv4Codec.dfy` | checksum and wire formats |
| `Linking.dfy`, `NetworkInterface.dfy`, `ArpRuns.dfy` | network interface: meaning, class, runs |

## Findings

Some promises hold only in part. The code is modelled as it is, and the exact condition is proved.

* *Nothing unassembled after a clean close* is false against an arbitrary peer. While the connection lingers it still
  accepts data past the peer's FIN, and closes cleanly with it (`CleanClose.StrayByteBreaks`; a whole run is
  `ReachedStates.StrayByteReached`). The promise holds exactly for the runs in which no such segment is accepted
  (`CleanClose.NothingUnassembledExactly`), and always between two endpoints of this stack
  (`TwoParty.CleanCloseDelivers`).
* *The stream ends at its declared end* is false when the bytes run past it. A slice that begins at the known end
  aborts the program, but a slice that strictly contains the end is written whole, and the end is never noticed
  (`LostEnd.TwoBytesLoseTheEnd`). The end is lost exactly so, or by naming an end that lies behind
  (`LostEnd.EndLostExactly`); the connection can then only end in an error (`LostEnd.LostForever`,
  `ReachedStates.LostEndReached`). It never happens to excerpts of one stream
  (`ReassemblerRuns.PushInStream`).
* *A sender with something left to send goes on* is false. The sender takes the window of every acknowledgment, an old
  one too. When everything sent is acknowledged, an old acknowledgment can put the edge of the window at or below the
  next number; then nothing is outstanding, the timer is off, no probe goes out, and the connection is stalled. An
  acknowledgment does this exactly if everything was acknowledged before and its own window has been used up
  (`Stall.AckStopsExactly`, `Stall.EventStallsExactly`). Unless a segment arrives nothing is ever sent again
  (`Stall.StalledForever`); two acknowledgments in the wrong order are enough (`Stall.StallReached`). Two endpoints of
  this stack fall silent for good when one of them stalls, by an acknowledgment delivered a second time, and the other
  has nothing left to say (`FrozenRun.FrozenReached`).
* *Loss is repaired by retransmission* therefore holds only in part. When the network has lost everything and both sides
  have retries left, both can still close cleanly exactly if neither is closed while the other's FIN is not
  acknowledged, and they have not both fallen silent with one of them stalled (`Forgetting.FinishesExactly`). With old
  copies still arriving they always can (`Replays.CanAlwaysFinish`).
* *An acknowledged FIN ended the inbound stream* is false against an arbitrary peer: the receiver notes a FIN that the
  window cuts off and acknowledges it when the bytes before it arrive without it (`FinTruth.FinUntrueReached`). It
  holds exactly if the FIN was also handed to the reassembler (`FinTruth.FinTruthExactly`), that is, if a segment
  that carried it fitted the window (`FinTruth.FinRecords`), and always between two endpoints of this stack
  (`TwoParty.AckedFinDelivered`).
* The acknowledgment of the SYN alone does not reset the retransmission timeout, so the timeout can reach
  2^16 times the configured one while the connection lives (`ReachedStates.TimeoutReached`), and no more
  (`RunFacts.TimerAlways`). That fits 32 bits for every 16-bit configuration; the one more doubling of the tick
  that gives up overflows from a configured timeout of 2^15 on, and only then (`ReachedStates.TimeoutExactly`).
* The branch of the reassembler that writes part of a slice does not trim the slice. It is dead code: the memory
  accounting makes every slice fit (`StreamReassemblers.StreamReassembler.WriteFirst`).
* The checksum check passes for every serialized message of any length, also when the 32-bit sum wraps, because
  2^32 - 1 is a multiple of 65535 (`Checksums.InsertComplement`).
* Serializing and parsing an IPv4 datagram restores it exactly if header length and fragment offset fit their fields
  and the total length counts the header; a datagram without options survives even a total length below 20, because
  the result of the header parser is dropped (`Ipv4Codecs.RoundTrip`).
* *Datagrams for a hop leave in the order they were submitted* is false once one cannot be serialized. The exception
  leaves it at the front of its queue without a timer: the queue is blocked for good (`ArpRuns.BlockedForever`), and
  later datagrams overtake it while the address is known (`ArpRuns.OrderBroken`). The order is kept exactly as long as
  none does, and nothing is lost or framed twice (`ArpRuns.Conservation`); without such datagrams it is always kept
  (`ArpRuns.WellFormedOrder`).
* The comment on `unwrap` says that overflow is assumed away. The code needs no such assumption: its answer is nearest
  at both ends of the 64-bit range too (`WrappingIntegers.UnwrapNearest`).

## Model

| member | source | states |
|---|---|---|
| `WrappingIntegers.WrapCongruence` | libsponge/wrapping_integers.cc:23 | two absolute numbers have the same relative number exactly when they agree modulo 2^32 |
| `WrappingIntegers.UnwrapWraps` | libsponge/wrapping_integers.cc:35-56 | the result of `unwrap` wraps back to the relative number, for every 64-bit checkpoint |
| `WrappingIntegers.UnwrapNearest` | libsponge/wrapping_integers.cc:29-56 | no 64-bit number with the same relative number is closer to the checkpoint, at both ends of the range too |
| `WrappingIntegers.UnwrapWrap` | libsponge/wrapping_integers.cc:23-56 | a number less than 2^31 from the checkpoint survives wrap and unwrap |
| `WrappingIntegers.UnwrapWrapExactly` | libsponge/wrapping_integers.cc:23-56 | a number survives exactly if it is nearer than its two neighbours, or as near and in the checkpoint's block |
| `WrappingIntegers.UnwrapStable` | libsponge/wrapping_integers.cc:35-56 | decoding again around the answer gives the answer |
| `ByteStreams.RingBuffer.PushBack` | libsponge/byte_stream.cc:117-142 | the contents grow by the first `len` bytes, across every wrap-around, and nothing else is lost |
| `ByteStreams.RingBuffer.PopFront` | libsponge/byte_stream.cc:144-150 | the first `len` bytes leave the contents |
| `ByteStreams.RingBuffer.PeekFront` | libsponge/byte_stream.cc:152-168 | the first `len` bytes of the contents, across the wrap-around |
| `ByteStreams.ByteStream.Write` | libsponge/byte_stream.cc:23-35 | accepts the longest prefix that fits and returns its length |
| `ByteStreams.ByteStream.PeekOutput` | libsponge/byte_stream.cc:38-41 | the next `len` bytes after those read |
| `ByteStreams.ByteStream.PopOutput` | libsponge/byte_stream.cc:44-51 | the read count moves, and the sticky eof flag means ended and everything read |
| `ByteStreams.ByteStream.Read` | libsponge/byte_stream.cc:56-64 | the bytes popped, or the empty string after the end |
| `ByteStreams.ByteStream.EndInput` | libsponge/byte_stream.cc:66-71 | the stream is ended; eof exactly if the buffer is empty |
| `Reassembly.LowestSize` | libsponge/stream_reassembler.cc:122-144 | what remains after eviction: exactly as many indices as there is room for, and the lowest |
| `Reassembly.InsertFits` | libsponge/stream_reassembler.cc:122-148 | stored bytes never exceed the room left, and the run that follows the output fits into it |
| `Reassembly.DrainKeepsValid` | libsponge/stream_reassembler.cc:150-186 | draining appends the longest run, leaves the rest, and ends the stream exactly if it stops at the known end |
| `Reassembly.PushFrame` | libsponge/stream_reassembler.cc:28-58 | a push never takes back output or the known end, and assembles nothing after the stream ended |
| `StreamReassemblers.SlicesAddUp` | libsponge/stream_reassembler.hh:48-49 | the sizes of the stored slices, disjoint and not empty, add up to the number of stored bytes |
| `StreamReassemblers.OverlapArea` | libsponge/stream_reassembler.cc:76-91 | the ranges found are exactly the stored indices inside the new slice, in order |
| `StreamReassemblers.NeededArea` | libsponge/stream_reassembler.cc:93-111 | the gaps found are exactly the missing indices, and their total is right |
| `StreamReassemblers.InsertNeeded` | libsponge/stream_reassembler.cc:113-120 | the gaps are filled, old bytes win, and each gap becomes one slice |
| `StreamReassemblers.Evict` | libsponge/stream_reassembler.cc:122-144 | exactly the excess is removed from the top, without underflow |
| `StreamReassemblers.Merge` | libsponge/stream_reassembler.cc:69-148 | the whole insertion keeps the lowest indices of old and new, counts what was added, and says where the slices then begin |
| `StreamReassemblers.StreamReassembler.PushSubstring` | libsponge/stream_reassembler.cc:28-58 | one push, of anything on which the source does not abort, refines the sparse map: merge, evict, drain the longest run, end |
| `StreamReassemblers.StreamReassembler.InsertWithoutOverlap` | libsponge/stream_reassembler.cc:69-148 | the loops over slices refine the insertion into the map |
| `StreamReassemblers.StreamReassembler.Reassemble` | libsponge/stream_reassembler.cc:150-181 | the drain loop moves the longest run |
| `StreamReassemblers.StreamReassembler.WriteFirst` | libsponge/stream_reassembler.cc:157-180 | a slice at the next index always fits; the partial-write branch is dead |
| `ReassemblerRuns.ExcerptAdmitted` | libsponge/stream_reassembler.cc:28-58 | a push of an excerpt of one stream never trips an assertion |
| `ReassemblerRuns.PushInStream` | libsponge/stream_reassembler.cc:28-58 | output, stored bytes and end stay true to the stream the excerpts are cut from |
| `ReassemblerRuns.PushAdvances` | libsponge/stream_reassembler.cc:28-58 | if the push covers the next byte and there is room, the output strictly advances |
| `ReassemblerRuns.StepsHave` | libsponge/stream_reassembler.cc:28-58 | with room for the stream, an index has arrived exactly if some push brought it |
| `ReassemblerRuns.Confluence` | libsponge/stream_reassembler.cc:28-58 | excerpts that cover the stream, in any order and with any reads between, assemble to the stream, ended, nothing stored |
| `LostEnd.DrainLoopExactly` | libsponge/stream_reassembler.cc:150-186 | the drain loop, slice by slice, aborts exactly if the stream has ended before a byte to write or a slice of the run begins at the known end; otherwise it moves the longest run |
| `LostEnd.PushExactly` | libsponge/stream_reassembler.cc:28-58 | a push fails an assertion exactly if it is not admitted, and otherwise is the push of the map |
| `LostEnd.EndLostExactly` | libsponge/stream_reassembler.cc:28-58 | a push loses the end of the stream exactly if it was lost, if the push names an end that lies behind, or if every index from the next one to the end is stored or pushed and fits the room |
| `LostEnd.TwoBytesLoseTheEnd` | libsponge/stream_reassembler.cc:157-165 | an input that does it: the end known at index 1, then two bytes in one push |
| `LostEnd.LostForever` | libsponge/tcp_connection.cc:226-277 | after a lost end no event ends the inbound stream, and the connection can only end in an error |
| `TcpSenders.TcpSender.FillWindow` | libsponge/tcp_sender.cc:32-92 | the class sends SYN, FIN or the chunks that the value-level function says, and terminates |
| `TcpSenders.TcpSender.SendData` | libsponge/tcp_sender.cc:64-91 | one round of the loop: the next chunk of at most 1000 bytes, with FIN if it ends the stream and fits |
| `TcpSenders.TcpSender.AckReceived` | libsponge/tcp_sender.cc:96-136 | window, queue, timer and checkpoint after an acknowledgment; impossible ones are ignored |
| `TcpSenders.TcpSender.PopAcked` | libsponge/tcp_sender.cc:107-115 | the loop removes exactly the fully acknowledged segments |
| `TcpSenders.TcpSender.Tick` | libsponge/tcp_sender.cc:139-157 | countdown, or retransmission of the oldest segment with 32-bit doubling |
| `SenderInvariants.AckKeepsQueue` | libsponge/tcp_sender.cc:96-136 | any acknowledgment keeps the queue contiguous up to `next_seqno_`, its length in flight, its front straddling the highest acknowledgment |
| `SenderInvariants.QueueTotal` | libsponge/tcp_sender.cc:168-180 | bytes in flight are the total length of the queue, zero exactly if it is empty |
| `SenderInvariants.TimeoutBound` | libsponge/tcp_sender.cc:216-234 | while the retry limit holds, the timeout is the initial one times 2^e with e at most 16, below 2^32 |
| `SenderInvariants.TickKeepsTimer` | libsponge/tcp_sender.cc:139-157 | a tick keeps the timer sound unless it is the ninth retransmission in a row |
| `SenderSteps.FillKeeps` | libsponge/tcp_sender.cc:32-92 | filling stays inside the window and leaves it full, or the FIN sent, or an empty stream still open |
| `SenderSteps.AckKeeps` | libsponge/tcp_sender.cc:96-136 | an acknowledgment keeps the whole sender invariant |
| `SenderSteps.TickKeeps` | libsponge/tcp_sender.cc:139-157 | a tick keeps it, and sends only something sent before |
| `TcpReceivers.TcpReceiver.SegmentReceived` | libsponge/tcp_receiver.cc:16-60 | the class decodes, notes SYN and FIN, trims to the window and pushes as the value-level function says |
| `TcpReceivers.TcpReceiver.NoteHeader` | libsponge/tcp_receiver.cc:19-49 | which segments are ignored, and what SYN, sequence number and FIN leave behind |
| `TcpReceivers.TcpReceiver.TakeInWindow` | libsponge/tcp_receiver.cc:51-59 | whole, cut short without FIN, or dropped |
| `Receiving.ReceivedFrame` | libsponge/tcp_receiver.cc:16-60 | a segment never takes back bytes, the end, the SYN or the sequence number base |
| `FinTruth.ReceiveExactly` | libsponge/tcp_receiver.cc:16-60 | the receiver fails an assertion on a segment exactly if it does not handle it |
| `FinTruth.FinRecords` | libsponge/tcp_receiver.cc:37-59 | the FIN is noted whenever it arrives, but handed on exactly if its segment fits the window |
| `FinTruth.FinTruthExactly` | libsponge/tcp_receiver.cc:75-83 | in every run an acknowledged FIN has ended the inbound stream exactly if it was handed to the reassembler |
| `FinTruth.FinUntrueReached` | libsponge/tcp_receiver.cc:51-59 | for every configuration with a receiver of capacity one a run acknowledges a FIN without ending the inbound stream |
| `TcpConnections.TcpConnection.Make` | libsponge/tcp_connection.hh:104 | a new connection is in the initial state, which satisfies the invariant |
| `TcpConnections.TcpConnection.SegmentReceived` | libsponge/tcp_connection.cc:28-86 | the class handles a segment as the value-level function says: reset, receive, keep-alive, acknowledgment, answer, flush, end |
| `TcpConnections.TcpConnection.Write` | libsponge/tcp_connection.cc:90-98 | writes what fits, fills, flushes, ends; returns the count |
| `TcpConnections.TcpConnection.Tick` | libsponge/tcp_connection.cc:101-124 | time passes, retransmits, gives up with a reset, or lingers on; its assertions hold |
| `TcpConnections.TcpConnection.EndInputStream` | libsponge/tcp_connection.cc:126-132 | ends the input, fills, flushes, ends |
| `TcpConnections.TcpConnection.Connect` | libsponge/tcp_connection.cc:134-149 | puts out the SYN with the window |
| `TcpConnections.TcpConnection.SendAll` | libsponge/tcp_connection.cc:193-224 | the flush loop stamps and queues every segment in order and records SYN and FIN |
| `TcpConnections.TcpConnection.TryToEndCleanly` | libsponge/tcp_connection.cc:248-277 | ends exactly under the three prerequisites |
| `TcpConnections.ProcessFlushes` | libsponge/tcp_connection.cc:193-224 | the assertions of `send_all` hold while a segment is processed |
| `ConnectionInvariants.DecodedTwice` | libsponge/tcp_connection.cc:66-70 | decoding the acknowledgment again after the checkpoint moved gives the same number |
| `ConnectionInvariants.FlushKeeps` | libsponge/tcp_connection.cc:193-224 | flushing trips no assertion and leaves the books right |
| `ConnectionInvariants.SegmentKeeps` | libsponge/tcp_connection.cc:28-86 | a segment of any peer keeps the connection invariant |
| `FinTruth.SegmentExactly` | libsponge/tcp_connection.cc:28-86 | a connection in any state of a run fails an assertion on a segment exactly if it does not handle it |
| `ConnectionRuns.NextKeeps` | libsponge/tcp_connection.cc:28-149 | so does every public call |
| `ConnectionRuns.AlwaysEnabled` | libsponge/tcp_connection.cc:88-149 | the assertions left to the caller are those on misuse |
| `ConnectionRuns.EventExtends` | libsponge/tcp_connection.cc:28-149 | against any peer the sender only moves forward: numbers, history, stream, flags |
| `RunFacts.TimerAlways` | libsponge/tcp_sender.cc:139-157 | in every active state of every run the tick assertions hold and the timeout is below 2^32, at most 2^16 times the initial one |
| `RunFacts.QueueAlways` | libsponge/tcp_sender.cc:96-180 | the queue facts in every state of every run, for arbitrary acknowledgments |
| `RunFacts.SegmentationAlways` | libsponge/tcp_sender.cc:50-91 | what first transmissions carry, that they add up to the bytes read, and where the one FIN is |
| `RunFacts.OutputAlways` | libsponge/tcp_connection.cc:193-224 | everything a call adds to the queue, retransmissions included, carries what belongs at its number and acknowledges no more than there is |
| `RunFacts.BooksAlways` | libsponge/tcp_connection.cc:66-70 | `fin_acked_` exactly if the FIN was sent and nothing is in flight |
| `CleanClose.CleanCloseMeans` | libsponge/tcp_connection.cc:226-277 | inactive without error: everything sent and acknowledged with the FIN, inbound drained, and ten timeouts of silence if it lingered |
| `CleanClose.NothingUnassembledExactly` | libsponge/tcp_connection.cc:248-250 | nothing is left unassembled exactly if no data past the end was accepted while lingering |
| `CleanClose.StrayByteBreaks` | libsponge/tcp_connection.cc:117-121 | every connection that lingers within reach of a stray byte accepts it and closes cleanly with it |
| `CleanClose.PassiveCloserNeverLingers` | libsponge/tcp_connection.cc:268-272 | a passive closer whose application has drained the inbound stream never lingers, whatever follows |
| `ReachedStates.TimeoutReached` | libsponge/tcp_sender.cc:117-157 | for every configuration a run leads to 2^16 times the configured timeout: eight timeouts with the SYN, eight with the first byte |
| `ReachedStates.TimeoutExactly` | libsponge/tcp_sender.cc:229-234 | in every state of every run, the tick that gives up included, the timeout is the configured one times 2^e with e at most 17, exactly if the configured one is below 2^15 |
| `ReachedStates.StrayByteReached` | libsponge/tcp_connection.cc:101-124 | for every configuration with room for two bytes a run from the start closes cleanly with a byte unassembled |
| `ReachedStates.LostEndReached` | libsponge/stream_reassembler.cc:157-165 | for every configuration with room for two bytes a peer that overruns its own FIN leaves a connection that can only end in an error |
| `Stall.AckStopsExactly` | libsponge/tcp_sender.cc:96-136 | an acknowledgment leaves nothing outstanding and no window exactly if everything was acknowledged before and its own window is used up |
| `Stall.EventStallsExactly` | libsponge/tcp_connection.cc:28-149 | only an acknowledgment that takes effect stalls or frees a connection, by its window; a reset ends it; no other event has any influence |
| `Stall.StalledForever` | libsponge/tcp_sender.cc:46-49 | a stalled connection sends nothing more unless a segment arrives, whatever is written and however long it waits |
| `Stall.StallReached` | libsponge/tcp_sender.cc:103-106 | for every configuration two acknowledgments in the wrong order stall a connection that has sent one byte |
| `TcpStates.SenderMeaning` | libsponge/tcp_helpers/tcp_state.cc:98-114 | the counters compared by the summary tell the phase: SYN sent, SYN acknowledged, FIN sent, FIN acknowledged |
| `TcpStates.StatesMoveForward` | libsponge/tcp_helpers/tcp_state.cc:86-114 | over any run both summaries only move forward, ERROR last |
| `TcpStates.InactiveState` | libsponge/tcp_helpers/tcp_state.cc:62-73 | an inactive connection is exactly RESET or CLOSED, by its error flags |
| `TcpStates.RunStates` | libsponge/tcp_helpers/tcp_state.cc:18-84 | every reachable state is one of the diagram or one of three between |
| `Flow.Deliver` | libsponge/tcp_receiver.cc:16-60 | a segment of the peer is handled, keeps the receiver true to the sender, and moves acknowledgment and right edge only forward |
| `Emission.EventGood` | libsponge/tcp_connection.cc:166-224 | an event puts out only right data and honest acknowledgments |
| `Sides.EventSend` | libsponge/tcp_sender.cc:46-50 | the sender stays within one past the peer's right edge |
| `Sides.EventRecv` | libsponge/tcp_receiver.cc:40-83 | the receiver stays true to the peer's sender |
| `TwoParty.ReachableInv` | libsponge/tcp_connection.cc:28-149 | in every state of two endpoints over the bad network the invariant holds, and no offered event trips an assertion |
| `TwoParty.EndToEnd` | libsponge/tcp_receiver.cc:16-60 | delivered bytes are a prefix of those written; the end arrives only with everything |
| `TwoParty.AckedFinDelivered` | libsponge/tcp_connection.cc:66-70 | an acknowledged FIN means that everything was delivered and the peer's inbound stream ended |
| `TwoParty.CleanCloseDelivers` | libsponge/tcp_connection.cc:226-277 | a clean close at one side means full delivery both ways, nothing left unassembled |
| `TwoParty.WindowAgreement` | libsponge/tcp_sender.cc:46-50 | no segment ever sent reaches more than one past the right edge, and every FIN fits |
| `TwoParty.EdgeNeverRetreats` | libsponge/tcp_receiver.cc:62-83 | between any two worlds of a run the acknowledgment numbers and right edges of both sides never retreat |
| `Wire.Reply` | libsponge/tcp_connection.cc:72-84 | a segment that takes sequence space is answered with everything received and the current window |
| `Wire.ReachableWired` | libsponge/tcp_connection.cc:28-149 | in every reachable world a copy of each first transmission is on the wire, and so is an acknowledgment of everything each side received |
| `Replays.Round` | libsponge/tcp_connection.cc:28-86 | while a direction is not complete some moves bring it forward, given that the network delivers old copies again |
| `Replays.CanAlwaysFinish` | libsponge/tcp_connection.cc:28-277 | from every world reached without an error some moves lead to both sides closed cleanly, each having read exactly what the other wrote, given that the network delivers old copies again |
| `Forgetting.Resend` | libsponge/tcp_sender.cc:139-157 | with everything sent so far lost, a timeout and what it makes the two sides send move the highest acknowledgment of a sender with something outstanding, as long as there are retries |
| `Forgetting.FrozenForever` | libsponge/tcp_sender.cc:46-49 | with nothing on the wire, a stalled side and a peer that is stalled or has nothing to say never send again |
| `Forgetting.FinUnanswered` | libsponge/tcp_connection.cc:28-31 | a side that closed leaves the other's FIN unacknowledged for good |
| `Forgetting.FinishesExactly` | libsponge/tcp_connection.cc:28-277 | with everything lost and retries left, both sides can still close cleanly, everything delivered, exactly if neither is closed before the other's FIN is acknowledged and they are not both silent with one stalled |
| `FrozenRun.FrozenReached` | libsponge/tcp_sender.cc:103-106 | for every pair of configurations with one receiver of capacity one, an acknowledgment delivered a second time makes two endpoints fall silent for good |
| `Checksums.InternetChecksum.Add` | libsponge/util/util.cc:89-98 | the loop adds each byte as half of a word |
| `Checksums.InternetChecksum.Value` | libsponge/util/util.cc:100-108 | the folding loop, then the complement |
| `Checksums.AddChunks` | libsponge/util/util.cc:89-98 | adding in chunks, cut anywhere, is adding the whole |
| `Checksums.FoldIs` | libsponge/util/util.cc:100-108 | folding is the remainder modulo 65535, with 65535 for non-zero multiples |
| `Checksums.InsertComplement` | libsponge/util/util.cc:80-108 | putting the checksum into its zero field makes the check pass, for every message and initial sum |
| `Checksums.ValueIsComplement` | libsponge/util/util.cc:80-108 | up to 65535 bytes it is the complement of the one's-complement sum of the words |
| `Parsing.NetParser.ParseInt` | libsponge/util/parser.cc:26-43 | the loop reads a number in network order, or sets the error |
| `Parsing.NetParser.RemovePrefix` | libsponge/util/parser.cc:45-51 | drops a prefix, or sets the error |
| `Parsing.UnparseInt` | libsponge/util/parser.cc:53-60 | the loop appends the bytes in network order |
| `Parsing.IntBack` | libsponge/util/parser.cc:26-60 | a number written is read back, whatever follows |
| `Parsing.IntFits` | libsponge/util/parser.cc:34-38 | the accumulator never exceeds its width |
| `TcpCodecs.SerializeHeader` | libsponge/tcp_helpers/tcp_header.cc:52-80 | the fields in the order of the wire, padded to the data offset; too short a header is refused |
| `TcpCodecs.ParseHeaderFrom` | libsponge/tcp_helpers/tcp_header.cc:17-49 | the fields, the options skipped, and the result |
| `TcpCodecs.SerializeSegment` | libsponge/tcp_helpers/tcp_segment.cc:30-45 | header with checksum, then payload |
| `TcpCodecs.ParseSegment` | libsponge/tcp_helpers/tcp_segment.cc:12-23 | checksum first, then header and payload |
| `TcpCodecs.HeaderBack` | libsponge/tcp_helpers/tcp_header.cc:17-80 | a header with a data offset of 5 to 15 words is read back, options skipped |
| `TcpCodecs.RoundTrip` | libsponge/tcp_helpers/tcp_segment.cc:12-45 | serialize and parse restores segment and payload, exactly if the data offset fits four bits |
| `Ipv4Codecs.SerializeHeader` | libsponge/tcp_helpers/ipv4_header.cc:78-110 | the fields in the order of the wire, padded; wrong version and short header are refused |
| `Ipv4Codecs.ParseHeaderFrom` | libsponge/tcp_helpers/ipv4_header.cc:23-75 | fields, checks in order, options, checksum |
| `Ipv4Codecs.SerializeDatagram` | libsponge/tcp_helpers/ipv4_datagram.cc:23-41 | header with checksum, then payload; a payload of the wrong size is refused |
| `Ipv4Codecs.ParseDatagram` | libsponge/tcp_helpers/ipv4_datagram.cc:11-21 | header, payload, and the size check |
| `Ipv4Codecs.HeaderBack` | libsponge/tcp_helpers/ipv4_header.cc:23-110 | the header parser accepts what was written for a well-formed header, checksum included |
| `Ipv4Codecs.RoundTrip` | libsponge/tcp_helpers/ipv4_datagram.cc:11-41 | serialize and parse restores the datagram exactly under the stated condition |
| `Ipv4Codecs.PseudoIsSum` | libsponge/tcp_helpers/ipv4_header.cc:125-131 | the pseudo-header sum of section 3.1 of RFC 793, below 2^20 |
| `NetworkInterfaces.NetworkInterface.SendDatagram` | libsponge/network_interface.cc:35-86 | frames for a known hop, or throws if the datagram cannot be serialized; otherwise queues and asks at most every 5000 ms |
| `NetworkInterfaces.NetworkInterface.RecvFrame` | libsponge/network_interface.cc:89-153 | returns a datagram, or learns from an ARP message, with the exception if a waiting datagram cannot be serialized |
| `NetworkInterfaces.NetworkInterface.LearnFrom` | libsponge/network_interface.cc:108-148 | caches, releases the queue in order up to a datagram that cannot be serialized, and answers a request for us if there was none |
| `NetworkInterfaces.NetworkInterface.Tick` | libsponge/network_interface.cc:156-171 | the two loops age timers and addresses; addresses past 30000 ms are forgotten |
| `ArpRuns.Conservation` | libsponge/network_interface.cc:35-131 | in every run nothing taken for a hop is lost or framed twice; the order is kept exactly if no datagram went out past waiting ones; every frame to the address learned last and at most 30000 ms old; timers with queues, none cached; no abort |
| `ArpRuns.WellFormedOrder` | libsponge/network_interface.cc:35-131 | as long as only datagrams are sent that can be serialized, no call throws and submitted = framed ++ waiting per hop |
| `ArpRuns.BlockedForever` | libsponge/network_interface.cc:112-131 | a datagram at the front of its queue that cannot be serialized blocks the queue for good |
| `ArpRuns.OrderBroken` | libsponge/network_interface.cc:44-50 | a run in which a datagram overtakes one that waits |
| `ArpRuns.SendsExactly` | libsponge/network_interface.cc:43-84 | in every run a hop is known exactly for 30000 ms after its last lesson; a datagram for it is framed or refused at once, one for an unknown hop is queued, with a request exactly if none was sent in the last 5000 ms |
| `ArpRuns.RateLimit` | libsponge/network_interface.cc:62-84 | any two requests for the same address are more than 5000 ms apart, whatever was learned or expired between |
| `ArpRuns.Resolution` | libsponge/network_interface.cc:108-148 | the request of one interface makes the other learn and answer, and the answer releases the queue in order, given that what waits can be serialized |

## Left out

- Applications, sockets, file descriptors, the event loop, TUN/TAP and the threaded socket: operating system behaviour; the network is the set of segments ever sent.
- `libsponge/router.cc`: one longest-prefix scan, which would only add easy members.
- Buffer sharing and offsets (`libsponge/util/buffer.cc`): payloads are byte sequences.
- The ARP and Ethernet byte formats: a frame is modelled by its type and the message its payload parses to.
- Frames that are neither IPv4 nor ARP: `recv_frame` aborts on them, so they are outside its precondition.
- The destructor of a connection, move constructors, printing and summaries as text.
- Random initial sequence numbers: the number is a parameter, as `connect` and `segment_received` need a configured one.
- 64-bit overflow of stream indices and millisecond counters: natural numbers, except in `unwrap`; the retransmission timeout is 32 bits wide.
- Liveness: that a fair network delivers in the end is not stated; `Forgetting.FinishesExactly` and `Replays.CanAlwaysFinish` say when it can, and `FrozenRun.FrozenReached` that it need not.
- TwoParty.EndToEnd: streams with SYN and FIN stay below 2^31 numbers, the range in which `unwrap` is sure to recover a number.
- TcpConnections.TcpConnection.SegmentReceived: requires the connection invariant, which a new connection has and every call keeps, and a segment on which the source does not abort.
- Replays.CanAlwaysFinish: rests on the network delivering old copies again; what the endpoints can do without them is `Forgetting.FinishesExactly`.
- Forgetting.FinishesExactly: says nothing of a side whose timer runs after its eighth retransmission in a row, which the next timeout resets.
