# A verified model of the TCP engine

The repository is a user-space IP stack. This project models its TCP engine and
the small structures under it in Dafny and proves what they keep over whole runs:

- **Receiving** (`Reassembly`, `Completeness`, `Gapless`, `Overlaps`, `Receiver`,
  `OrderedInsert`, `LinkedReceiver`, `Sacks`).
  Segments that arrive in any order, repeated and overlapping, become one stream.
  `RunInStream` is the safety half, for any segments that agree with the stream;
  `RunComplete` and `OrderIrrelevant` say that the queues are nothing but the set
  of numbers that were let in, `ConnectionComplete` over every run of a connection;
  `StuckExactly` says what overlaps do to it, and `SacksDescribeRun` what is reported.
- **Sending** (`SendQueue`, `SendStream`, `QueueShape`, `Waiting`). One queue of transmitted
  and untransmitted segments with a counter beside it. Bytes, counter and sequence
  numbers are conserved over every run; the shape of the queue is kept by a step
  exactly when the step is orderly; `WaitingIsSentExactly` says when a segment that
  waits is ever sent.
- **The connection** (`Connection`, `Progress`, `Diagram`, `Teardown`, `Arrivals`,
  `ReceiveStream`, `Readable`, `Delivery`, `Retransmission`, `GivingUp`, `RtoTimer`,
  `Rearming`, `Errors`, `Rto`). One step function over segment arrival, calls and timer
  expiries, held against the state diagram of RFC 793, and what all its runs have in
  common: `DeliversPeersStream` is what a connection delivers, `RunShows` what its
  application is told of it, `NoAnswerGivesUp` how long it goes on without an answer,
  `RunSets` and `RunQuiet` when its timer runs, and `EstimateIsMean` what the timeout
  is taken from.
- **Both ends** (`Flight`, `Frames`, `EndToEnd`, `TwoSockets`). The frames that go out, first and
  again, carry the bytes of the stream at their numbers exactly as long as no
  acknowledgment splits a segment (`StepLabels`, `RunFrames`); so what one socket
  writes, over a network that loses, repeats and reorders its frames, is what another
  socket reads (`ReaderGetsPrefix`). Run together as one system, the acknowledgments of
  the second never split a segment of the first, so this holds of all their runs
  (`SystemDelivers`). `Openings` holds the concrete runs' beginnings.
- **The objects** (`TcpSock`, `Receiver`, `Reader`). Classes updated in place, method by
  method as in the source, each proved to compute the functions above; `Drive`
  carries the theorems on runs over to the objects, and `TcpReceive` is the reader,
  whose ends `Reader` describes turn by turn.
- **Underneath** (`IntrusiveQueue`, `Checksum`, `Timers`, `SocketBuffer`, `Options`).

`dafny verify dfyconfig.toml` checks everything.

## Lines that depart from the intent around them

Some lines cannot mean what the code around them needs. Each definition that holds
such a line takes a `Form`: `Written` follows the line, `Intended` what it is for.
For each of them a lemma says exactly when the written form meets the intent.

| line | written | intended | exact condition |
|---|---|---|---|
| src/tcp_data.cpp:18, :21 | `return true` ends only the walk; the buffer is appended as well | return from the insertion | `Reassembly.WrittenInsertMeetsIntent`, on the links `OrderedInsert.InsertIntoQueue` |
| src/tcp_data.cpp:40 | consumed buffers go back to the out-of-order queue | to the reader's queue | `Reassembly.WrittenKeepsStream` |
| src/tcp_input.cpp:161 | every ACK in SYN_SENT is dropped | the unacceptable ones | `Retransmission.WrittenSynSentMeetsIntent` |
| src/tcp_input.cpp:282, :295 | an ACK of everything sent is refused | it is taken | `Retransmission.WrittenAckMeetsIntent` |
| src/tcp_output.cpp:192 | the walk stops at once or never | it stops behind `amount` segments | `SendQueue.SendNextTiles` |
| src/tcp_output.cpp:441 | the last piece is as long as the call | as long as the rest | `SendQueue.WrittenSendLength` |
| src/tcp.cpp:419 | the header length is added | taken away | `SocketBuffers.TextLengthIsRest` |
| src/timer.cpp:88 | cancelled timers start | the others do | `Timers.WrittenTickMeetsIntent` |

`Progress.StepForward`, `SendStream.StepConserves` and `ReceiveStream.StepGrows` hold
of both forms of the lines in src/tcp_input.cpp and src/tcp_output.cpp:192.

Properties that fail in the code even as intended, with their exact conditions or
a concrete state: a new segment overtakes waiting ones when nothing is in flight
(`QueueShape.StepShapes`, `EndToEnd.OvertakingRun`); the pseudo-header checksum
loses carries (`Checksum.TcpUdpChecksum`); an initial number of 0 is taken for
"not sent" (`SendQueue.ConnectTiles`); a timeout of 0 never grows
(`GivingUp.ZeroNeverGivesUp`, `RtoTimer.ZeroTimeoutRun`); a retransmission
after a partial acknowledgment is mislabelled (`Frames.StepLabels`,
`Frames.RetransmissionFits`, `EndToEnd.PartialAckRun`); a round trip is measured
wrongly after rto has changed (`Retransmission.SampleIsElapsed`,
`EndToEnd.SecondAckRun`); an estimate of 0 is taken for none (`Rto.SampleMoves`, `Rto.ZeroForgets`);
a FIN that comes with bytes ahead of a gap is lost
(`Delivery.FinTakenInRun`, `Delivery.EarlyFinRun`); a FIN that brings bytes to an
ended or reset socket is consumed without them (`Delivery.StepCuts`,
`Delivery.RunCuts`, `Delivery.CutRun`); SACK is
negotiated only when it is the first option (`Options.Negotiated.ParseOpts`);
overlapping segments are not joined (`Reassembly.InsertKeepsOrder`) and can leave the
out-of-order queue stuck for good (`Overlaps.StuckExactly`, `Overlaps.RunStuck`,
`Overlaps.StuckRun`); an accepted
reset leads to TIME_WAIT and a finished socket to CLOSING, where RFC 793 has CLOSED
(`Diagram.StepInDiagram`); the timer of the SYN expires in SYN_RECEIVED and is not
set again (`RtoTimer.StepCovers`, `RtoTimer.SimultaneousOpenUncovered`); what waits
when the peer closes is never numbered (`Waiting.WaitingIsSentExactly`,
`Waiting.ClosedEarlyRun`); a passive close whose FIN is acknowledged before it was sent
again stays in CLOSE_WAIT (`Teardown.EntersLastAck`, `Teardown.PromptRun`,
`Teardown.StaysInCloseWait`); an acknowledgment of everything before a FIN takes the FIN
for acknowledged (`Teardown.FinRemoved`, `Teardown.FinLostRun`); in TIME_WAIT any segment
at rcv_nxt sets the FIN flag (`Arrivals.FlagSet`); an error after the opening ends all writing
(`Errors.ErrorsStay`, `Errors.SecondConnectRun`).

## Conventions

- Sequence numbers are natural numbers and comparisons are plain, as the source
  compares. `SendStream.NoWrapAround` says how far the send side is from 2^32.
- Initial sequence numbers, the clock and random choices are inputs. Every event
  carries the time at which it happens, and any event may happen at any time, so
  the theorems on runs do not depend on when timers fire, with these exceptions. Only an
  armed timer expires in `RtoTimer.StepCovers` and `RtoTimer.RunCovers`, in
  `Frames.StepLabels`, `Frames.RunFrames` and `EndToEnd.ReaderGetsPrefix` (through
  `Careful`), in `TwoSockets.SystemDelivers` (through `Plausible`) and in
  `Rearming.RunQuiet`; the timers of a
  finished socket do not expire in `GivingUp`, and where its theorems speak of times the
  timer expires when it was armed to.
- The peer's payload bytes are the ones behind the TCP header, as intended at
  src/tcp.cpp:419. `tcp_receive` is the reader, since `tcp_read` never calls it.
- A new socket's fields start at zero. State CLOSING is also where `tcp_done` leaves
  a finished socket, so it stands with TIME_WAIT at the top of the ranks.

## Model

| member | source | states |
|---|---|---|
| `IntrusiveQueues.IntrusiveQueue.constructor` | include/intrusive_queue.hpp:49-52 | a new list is a ring of the head alone |
| `IntrusiveQueues.IntrusiveQueue.Link` | include/intrusive_queue.hpp:40-46 | the four link assignments and the count, for any nodes, linked or not |
| `IntrusiveQueues.IntrusiveQueue.ListAdd` | include/intrusive_queue.hpp:40-46 | linking a new node between neighbours keeps the ring and inserts at that position |
| `IntrusiveQueues.IntrusiveQueue.Distinct` | include/intrusive_queue.hpp:5-8 | mutually inverse links alone keep the nodes apart: no node is in the ring twice |
| `IntrusiveQueues.IntrusiveQueue.ForwardUnique` | include/intrusive_queue.hpp:16-17 | a walk along the next links is determined by the links |
| `IntrusiveQueues.IntrusiveQueue.QueueFirstEntry` | include/intrusive_queue.hpp:60-65 | the first node, or none exactly for an empty list |
| `IntrusiveQueues.IntrusiveQueue.QueueAdd` | include/intrusive_queue.hpp:67-69 | prepends, keeping the ring |
| `IntrusiveQueues.IntrusiveQueue.QueueAddTail` | include/intrusive_queue.hpp:71-73 | appends, keeping the ring |
| `IntrusiveQueues.IntrusiveQueue.QueueAddBefore` | include/intrusive_queue.hpp:75-77 | inserts in front of a linked node, keeping the ring |
| `IntrusiveQueues.IntrusiveQueue.QueueDel` | include/intrusive_queue.hpp:79-87 | removes exactly that node, keeping the ring, and clears its links |
| `IntrusiveQueues.IntrusiveQueue.Dequeue` | include/intrusive_queue.hpp:89-96 | takes the first node off, or changes nothing when empty |
| `IntrusiveQueues.IntrusiveQueue.ClearQueue` | include/intrusive_queue.hpp:98-102 | every entry is passed once, in order, and the list ends empty |
| `IntrusiveQueues.IntrusiveQueue.ListForEachSafe` | include/intrusive_queue.hpp:24-32 | every node up to the first that stops the walk is visited once, in order, even if the callback unlinks it; the undeleted visited nodes and the rest remain, in a ring |
| `OrderedInsert.FindSlot` | src/tcp_data.cpp:6-26 | the walk stops at the slot that the scan of the queue says |
| `OrderedInsert.AppendLinked` | src/tcp_data.cpp:27-28 | appending a node that was just linked cuts the walk off behind it, and no list of nodes fits the links and the count any more |
| `OrderedInsert.InsertIntoQueue` | src/tcp_data.cpp:5-29 | after the insertion a walk finds exactly the placed list; the links still form a ring except where, as written, a node was linked in front of another and then appended |
| `OrderedInsert.EntriesPlace` | src/tcp_data.cpp:5-29 | placing a node among nodes places its buffer among their buffers, so the links show what the queue function says |
| `Reassembly.InsertKeepsOrder` | src/tcp_data.cpp:9-25 | a sorted, disjoint queue stays so exactly when the segment's number is queued already or it overlaps nothing |
| `Reassembly.InsertContents` | src/tcp_data.cpp:5-29 | with equal or disjoint pieces the result is sorted and disjoint; a piece already there changes nothing, any other is added once |
| `Reassembly.WrittenInsertMeetsIntent` | src/tcp_data.cpp:16-28 | as written the insertion meets its intent exactly when no queued segment has the number of the new one or lies wholly above it |
| `Reassembly.WrittenInsertLoses` | src/tcp_data.cpp:16-28 | a concrete insertion that drops a queued segment as written |
| `Reassembly.WrittenConsumeSpins` | src/tcp_data.cpp:36-41 | as written the loop turns for ever exactly when every queued segment is empty and at rcv_nxt, and otherwise ends within as many turns as are queued |
| `Reassembly.ConsumeInStream` | src/tcp_data.cpp:31-42 | moving queued segments over keeps the reader's bytes a prefix of the stream |
| `Reassembly.DataQueueInStream` | src/tcp_data.cpp:84-118 | queueing any segment that agrees with the stream, overlapping or not, keeps the stream |
| `Reassembly.TakeSplits` | src/tcp_data.cpp:49-75 | a read takes the front of what is queued, the smaller of room and available, and leaves the rest in order |
| `Reassembly.DequeueInStream` | src/tcp_data.cpp:44-82 | a read of any size keeps the stream |
| `Reassembly.RunInStream` | src/tcp_data.cpp:44-118 | over every interleaving of arrivals and reads, bytes handed out followed by bytes waiting are the peer's stream up to rcv_nxt |
| `Reassembly.WrittenKeepsStream` | src/tcp_data.cpp:31-42 | as written a call that ends keeps the stream exactly when no byte is moved over from the out-of-order queue |
| `Reassembly.WrittenLosesBytes` | src/tcp_data.cpp:31-42 | two bytes arriving last one first: as written one of them never reaches the reader, as intended both do |
| `Completeness.ConsumeCompletes` | src/tcp_data.cpp:31-42 | the loop ends with the out-of-order queue entirely above rcv_nxt and nothing lost |
| `Completeness.OutOfOrderComplete` | src/tcp_data.cpp:102-116 | an out-of-order arrival adds exactly its numbers to the queue |
| `Completeness.RunComplete` | src/tcp_data.cpp:84-118 | for any order and duplication of the pieces, rcv_nxt ends the longest gapless prefix of what was let in, and the queue is sorted, disjoint and exactly what lies above |
| `Completeness.RefusedIsKnown` | src/tcp_input.cpp:95-99 | an arrival refused for starting below rcv_nxt changes nothing and brings nothing new |
| `Completeness.OrderIrrelevant` | src/tcp_data.cpp:84-118 | two runs that let in the same numbers, in any orders and cut in any ways, agree on rcv_nxt, on what is queued and on the reader's bytes |
| `Gapless.StepAssembles` | src/tcp_input.cpp:374-396 | every step of a connection adds to what was let in exactly the text it lets in, and keeps queue and rcv_nxt what that set makes them |
| `Gapless.ConnectionComplete` | src/tcp_input.cpp:227-492 | over every run of a connection, calls and timers included, until a FIN or the end: rcv_nxt is the end of the gapless prefix of what was let in, and the out-of-order queue is exactly the rest, sorted and disjoint |
| `Overlaps.StuckExactly` | src/tcp_data.cpp:31-42 | an arrival leaves the out-of-order queue stuck below rcv_nxt exactly if it is in sequence and the queued segments that follow on from it run into one that begins before them |
| `Overlaps.RunStuck` | src/tcp_data.cpp:31-42 | once stuck, over every run: the head stays, nothing queued is moved over, and the queue never gets shorter |
| `Overlaps.StuckRun` | src/tcp_data.cpp:84-118 | a concrete run: the second of two overlapping segments comes first and its last byte is never delivered |
| `Sacks.RunsAreMaximal` | src/tcp.cpp:365-387 | the blocks of a sorted queue are the one list of separated blocks that covers the same numbers |
| `Sacks.SeparatedPairs` | src/tcp.cpp:376-383 | any two reported blocks are in increasing order with a gap between them |
| `Sacks.SackState.AddSegment` | src/tcp.cpp:365-387 | one segment continues the last block, opens another, or stops the walk exactly when there is no room |
| `Sacks.SackState.CalculateSacks` | src/tcp.cpp:361-390 | the array holds exactly the first runs of the queue, as many as there is room for, within its bounds |
| `Sacks.SackState.OptionsLen` | src/tcp_output.cpp:219-238 | whole words are reserved, 4 + 8n bytes for n non-zero blocks, none without blocks |
| `Sacks.SackState.WriteOptions` | src/tcp_output.cpp:55-80 | the option bytes are written, nothing behind them is touched, and the blocks are cleared |
| `Sacks.EmittedRoundTrip` | src/tcp_output.cpp:61-76 | a peer decodes the emitted option to the blocks, last one first |
| `Sacks.EmittedHead` | src/tcp_output.cpp:61-66 | the option begins with two bytes of padding, its kind and its length as RFC 2018 numbers them |
| `Sacks.SackState.Report` | src/tcp_output.cpp:240-258 | a whole report: reserved is written, header length at most 14 words, the peer reads the first runs reversed, and the state is ready for the next report |
| `Sacks.SacksDescribeRun` | src/tcp_data.cpp:104-116 | after any run the blocks are the maximal intervals of what was let in above rcv_nxt |
| `Receivers.Receiver.ConsumeOfoQueue` | src/tcp_data.cpp:31-42 | the loop computes the consume function on the fields |
| `Receivers.Receiver.InsertOrdered` | src/tcp_data.cpp:5-29 | the walk over the queued buffers puts the new one where the queue function says |
| `Receivers.Receiver.DataQueue` | src/tcp_data.cpp:84-118 | the fields change as the queue function says; -1 exactly for a closed window; a duplicate acknowledgment exactly for a gap |
| `LinkedReceivers.LinkedReceiver.MoveFirst` | src/tcp_data.cpp:39-40 | a node leaves one ring and ends the other, and both stay rings |
| `LinkedReceivers.LinkedReceiver.ConsumeOfoQueue` | src/tcp_data.cpp:31-42 | the loop on the two rings computes the consume function on the buffers they link |
| `LinkedReceivers.LinkedReceiver.DataQueue` | src/tcp_data.cpp:84-118 | a buffer that arrives is linked where the queue function says; both rings stay rings and share no node |
| `LinkedReceivers.LinkedReceiver.TakeFront` | src/tcp_data.cpp:64-74 | the front node's buffer shrinks by what was copied, or leaves the ring when empty, with its PSH noted |
| `LinkedReceivers.LinkedReceiver.DataDequeue` | src/tcp_data.cpp:44-82 | the reader's loop on the ring copies the bytes of the dequeue function, leaves its queue and touches no other byte of the buffer |
| `Receivers.Receiver.CopyFront` | src/tcp_data.cpp:50-74 | one turn copies what fits and shrinks or releases the front buffer |
| `Receivers.Receiver.DataDequeue` | src/tcp_data.cpp:44-82 | the bytes copied and the fields are those of the dequeue function; no other byte of the buffer changes |
| `Reader.TakePush` | src/tcp_data.cpp:64-74 | a dequeue notes a PSH exactly if it takes all of a segment that has one |
| `Reader.DequeueShows` | src/tcp_input.cpp:500-511 | what a turn of the reader finds in the fields once it has taken the bytes: PSH, FIN and an empty queue |
| `Reader.EndIsSeen` | src/tcp_input.cpp:509-523 | whatever happens between the turns, a receive that meets a consumed FIN neither comes back with nothing nor goes on sleeping |
| `Reader.ReturnsHear` | src/tcp_input.cpp:494-532 | if the segments that came were the peer's, what a receive leaves behind is the beginning of its stream, and after a FIN all of it exactly if none cut it off |
| `TcpSocks.TcpSock.TcpReceive` | src/tcp_input.cpp:494-532 | every turn but the last slept; the last one ends by a PSH exactly if it took all of a segment with PSH or one was noted before, else with the room filled, else by the FIN flag, else with nothing or asleep; -EAGAIN exactly for nothing read without waiting; a consumed FIN is not slept through; the buffer holds the next bytes taken and then zeros, the beginning of the peer's stream |
| `Reader.AllTaken` | src/tcp_input.cpp:494-532 | a reader has the beginning of the stream; with nothing left after a FIN, all of it exactly if the FIN was not cut from its bytes |
| `SendQueue.ConnectTiles` | src/tcp_output.cpp:413-431 | after a connect the queue has its shape exactly when iss is not 0 |
| `SendQueue.QueueTransmitTiles` | src/tcp_output.cpp:118-144 | queueing keeps the shape exactly when something is in flight or the queue is empty |
| `SendQueue.OvertakingSend` | src/tcp_output.cpp:128-141 | a concrete queue in which a new segment overtakes one that waits; `EndToEnd.OvertakingRun` reaches one |
| `SendQueue.QueueTransmitCounted` | src/tcp_output.cpp:128-141 | inflight stays the number of transmitted segments, whatever overtakes |
| `SendQueue.SendNextTiles` | src/tcp_output.cpp:185-217 | sending and counting the first segments keeps the shape as intended, and as written exactly for a queue of one |
| `SendQueue.SendNextCounted` | src/tcp_input.cpp:473-475 | counting what was sent keeps inflight right |
| `SendQueue.CleanCounted` | src/tcp_input.cpp:61-74 | the unsigned decrement of a right counter never wraps |
| `SendQueue.CleanIsExact` | src/tcp_input.cpp:61-81 | an acknowledgment removes exactly the transmitted segments that end at or below it; the others stay in order, and the shape is kept |
| `SendQueue.WrittenSendLength` | src/tcp_output.cpp:440-442 | the pieces add up to the call's length as intended, and as written exactly when the call fits one segment |
| `SendQueue.ChunksCut` | src/tcp_output.cpp:440-460 | the pieces of a call are its bytes, each at most mss and all but the last exactly mss, PSH on the last only |
| `Retransmission.SampleIsElapsed` | src/tcp.cpp:337-340 | in every reachable state a measured acknowledgment gives the estimator the time since the timer was armed and what rto changed by since: the round trip exactly if rto is what the timer was armed with |
| `Rto.SampleMoves` | src/tcp.cpp:342-358 | the first sample is the estimate and half of it the variance; later ones move the estimate by an eighth of the difference and the variance by a quarter, rounded down, the error taken from the old estimate; the timeout is the estimate and four variances, 200 ms at least |
| `Rto.EstimateIsMean` | src/tcp.cpp:347-351 | over any samples, as long as the estimate is not 0, it is their mean with weights one to seven, less than seven ms below it and never above |
| `Rto.EstimateNears` | src/tcp.cpp:347-351 | when the round trip changes, an eighth of what is left of the change is taken up with every sample, to within seven ms |
| `Rto.ZeroForgets` | src/tcp.cpp:342 | a concrete input: after an estimate of 0 the next sample counts in full, far from the mean |
| `Rto.SamplesBounded` | src/tcp.cpp:342-358 | samples between two bounds keep srtt, rttvar and rto in the matching ranges, from the first on |
| `Rto.ConstantPathSettles` | src/tcp.cpp:342-358 | on a constant path of r ms the timeout settles at r + 200 within r / 2 + 1 samples |
| `Rto.GivesUpInTime` | src/tcp_output.cpp:375-387 | doubling takes at most seventeen expiries, and from at most two minutes the timeouts add up to at most four; `GivingUp` is about the expiries |
| `Progress.StepForward` | src/tcp_input.cpp:227-492 | every step, as written or intended, keeps or raises the rank of the state, lowers neither snd_una nor snd_nxt and does not let them cross |
| `Progress.RunsGoForward` | src/tcp.cpp:151-206 | over every run the rank and the send variables never go back, iss <= snd_una <= snd_nxt, CLOSE is not entered again and there is at most one connect |
| `SendStream.StepConserves` | src/tcp_input.cpp:61-81 | no step loses, repeats or reorders bytes of the application |
| `SendStream.RunConserves` | src/tcp_output.cpp:433-464 | over every run the accepted bytes are the removed payloads followed by the queued ones |
| `SendStream.RunAccounts` | src/tcp_output.cpp:118-144 | over every run inflight is right, and snd_nxt with what waits is iss, the SYN, every accepted byte and every queued FIN |
| `SendStream.NoWrapAround` | src/tcp.cpp:58-63 | snd_nxt stays below 2^32 while fewer than 2^31 bytes and FINs are given |
| `QueueShape.StepShapes` | src/tcp_input.cpp:460-476 | a step keeps the shape of the write queue exactly when it does not queue behind waiting segments with nothing in flight |
| `QueueShape.RunShapes` | src/tcp_output.cpp:118-144 | in every state of an orderly run a transmitted prefix, inflight long, tiles the numbers up to snd_nxt, and the rest is untransmitted |
| `ReceiveStream.StepGrows` | src/tcp_input.cpp:374-458 | no step changes the application's stream but by appending, and none does after a FIN |
| `ReceiveStream.RunGrows` | src/tcp_input.cpp:176-177 | rcv_nxt is irs + 1 and the bytes and FINs taken; no FIN before CLOSE_WAIT, one at least in CLOSE_WAIT and LAST_ACK; no data after a FIN |
| `Readable.RunShows` | src/tcp_input.cpp:410-412 | in every state of every run: a consumed FIN is shown by the flag, and a shown one was consumed unless in TIME_WAIT or after the end; POLLIN is set while something waits or a FIN was consumed, and only while something waits or a FIN is shown; the window stays 44477 |
| `Readable.OutsideIsIgnored` | src/tcp_input.cpp:88-101 | in numbers: a segment that begins outside the window of 44477 from rcv_nxt changes nothing, a reset inside leads to TIME_WAIT and stops the timer, and a SYN or a segment without ACK changes nothing |
| `Arrivals.ArrivalSorted` | src/tcp_input.cpp:374-382 | text in sequence, or a PSH alone, goes to the reader; text out of sequence to its place among what waits; a bare acknowledgment or FIN nowhere |
| `Arrivals.FlagSet` | src/tcp_input.cpp:352-361 | the FIN flag is set exactly by a consumed FIN and, in TIME_WAIT with nothing queued, by any segment that begins at rcv_nxt |
| `Arrivals.ArrivalSendsThree` | src/tcp_input.cpp:460-476 | an arrival sends nothing, or exactly the first three of what is queued, or all of fewer, which are then what is in flight |
| `Delivery.StepHears` | src/tcp_input.cpp:374-458 | every step, with any segments the peer could have sent, keeps what the application got and can get the beginning of the peer's stream, and once a FIN is consumed all of it exactly if the FIN was not cut from its bytes |
| `Delivery.DeliversPeersStream` | src/tcp_input.cpp:227-492 | over every run with the peer's segments in any order, repeated, overlapping or lost: the application's stream is a prefix of the peer's, rcv_nxt is irs + 1 and its bytes and FINs, and after a FIN it is all of it exactly if no arrival cut it off |
| `Delivery.StepCuts` | src/tcp_input.cpp:374-413 | an arrival cuts the stream off exactly if it brings the first FIN in sequence, with bytes, to a socket that is ended or reset |
| `Delivery.RunCuts` | src/tcp_input.cpp:374-413 | a run has cut the stream off exactly if one of its events was such an arrival |
| `Delivery.CutRun` | src/tcp_input.cpp:374-413 | a concrete run: a reset, then the last byte with the FIN; the reader sees the end and never the byte |
| `Delivery.FinTakenInRun` | src/tcp_input.cpp:398-413 | over every run from a synchronized connection a FIN is consumed exactly if one arrives, looked at, while rcv_nxt is at the beginning of its segment |
| `Delivery.EarlyFinIsLost` | src/tcp_input.cpp:398-413 | once rcv_nxt is past the beginning of the segment with the FIN, no run that repeats it consumes a FIN |
| `Delivery.EarlyFinRun` | src/tcp_data.cpp:84-118 | a concrete run in which bytes with a FIN come ahead of a gap: all bytes are delivered and the FIN is not seen |
| `Diagram.ArrivalLeads` | src/tcp_input.cpp:227-492 | where an arrival leaves a synchronized connection, across acknowledgment, empty queue, text, FIN and sending: one table over whether it is looked at, all that is queued is acknowledged, and an in-sequence FIN |
| `Diagram.StepInDiagram` | src/tcp.cpp:151-206 | every step ends the socket exactly under the stated condition and otherwise does not, and is then an accepted reset or moves along the state diagram of RFC 793, never to LISTEN |
| `Diagram.HowOpeningsEnd` | src/tcp_input.cpp:139-203 | in every reachable state: nothing listens; exactly which segments take SYN_SENT to SYN_RECEIVED and to ESTABLISHED, and that as written none takes it to ESTABLISHED |
| `Teardown.EntersLastAck` | src/tcp_output.cpp:386-391 | LAST_ACK is entered exactly from CLOSE_WAIT when the timer sends a FIN again under a timeout of at most 60000 ms |
| `Teardown.EntersFinWait1` | src/tcp.cpp:256-270 | FIN_WAIT_1 is entered exactly from ESTABLISHED, by a close or by such a FIN |
| `Teardown.PassiveCloseRun` | src/tcp_input.cpp:345-349 | a run from a new socket: the peer closes, we close, the timer expires, and the acknowledgment of the FIN ends the socket in LAST_ACK |
| `Teardown.PromptRun` | src/tcp.cpp:170-172 | a run in which the FIN is acknowledged before the timer expires: the state stays CLOSE_WAIT |
| `Teardown.StaysInCloseWait` | src/tcp.cpp:151-182 | from there no run of segments but a reset, of reads and of retransmission timers ends the socket |
| `Teardown.FinRemoved` | src/tcp_input.cpp:66 | an acknowledgment takes a transmitted FIN off exactly if it reaches its number, so exactly the one of everything before it takes it off unacknowledged |
| `Teardown.FinLostRun` | src/tcp_input.cpp:331-340 | a run to FIN_WAIT_2 with the FIN unacknowledged, from which no run of events sends it again |
| `GivingUp.ExpiryWaits` | src/tcp_output.cpp:347-396 | an expiry sends the head of the queue again under snd_una, then gives up past a minute or doubles the timeout and arms the timer with it |
| `GivingUp.NoAnswerGivesUp` | src/tcp_output.cpp:375-387 | over any run in which snd_una does not move, whatever else happens: the timeout has doubled once per expiry, there are at most as many expiries as the first timeout fixes and at most seventeen, and the last of them ends the socket with ETIMEDOUT |
| `GivingUp.GivenUpInTime` | src/tcp_output.cpp:375-387 | and when the timer expires as armed, each expiry comes exactly at the sum of the timeouts so far, the last at the time the first timeout fixes, from at most two minutes within four |
| `GivingUp.ZeroNeverGivesUp` | src/tcp_output.cpp:375-387 | a timeout of 0 stays 0 over any such run, and no number of expiries ends the socket |
| `GivingUp.SynGivesUp` | src/tcp_output.cpp:311-345 | over any run without an answer to the SYN, whatever else happens: it goes out again at the first four expiries and at no other event, and the fifth ends the socket with ETIMEDOUT |
| `GivingUp.SynTimes` | src/tcp_output.cpp:311-345 | and the expiries come 500, 1000, 2000, 4000 and 8000 ms after one another, if each comes as armed |
| `RtoTimer.ZeroTimeoutRun` | src/tcp_output.cpp:347-396 | after a simultaneous open that is closed again the FIN waits under a timeout of 0, and stays so over any run without an answer in which nothing but expiries could end it |
| `Retransmission.StepKeepsTime` | src/tcp.cpp:331-359 | no round trip is measured while backed off, and a timeout once set stays set, over every step |
| `Retransmission.AckMeasures` | src/tcp_input.cpp:295-303 | a round trip is measured exactly when an acknowledgment moves snd_una while the timer runs and has not backed off |
| `RtoTimer.StepCovers` | src/tcp_output.cpp:398-411 | a step in order keeps the timer running exactly while something is in flight, unless the timer of the SYN expires later than in SYN_SENT |
| `RtoTimer.RunCovers` | src/tcp_input.cpp:61-81 | so in every state of an orderly run; stopped, the timer has forgotten its backoff |
| `Rearming.StepSets` | src/tcp_output.cpp:398-411 | an orderly step that sends something queued, first or again, or numbers a segment leaves the timer at exactly the timeout from then, unless the socket gives up or is in SYN_SENT; any other leaves or stops it, or sets it so too |
| `Rearming.RunSets` | src/tcp_output.cpp:398-411 | over every run a timer that runs was set by some step to the timeout that step left, 500 * 2^backoff for a SYN, counted from its time |
| `Rearming.RunQuiet` | src/tcp.cpp:309-319 | over every run in which only armed timers expire: in TIME_WAIT and after the end no timer runs and nothing queued is sent any more, first or again; of an ended socket nothing waits out of order |
| `Rearming.AbortEnds` | src/tcp.cpp:184-206 | an abort, by call or user timer, ends the socket with everything counted as acknowledged, the linger timer with nothing more acknowledged; the retransmission timer is stopped |
| `RtoTimer.SimultaneousOpenUncovered` | src/tcp_output.cpp:311-345 | a concrete simultaneous open after which a SYN is in flight without a timer |
| `Waiting.WaitingForEver` | src/tcp_input.cpp:460-476 | once the peer has closed, no run of events numbers any segment that waits or takes it off the queue |
| `Waiting.AckAllNumbers` | src/tcp_input.cpp:460-476 | in ESTABLISHED and FIN_WAIT_1 an acknowledgment of all that was sent leaves fewer segments waiting |
| `Waiting.WaitingIsSentExactly` | src/tcp_input.cpp:460-476 | in every state a proper run reaches, some run of events numbers the first waiting segment if and only if the peer has not closed |
| `Waiting.ClosedEarlyRun` | src/tcp_input.cpp:417-422 | a concrete run to CLOSE_WAIT with a byte that waits, which no run of events numbers |
| `Waiting.ArrivalResumes` | src/tcp_input.cpp:460-476 | before that, an in-sequence segment that is looked at never leaves segments waiting with nothing in flight |
| `Errors.StepErrors` | src/sock.cpp:37-45 | a pending error is cleared exactly by the answer that establishes the connection |
| `Errors.StepRaises` | src/tcp_input.cpp:103-125 | every event leaves exactly the error it raises, by state, segment and timer, or the one that was pending |
| `Errors.ErrorsStay` | src/tcp.cpp:80-99 | after the opening an error stays and no further byte is accepted |
| `Errors.SecondConnectRun` | src/inet.cpp:87-95 | a concrete run: a second connect on an established connection, after which no run of events accepts a byte |
| `Errors.WrittenNeverWrites` | src/tcp_input.cpp:139-203 | as written no run of any events ever accepts a byte |
| `Retransmission.WrittenAckMeetsIntent` | src/tcp_input.cpp:280-318 | as written acknowledgment processing meets its intent exactly when not everything outstanding is acknowledged |
| `Retransmission.WrittenSynSentMeetsIntent` | src/tcp_input.cpp:145-174 | as written the answer to a SYN is handled as intended exactly when it has no ACK, an unacceptable one, or nothing to act on |
| `Retransmission.Handshake` | src/tcp_input.cpp:139-203 | SYN and ACK from the peer establish the connection as intended and change nothing as written |
| `Retransmission.SimultaneousOpen` | src/tcp_input.cpp:281-287 | which acknowledgment completes a simultaneous open, as written and as intended |
| `Flight.InFlightNumber` | src/tcp_output.cpp:202-211 | a segment in flight has the number its bytes have in the stream written |
| `Flight.InFlightAgrees` | src/tcp_output.cpp:118-144 | a segment in flight carries the bytes that the stream has at its numbers |
| `Flight.CarriedAgrees` | src/tcp_output.cpp:118-144 | whatever was in flight at any moment of a proper run fits the stream written by its end |
| `Frames.StepLabels` | src/tcp_input.cpp:294-303 | an orderly step keeps the retransmitted head at snd_una, with all it rests on, exactly if no acknowledgment ends inside a segment in flight |
| `Frames.StepSends` | src/tcp_output.cpp:93-144 | every frame sent for a queued segment is of one then in flight under its number, or the head again under snd_una |
| `Frames.HeadFrameFits` | src/tcp_output.cpp:366-369 | while the timer runs, what it would send again carries the bytes of the stream at its number |
| `Frames.RunFrames` | src/tcp_output.cpp:93-144 | over every careful run each frame, first or repeated, carries the bytes written at its number, and a FIN is behind all of them |
| `EndToEnd.ReaderGetsPrefix` | src/tcp_data.cpp:44-118 | for two sockets and a network that loses, repeats and reorders frames and retransmissions: what the reader got and can get is a prefix of what was written, and all of it once a FIN is consumed |
| `TwoSockets.NothingSplits` | src/tcp_input.cpp:294-303 | in a system of two sockets no acknowledgment the one gets ends inside a segment it has in flight, since each is a number up to which the other has received |
| `TwoSockets.SystemDelivers` | src/tcp_data.cpp:44-118 | over every run of two sockets and a network that loses, repeats and reorders both ways: no acknowledgment splits a segment, the reader's stream is a prefix of the writer's, and all of it once the reader has consumed a FIN |
| `Frames.RetransmissionFits` | src/tcp_output.cpp:366-369 | what the timer sends is in flight under its number exactly if snd_una is at its beginning |
| `EndToEnd.PartialAckRun` | src/tcp_output.cpp:366-369 | a run in which half a segment is acknowledged and the timer then sends both bytes under the number of the second |
| `EndToEnd.SecondAckRun` | src/tcp.cpp:337-340 | a run with an acknowledgment 200 ms after arming that is taken for less than nothing and not measured |
| `EndToEnd.OvertakingRun` | src/tcp_output.cpp:128-141 | two runs: the second of three written bytes is overtaken, and another socket reads the first and the third |
| `TcpSocks.TcpSock.RearmRtoTimer` | src/tcp_output.cpp:398-411 | arms the timer for the SYN backoff or the timeout |
| `TcpSocks.TcpSock.TcpDone` | src/tcp.cpp:192-206 | state, timers and queue of a finished socket |
| `TcpSocks.TcpSock.TcpRtt` | src/tcp.cpp:331-359 | computes the estimator function |
| `TcpSocks.TcpSock.QueueTransmitSkb` | src/tcp_output.cpp:118-144 | computes the queueing function, timer included |
| `TcpSocks.TcpSock.TcpSendNext` | src/tcp_output.cpp:185-217 | the walk stamps exactly the segments the send function says, in both forms |
| `TcpSocks.TcpSock.CleanRtoQueue` | src/tcp_input.cpp:61-81 | the loop computes the cleaning function, timer included |
| `TcpSocks.TcpSock.TcpSend` | src/tcp_output.cpp:433-464 | the loop queues the pieces of the call one by one |
| `TcpSocks.TcpSock.TcpSynSent` | src/tcp_input.cpp:139-203 | computes the SYN_SENT function |
| `TcpSocks.TcpSock.Acknowledge` | src/tcp_input.cpp:280-329 | computes acknowledgment processing and whether the segment is dropped |
| `TcpSocks.TcpSock.QueueEmpty` | src/tcp_input.cpp:331-366 | computes what an empty write queue means for the state |
| `TcpSocks.TcpSock.ConsumeFin` | src/tcp_input.cpp:398-458 | computes the function for an in-sequence FIN |
| `TcpSocks.TcpSock.SendPending` | src/tcp_input.cpp:460-476 | sends and counts up to three segments when nothing is in flight |
| `TcpSocks.TcpSock.TakeText` | src/tcp_input.cpp:374-488 | text, FIN and sending, in this order |
| `TcpSocks.TcpSock.TcpInputState` | src/tcp_input.cpp:227-492 | segment arrival computes the input function on every field |
| `TcpSocks.TcpSock.TcpConnect` | src/inet.cpp:87-95 | connects a closed socket and refuses any other |
| `TcpSocks.TcpSock.TcpWrite` | src/tcp.cpp:80-99 | accepts bytes exactly in ESTABLISHED and CLOSE_WAIT without a pending error |
| `TcpSocks.TcpSock.TcpClose` | src/tcp.cpp:151-182 | computes the close function for every state |
| `TcpSocks.TcpSock.TcpAbort` | src/tcp.cpp:184-190 | counts everything as acknowledged and ends the socket |
| `TcpSocks.TcpSock.TcpConnectRto` | src/tcp_output.cpp:311-345 | computes the SYN timer function |
| `TcpSocks.TcpSock.TcpRetransmissionTimeout` | src/tcp_output.cpp:347-396 | computes the data timer function |
| `TcpSocks.TcpSock.Handle` | src/tcp_input.cpp:227-492 | whatever happens to a socket, its model takes the step of the state machine |
| `TcpSocks.Drive` | src/tcp_input.cpp:227-492 | a socket driven through any events ends where the run of the state machine ends, so the theorems on runs hold of it |
| `Timers.Timer.constructor` | src/timer.cpp:30-41 | a one-shot timer has no reference, a trackable one has one |
| `Timers.Timer.Release` | src/timer.cpp:55-61 | drops a reference, never below zero |
| `Timers.Timer.Cancel` | src/timer.cpp:63-71 | drops a reference, never below zero, and marks the timer |
| `Timers.TimerList.CreateTimer` | src/timer.cpp:43-53 | a new timer is linked at the end of the ring |
| `Timers.TimerList.Pass` | src/timer.cpp:82-101 | a turn starts, unlinks or leaves one timer and goes on to the node fetched before, whatever was unlinked |
| `Timers.TimerList.TimersTick` | src/timer.cpp:75-102 | the walk along the ring starts, unlinks and keeps exactly the timers the tick function says |
| `Timers.StepKeeps` | src/timer.cpp:43-102 | every operation keeps the queue and its history consistent |
| `Timers.RunIsGood` | src/timer.cpp:43-102 | over every sequence of operations a handler starts at most once, after its time and never after a cancellation; a timer is deleted at most once, cancelled and unreferenced; references are never negative |
| `Timers.LifeOfOne` | src/timer.cpp:30-102 | the handler of a timer starts once, at the first tick past its delay, ten ms a tick; by then one that nobody holds is deleted, and one that is held stays |
| `Timers.LifeOfCancelled` | src/timer.cpp:63-71 | a cancelled timer never starts and the next tick deletes it |
| `Timers.TickStartsAll` | src/timer.cpp:88-99 | after a tick no timer past its time is left unstarted, and none is left that should be deleted |
| `Timers.WrittenTickMeetsIntent` | src/timer.cpp:88-92 | as written a tick treats a timer as intended exactly while its time is not past |
| `Timers.WrittenNeverStarts` | src/timer.cpp:88-92 | in every run as written a timer starts only after its cancellation |
| `SocketBuffers.SkBuff.ReserveHeadroom` | src/socket_buffer.cpp:15-17 | moves the beginning of the data up |
| `SocketBuffers.SkBuff.Push` | src/socket_buffer.cpp:19-24 | moves it down and lengthens the data |
| `SocketBuffers.SkBuff.ResetHeader` | src/socket_buffer.cpp:26-29 | puts it back to the payload |
| `SocketBuffers.AllocSkb` | src/tcp_output.cpp:5-16 | room for 54 bytes of headers, options and payload, data at the end |
| `SocketBuffers.SendTwice` | src/tcp_output.cpp:82-91 | first and repeated sends both begin at the head of the buffer exactly when the options are whole words |
| `SocketBuffers.TextLengthIsRest` | src/tcp.cpp:418-421 | the length is the rest behind the headers as intended, and as written only without a TCP header |
| `Options.SynOptionsFit` | src/tcp_output.cpp:18-53 | the SYN options written fill what is reserved exactly when SACK is on |
| `Options.Negotiated.ParseOption` | src/tcp_input.cpp:14-57 | one turn of the loop keeps SACK off for good once another option was first, and the segment size the rest of the options will leave |
| `Options.OffersRead` | src/tcp_input.cpp:15-33 | of segment sizes and padding as a peer encodes them the last size above 536 and up to 1460 is taken, and without one the size stays |
| `Options.Negotiated.ParseOpts` | src/tcp_input.cpp:5-59 | SACK stays on exactly when it is the first option, then with four blocks, and timestamps when they are; the segment size taken is the last legal one before the first other option |
| `Options.SynOptionsRead` | src/tcp_input.cpp:5-59 | the options one socket writes turn SACK off in the socket that reads them, and set its segment size exactly to one above 536 and up to 1460 |
| `Checksum.SumEvery16Bits` | include/utils.hpp:83-97 | the 32-bit accumulator holds the sum of the words modulo 2^32 |
| `Checksum.FoldKeepsResidue` | include/utils.hpp:113-115 | a round of folding keeps the residue modulo 65535 and zero apart from 65535 |
| `Checksum.Checksum` | include/utils.hpp:105-118 | the fold loop ends for every input with the complement of the residue |
| `Checksum.ResidueIsOnesSum` | include/utils.hpp:83-118 | the residue of the plain sum is the one's-complement sum, word after word |
| `Checksum.ChecksumIsRfc1071` | include/utils.hpp:105-118 | the routine computes the checksum of RFC 1071 exactly if the dropped carries do not show; below 2^32 * 65535 in words exactly if there are none; never any up to 131072 bytes |
| `Checksum.CascadeIsOnePass` | include/utils.hpp:105-113 | cascading through start_sum over an even-length split, from what the first pass leaves, equals one pass |
| `Checksum.FilledBufferVerifies` | src/icmp_v4.cpp:49-50 | filling a zeroed, aligned field with the checksum makes the checksum of the whole buffer 0, for every buffer |
| `Checksum.TcpUdpChecksum` | src/tcp.cpp:451-460 | equals the checksum over pseudo-header and segment exactly when the accumulator does not overflow |
| `Checksum.PseudoHeaderChecksum` | src/tcp.cpp:451-460 | every carry lost out of bit 31 makes the checksum wrong, and nothing else does |
| `Checksum.PseudoHeaderOverflows` | src/tcp.cpp:454-455 | two ordinary addresses that overflow the accumulator |

## Left out

- TcpSocks.TcpSock.TcpSend: takes only the intended form of src/tcp_output.cpp:441; what the written one reads behind the caller's buffer is not modelled, its lengths are (`SendQueue.WrittenSendLength`).
- Receivers.Receiver.ConsumeOfoQueue: takes only the intended form of src/tcp_data.cpp:40; the written one is the function `Reassembly.Consume`, on values, with `Reassembly.WrittenConsumeSpins` on when it ends.
- Receivers.Receiver.DataQueue: the buffers in its queues are values, replaced rather than updated; sharing of buffers between queues is not captured there. The links are modelled in `LinkedReceiver` and `OrderedInsert`, with the queues as intended, for arrival, consuming and reading.
- TcpSocks.TcpSock.QueueTransmitSkb: as for the receiver, queued buffers are values; the write queue is not run on links, its additions at the end and removals at the front being those proved of `IntrusiveQueue`. Of what is sent the frames of queued buffers are noted, with the number in their header; pure acknowledgments, resets and the SYN that answers a SYN are not.
- TcpSocks.TcpSock.TcpConnect: `sock->state` and the waiting of a blocking connect are not modelled; the guard on the connection state is.
- Completeness.RunComplete: for segments that overlap without being equal the code has no joining to prove anything about; safety is proved for those too (`Reassembly.RunInStream`), and what then stays behind (`Overlaps.StuckExactly`).
- EndToEnd.ReaderGetsPrefix: for runs in which no acknowledgment ends inside a segment in flight; where one does, the retransmission is mislabelled (`Frames.StepLabels`, `EndToEnd.PartialAckRun`). Where the acknowledgments come from a socket of this stack none does: `TwoSockets.SystemDelivers` has no such hypothesis.
- IntrusiveQueues.IntrusiveQueue.ListForEachSafe: the callback is given by the nodes it unlinks and those it stops at; a walk whose callback changes what it visits is `Timers.TimerList.TimersTick`.
- Buffer reference counts and reclamation: the code does not settle who owns a buffer (src/tcp_input.cpp:490).
- Null timer pointers (src/tcp.cpp:213, src/tcp.cpp:223): timers of a socket are optional instead.
- The linger, user-timeout and delayed-ACK timers' own arming: their expiry is an event that may come at any time.
- Header fields of emitted frames other than the number, the flags and the SACK option, poll events other than POLLIN, and window management.
- `ip_output`'s own header checksum, which covers `len * 4` bytes (src/ip.cpp:101); the function and the receiving check are modelled.
- Threads and locks: each entry point runs under the socket lock and is one step.
- `tcp_read`, ARP, routing, ICMP replies, the Unix-socket front end and the command line: easy members beside the above.
