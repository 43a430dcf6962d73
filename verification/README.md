# QUICP recovery stack: a verified model

QUICP carries the bytes of TCP-like flows over one connection. A writer's bytes
become numbered source symbols in unreliable DATAGRAMs. Lost symbols come back
through GF(256) repair symbols, through selective acknowledgment and replay, or
through a reliable fallback stream. The reader gets them in order, and everything
the receiving side stores is paid for out of one shared memory budget.

This project models that stack in Dafny and proves what it promises. Where the Rust
code changes things step by step the model does too: a class per object that is
updated in place, a method with a loop per loop, each proved against functions on
values; the laws are lemmas about those functions, and theorems about whole runs.

## How the model is organised

Bytes are integers below 256 (`byte`), `Bytes` is a sequence of them, and machine
integers are unbounded naturals with the wrap-around, the limits and the saturation
of the code written out. `Result` and `Option` stand for the code's own.

**Repair decoder** (`src/fec.rs`)

- `Galois` is the field of 256 elements from the shift step up: `multiply` and
  `inverse` as loops, linearity, associativity, and `x^254` as the inverse (squaring
  eight times is the identity).
- `Rows`, `Elimination`, `Reduction` are sparse equations with implicit zero padding
  and the Gauss-Jordan elimination of `reduce`. An `Assignment` gives symbols their
  bytes; `SatAll(rows, x)` says that `x` solves the equations.
- `Course` is the exact work of an elimination, `Vectors` the bounded vectors that its
  rows live in: every push, insertion and copy asks for its capacity. `Storage` is the
  size of everything stored, with closed forms that are always enough.
- `Determination` is soundness and completeness of `reduce`: a symbol is reported if
  and only if all solutions agree on it.
- `Mixing` is the 32-bit mix behind repair coefficients, with its inverse, and `Pinned`
  its value on particular words.
- `Repair`, `Substitution`, `Harvest`, `Decoding` are repair symbols, the row a repair
  contributes, and what one arrival yields.
- `Decoder`, `DecoderRuns` are the decoder object with its window, rows and memory, and
  whole runs of it; each add returns, as a ghost, the most that it had stored at once.
- `Optimality` looks at a run from outside: what was obtained is what all that arrived
  determines, in whatever order it came. `Losses` says which lost symbols of a span that
  brings back.

**Memory, acknowledgment, reassembly** (`src/recovery.rs`)

- `Budget` is the shared counter with linear charges. A ghost ledger says who holds
  which reserved byte, and the counter is always the ledger's sum.
- `AckRanges` is the interval set, `Chunks` and `Replay` the replay buffer.
- `Gaps`, `Charges`, `Reassembler`, `Counting` are the reassembler. Its ghost field
  `content` is the plain offset-to-byte map that it stands for. `Intake` says when it has
  room.
- `Ownership`, `Inflow`, `Connection` are the receiving side of a connection: one
  decoder, many flows and the records that wait for their flow to be opened, sharing
  one budget. What becomes of a record is told record by record: it reached the registered
  flow of its stream, which may only have refused it for a reason, or it waits because
  there is none. `Completeness` is what a connection without drops delivers.
- `SourceWindow` is the sending side of the DATAGRAMs. `Delivery` runs it, lets the
  network pick what arrives, and runs the receiving side on that.

**Flows** (`src/flow.rs`)

- `Receiving` is the receiving half (`Inbox`), `Sending`, `Writing`, `Sender` the
  sending half (`Outbox`) and the writer's batching buffer.
- `Endpoints` is a step system of two endpoints, with one reliable FIFO of control
  frames and one bag of source records per direction. A record once sent may arrive
  any number of times, in any order, or never. Every region that runs under the
  flow's lock is a step of its own, so application and flow task interleave freely.
- `EndpointsSafety` is its invariant, `EndpointsTheorems` the results about every run.

**Wire formats** (`src/wire.rs`): `Varint`, `SourceCodec`, `RepairCodec`, `Control` as
functions, `Cursor` and `ControlReader` as the loops that run over bytes and reads.

**FakeTCP** (`src/faketcp.rs`): `Checksum`, `TcpOptions`, `FakeTcp`, `Carrier`.

**Host side**: `PacketRing` (`src/packet_ring.rs`) and `Wakeups`, a step system of
`src/host_carrier.rs` over the executor of `src/host_runtime.rs`.

**Replay admission** (`src/session.rs`): `Admission`. The authentication code is an
uninterpreted predicate.

## Where the code does less than one might expect

The first five are lemmas with a concrete run or input, next to the exact condition.

- *Writes after a shutdown can be lost.* With `nodelay` off, `poll_write` accepts bytes
  after `poll_shutdown` has fixed the end of the stream, and they are never sent
  (`LateWriteLost`). `Writing.LateWrites` says when exactly a late write is accepted,
  and `StreamSafety` that a reader who sees the end has read every accepted byte if and
  only if there was no late write.
- *A reset can overtake the end of a stream.* `queue_terminal_frames` looks at the
  queues only. If `request_reset` empties them first, the flow task announces an end past
  the peer's credit and the peer calls it a violation (`ResetRace`).
  `NoProtocolErrors` shows that an end is refused exactly if it lies past the credit,
  that this takes such a reset, and that no other refusal between conforming ends blames
  the peer. A sender is safe if it announces no end past the credit it knows of
  (`EndWithinCredit`).
- *One sender waker slot serves all sender tasks.* With one task no wake-up is ever
  lost. With two or more it can be (`LostExactlyWithTwo`), and not just for a moment: for
  every number n there is a run in which n units are supplied and used while the first
  task sleeps throughout (`FirstTaskStarves`), and everything can come to rest beside a
  free slot exactly if there are two tasks or more (`StrandedExactlyWithTwo`).
- *A full range list refuses bytes in order.* `validate_insert` refuses a range that
  reaches no stored range once the list is full, even one that only extends the
  acknowledged prefix, for which the list would do (`PrefixRefused`). Any other range is
  refused only if no list within the limit could hold it (`RefusalNeeded`).
- *Room for one buffer may not be enough for a write.* A write that finds the buffer full
  sends it first; with `nodelay` off and enough bytes to fill the buffer again it then
  waits for room for a second one (`FullBufferWaits`, `RoomAccepts`).
- Bytes that were both read and acknowledged are released, and later contradictions of
  them go unnoticed (`Reassembler.Insert` compares with what is still held).
- `decode_control` calls a complete frame whose payload is too short `Truncated`, like
  a frame that is still arriving (`DecodeControl`).

## Model

| member | source | states |
|---|---|---|
| Galois.Multiply | src/fec.rs:885-899 | the shift-and-add loop computes the field product |
| Galois.MulCommutes | src/fec.rs:885-899 | multiplication is commutative |
| Galois.MulAssociates | src/fec.rs:885-899 | multiplication is associative |
| Galois.MulAddsRight | src/fec.rs:885-899 | multiplication distributes over byte addition |
| Galois.MulNonzero | src/fec.rs:885-899 | the product of nonzero bytes is nonzero |
| Galois.FrobeniusFixes | src/fec.rs:885-914 | squaring eight times is the identity on all bytes, derived from the shift step |
| Galois.InverseIsInverse | src/fec.rs:901-914 | every nonzero byte times its 254th power is one |
| Galois.Inverse | src/fec.rs:901-914 | the square-and-multiply loop returns the multiplicative inverse of every nonzero byte |
| Rows.CombinedSat | src/fec.rs:817-845 | adding a multiple of a satisfied equation neither makes nor breaks any solution |
| Rows.AddTermsCoef | src/fec.rs:817-845 | after the subtraction every symbol has exactly the combined coefficient, zero entries gone |
| Reduction.FindTerm | src/fec.rs:289-296 | the binary search finds a symbol's place, or where it belongs |
| Reduction.ScaleRow | src/fec.rs:805-815 | scales a row; fails exactly when its steps would pass the work budget |
| Reduction.SubtractRow | src/fec.rs:817-845 | subtracts a multiple of a row inside the capacities of its vectors; fails exactly when its steps would pass the work budget |
| Reduction.ClearColumn | src/fec.rs:759-772 | clears the pivot symbol from all other rows for exactly the stated cost, no row leaving its capacities, with one copy of the pivot row |
| Elimination.PivotedEchelon | src/fec.rs:744-774 | one pivot step (swap, normalise, clear) adds one finished pivot in rising order and keeps the earlier ones |
| Elimination.PivotedEquivalent | src/fec.rs:744-774 | one pivot step keeps the solution set |
| Elimination.PivotedBounds | src/fec.rs:744-774 | one pivot step brings in no new symbol and no longer data |
| Reduction.Eliminate | src/fec.rs:742-774 | the pivot loop ends in reduced row echelon form with the same solutions, every row of it within its capacities; it is refused exactly if the course of the elimination costs more than the budget, and spends exactly that cost |
| Reduction.Reduce | src/fec.rs:737-803 | success: reduced echelon form with exactly the input's solutions, reporting its single-symbol rows; a contradiction is reported only if no solution exists; work is refused exactly if the elimination costs more than the budget |
| Determination.ReportedRises | src/fec.rs:776-803 | reported ids rise strictly, so the closing sort and removal of duplicates change nothing |
| Determination.ReportedIsForced | src/fec.rs:737-803 | soundness: every solution agrees with every reported symbol |
| Determination.UnreportedIsFree | src/fec.rs:737-803 | completeness: for a symbol that is not reported there are two solutions that differ in it |
| Determination.ReportsExactlyDetermined | src/fec.rs:737-803 | `reduce` reports a symbol if and only if the input equations determine it, and the equations it accepts are solvable |
| Repair.Coefficient | src/fec.rs:873-883 | the low byte of the mix, or one; never zero |
| Mixing.MixInverts | src/fec.rs:873-883 | the 32-bit mix can be undone: the repair id, the symbol id and the seed are each computed back from the mixed word and the other two |
| Mixing.MixInjective | src/fec.rs:873-883 | so distinct repair ids mix to distinct words for a fixed seed and symbol, and likewise symbol ids and seeds |
| Pinned.CoefficientVectors | src/fec.rs:944-952 | the coefficients have the values that the repository pins |
| Repair.SpanDistinct | src/fec.rs:188-210 | the ids of one span are distinct, across the 32-bit wrap |
| Repair.RepairSymbol | src/fec.rs:188-210 | refuses exactly the invalid spans and sizes; otherwise the output is the coded sum of the labelled sources, as long as the longest |
| Substitution.XorScaled | src/fec.rs:856-871 | adds a multiple of a source to row data, or refuses exactly a longer source or spent work |
| Substitution.SubstituteSource | src/fec.rs:289-298 | removes a known symbol from every row and adds its share to the data, for the length of the source in each row that mentions it; refuses only a row that is too short or spent work |
| Substitution.SubstitutedAllSat | src/fec.rs:289-298 | substitution keeps the solutions that agree with the source |
| Substitution.SortTermsSorts | src/fec.rs:366-375 | sorting a repair's coefficients yields a sorted permutation |
| Substitution.Lookup | src/fec.rs:571-576 | finds the bytes of a known symbol, or says that there are none |
| Substitution.BuildRow | src/fec.rs:358-375 | the row of a repair mentions unknown symbols of its span only, holds exactly when the repair's equation holds, and costs the length of every known source in the span; refuses only a source that is too long or spent work |
| Harvest.KeptAndReported | src/fec.rs:737-803 | the rows that are kept and the reported values say exactly what the whole matrix said |
| Harvest.Canonical | src/fec.rs:697-735 | each value is stripped to the source it encodes, inside vectors of the reserved sizes; fails only for a value that is no source of its symbol or differs from a known one |
| Harvest.StripsToTruth | src/fec.rs:697-719 | a padded genuine source strips to exactly its own bytes |
| Decoding.CloneRows | src/fec.rs:659-679 | the copy of the matrix has room for the reserved columns and bytes in every row, and holds the same equations |
| Decoding.Settle | src/fec.rs:697-803 | the common end of both adds: exactly what the equations determine is returned, work is refused exactly if the elimination costs more, and at no moment is more stored beside the matrix than was reserved for it |
| Decoding.ResolveSource | src/fec.rs:289-309 | a source arriving on a matrix yields exactly what becomes determined, for an exact amount of work and a peak of storage below the reservation; it is refused as contradictory or mis-sized only if no genuine symbols explain everything |
| Decoding.ResolveRepair | src/fec.rs:357-396 | the same for a repair; a redundant one changes nothing and determines nothing |
| Decoding.SourceWorkBound | src/fec.rs:254-309 | a closed form in rows, columns and symbol size that is always enough work for a source |
| Decoding.RepairWorkBound | src/fec.rs:327-396 | the same for a repair |
| Decoding.RedundantRow | src/fec.rs:376-382 | a repair over known symbols that holds already adds no information |
| Decoder.Decoder.constructor | src/fec.rs:236-252 | a new decoder holds nothing, owns nothing and contradicts no symbols |
| Decoder.Decoder.SourceStatus | src/fec.rs:578-594 | new, duplicate or contradictory, exactly as the window says |
| Decoder.Decoder.InsertKnown | src/fec.rs:518-528 | the newest source enters, the oldest leaves a full window, and the decoder's share of the budget stays exact |
| Decoder.Decoder.TryReuseOldest | src/fec.rs:530-569 | storage is reused exactly when the window is full, the oldest source large enough and unshared |
| Decoder.Decoder.Fund | src/fec.rs:92-118 | the batch and the committed bytes are paid for together, or the scratch charge is gone and nothing else changed |
| Decoder.Decoder.AddToMatrix | src/fec.rs:280-325 | with repairs pending: matrix, pivot copy, values, recovered symbols and the copy of the source together never pass the scratch reservation |
| Decoder.Decoder.AddEquation | src/fec.rs:346-405 | the same for a repair; once the scratch is reserved, memory cannot fail any more |
| Decoder.CommitFits | src/fec.rs:473-516 | the scratch reservation also covers everything that an add commits |
| Decoder.Decoder.AddSource | src/fec.rs:254-325 | an error changes nothing at all; otherwise every reserved byte has its owner, exactly what became determined is returned, and for genuine symbols it is the truth and only work or memory can fail; these fail only if the work, or the reservation beside what is in use, exceeds its limit; what is stored at any moment was reserved |
| Decoder.Decoder.AddRepair | src/fec.rs:327-405 | the same for repairs, with the exact conditions for the span, row-capacity and memory errors |
| Decoder.Decoder.CommitRecovered | src/fec.rs:418-447 | a recovered symbol joins the window against its charge, which is consumed whatever happens; with a charge that covers it, exactly a known symbol with other bytes is refused |
| Decoder.Decoder.Drop | src/fec.rs:597-606 | everything the decoder owned goes back to the budget |
| DecoderRuns.CommitBatch | src/recovery.rs:1107-1188 | committing a batch newest first never runs out of its charge, admits exactly the symbols that dispatch kept, and leaves the decoder owning exactly what it stores |
| DecoderRuns.Step | src/fec.rs:254-447 | one arrival with its commits keeps the run invariant and is answered: refused without any change, with the reason if it is work, memory or rows, or accepted with exactly what it makes determined reported and exactly the kept symbols known |
| DecoderRuns.Run | src/fec.rs:254-447 | over any sequence of arrivals there is one answer for each, as in `Step`; as long as they are genuine, lost, reordered, duplicated, with evictions, everything reported is the sender's symbol at its exact length and no arrival is called contradictory or mis-sized |
| Optimality.StepSolves | src/fec.rs:254-447 | an accepted arrival adds to the decoder's equations exactly what it says |
| Optimality.RunSolves | src/fec.rs:254-447 | after any run without refusals and evictions the decoder has exactly the solutions of everything that arrived |
| Optimality.Optimal | src/fec.rs:254-447 | a decoder that starts empty and is spared refusals and evictions has obtained a symbol if and only if everything that arrived determines it |
| Optimality.OrderDoesNotMatter | src/fec.rs:254-447 | two such decoders that received the same in any two orders, however often, obtained the same symbols |
| Losses.OneLoss | src/fec.rs:188-210 | if one symbol of a span is lost, any one repair over the span brings it back, whatever its id and seed |
| Losses.TwoLosses | src/fec.rs:188-210 | if two are lost, two repairs determine both if the determinant of their four coefficients is not zero, and neither if it is zero |
| Losses.SameRepairTwice | src/fec.rs:188-210 | a repair that arrives twice counts once: the determinant is zero |
| Losses.TwoRepairs | src/fec.rs:327-420 | a decoder obtains both sources of a span of two from two repairs alone whenever that determinant is not zero |
| Losses.FirstTwoRepairs | src/fec.rs:954-978 | so it is for repairs 0 and 1 over the first two sources of a window, and for the pair that the repository's own test uses |
| Storage.ColumnsSuffice | src/fec.rs:681-687 | the reserved columns are enough for every symbol that the matrix mentions |
| Storage.PivotsFit | src/fec.rs:744-772 | no copy of a pivot row in the whole course of an elimination is wider than the reserved columns |
| Storage.CostBound | src/fec.rs:737-774 | a closed form that is always enough work for an elimination |
| Budget.MemoryBudget.TryReserve | src/recovery.rs:120-137 | reserves exactly when the limit allows; the counter stays the sum of all holdings |
| Budget.MemoryBudget.Release | src/recovery.rs:139-144 | the counter never underflows |
| Budget.MemoryBudget.Reserve | src/recovery.rs:158-166 | a fresh charge for exactly the bytes asked for, or nothing |
| Budget.MemoryBudget.Grow | src/recovery.rs:176-186 | a charge grows to the size asked for, or stays as it was |
| Budget.MemoryBudget.Shrink | src/recovery.rs:188-195 | the difference goes back to the counter |
| Budget.MemoryBudget.Split | src/recovery.rs:197-206 | two charges for the bytes of one; the counter does not move |
| Budget.MemoryBudget.Transfer | src/recovery.rs:208-214 | bytes change their holder; the counter does not move |
| Budget.MemoryBudget.Drop | src/recovery.rs:217-221 | a dropped charge returns exactly its bytes |
| Budget.NothingHeld | src/recovery.rs:106-221 | when no holder is left, the counter is zero |
| AckRanges.AckRanges.Insert | src/recovery.rs:1425-1472 | a successful insert is exactly set union in canonical form; a refused one changes nothing; it is refused for capacity exactly if the list is full, the range ends past the prefix, and no offset held in a range lies in or next to what the prefix leaves of it |
| AckRanges.ValidateIs | src/recovery.rs:1457-1472 | the checks before an insertion, said of offsets |
| AckRanges.RefusalNeeded | src/recovery.rs:1457-1472 | a range past the prefix is refused only if every canonical list for the union is longer than the limit |
| AckRanges.PrefixRefused | src/recovery.rs:1457-1472 | a range that only extends the prefix is refused as well when it reaches no stored one, although the same list would still do |
| AckRanges.PrefixRefusedInput | src/recovery.rs:1457-1472 | such an input, beside one that the full list accepts because it touches a stored range |
| AckRanges.AckRanges.FromWire | src/recovery.rs:1405-1423 | accepts exactly the announced sets that lie within what was sent, and stores exactly that set |
| AckRanges.CanonicalUnique | src/recovery.rs:1381-1473 | equal sets have equal representations |
| AckRanges.StretchCovered | src/recovery.rs:1516-1532 | a stretch is acknowledged throughout exactly when the prefix or one single range contains it |
| Chunks.FindSlot | src/recovery.rs:1501-1510 | looking at one neighbour in the ordered map decides overlap exactly |
| Replay.ReplayBuffer.Retain | src/recovery.rs:1493-1514 | refuses exactly what overflows, exceeds a limit or overlaps, and then changes nothing |
| Replay.ReplayBuffer.Acknowledge | src/recovery.rs:1516-1532 | drops precisely the chunks all of whose bytes are acknowledged, with exact counts |
| Gaps.CompareOverlaps | src/recovery.rs:1728-1757 | finds a contradiction exactly when a byte still held differs from the arriving one |
| Gaps.FindGaps | src/recovery.rs:1767-1834 | the gaps, in order and as few as possible, are exactly the offsets of the record that are not held |
| Gaps.MissingUnique | src/recovery.rs:1767-1834 | the list of gaps is determined by what is held |
| Charges.FillGaps | src/recovery.rs:1836-1866 | fills every gap with the arriving bytes and splits one charge among them without a refusal |
| Charges.Release | src/recovery.rs:1925-1933 | gives up exactly the chunks below a limit, and their charges |
| Reassembler.Reassembler.constructor | src/recovery.rs:1587-1598 | an empty buffer stands for the empty map; its chunk limit is the least number from eight on that allows 64 bytes to a chunk |
| Reassembler.Reassembler.PlaceGaps | src/recovery.rs:1759-1871 | an overlapping record adds exactly what is missing, or changes nothing; each refusal has its exact condition |
| Reassembler.Reassembler.Insert | src/recovery.rs:1646-1726 | the buffer refines an offset-to-byte map: first byte kept, contradictions with held bytes refused, each error with its exact condition, a failure changes nothing; on success there is one more chunk for each gap, and the budget is charged for the whole record or for the copies |
| Reassembler.Reassembler.InsertRecord | src/recovery.rs:1614-1623 | the same with memory reserved as needed |
| Intake.EmptyHasRoom | src/recovery.rs:1705-1713 | an empty buffer has room for every record of up to `max_bytes` bytes that memory can pay for |
| Intake.RoomForNew | src/recovery.rs:1595-1713 | with fewer than eight chunks there is room for every record of new bytes that fits by bytes and memory |
| Intake.TakeEight | src/recovery.rs:1587-1726 | a new buffer accepts any eight disjoint records, in any order, that fit it and the budget by bytes, and then holds exactly their bytes at exactly their size |
| Reassembler.Reassembler.SetFinalOffset | src/recovery.rs:1873-1887 | succeeds exactly if nothing was accepted past the end and no other end is set |
| Reassembler.Reassembler.Read | src/recovery.rs:1889-1923 | returns the first accepted byte of each offset in order, as many as there are and as fit |
| Reassembler.Reassembler.AcknowledgeConsumed | src/recovery.rs:1925-1933 | releases memory without changing the stream |
| Reassembler.Reassembler.IsFinished | src/recovery.rs:1935-1937 | finished means that exactly the bytes below the end were accepted and read |
| Reassembler.Reassembler.Drop | src/recovery.rs:1566-1578 | returns every byte the buffer held, and touches nobody else's |
| Counting.UnreadIsWaiting | src/recovery.rs:1646-1923 | the unread counter is exactly the number of accepted offsets that were not read |
| Receiving.ByteLimitHolds | src/recovery.rs:1705 | inside the credit that was given, the byte-capacity test can never fire |
| Receiving.ConsistentStays | src/flow.rs:151-186 | an arrival keeps the receiving half consistent, whatever its outcome |
| Receiving.FlowReceiver.InsertPrecharged | src/flow.rs:141-186 | acknowledged set, credit and buffer move together or not at all; each refusal has its reason: the protocol, a full list of ranges (exactly), or new bytes for which there is no chunk or that have to be copied; fewer than eight chunks never lack one for new bytes; an accepted record is owed one acknowledgment more |
| Receiving.FlowReceiver.InsertBytes | src/flow.rs:132-186 | the same for data from the control stream, whose memory is reserved on the way |
| Receiving.FlowReceiver.SetFinalOffset | src/flow.rs:188-199 | the end is accepted exactly within the credit and consistently with the stream |
| Receiving.FlowReceiver.Read | src/flow.rs:201-225 | the next bytes, the end, an error or a wait; credit grows with what was read, and is marked for announcement exactly if it grew |
| Receiving.FlowReceiver.TakeAck | src/flow.rs:850-867 | the announced acknowledgment is exactly the set of accepted offsets; its prefix ends at the first missing one |
| Receiving.FlowReceiver.TakeCredit | src/flow.rs:859-870 | the announced credit is the current one, once per change |
| Receiving.FlowReceiver.AckWritten | src/flow.rs:1236-1241 | every chunk whose bytes are both read and acknowledged is released, and nothing changes that is acknowledged or readable |
| Ownership.Consigned | src/recovery.rs:1067-1105 | handing a charge to a flow leaves every reserved byte of the connection with exactly one holder |
| Ownership.Adds | src/recovery.rs:106-221 | decoder, flows, charges in transit and others add up to the counter, nothing counted twice |
| Inflow.DecodedFits | src/recovery.rs:902-941 | a datagram is at least as long as all the data in it, so its charge covers every record |
| Connection.ConnectionRecovery.constructor | src/recovery.rs:320-372 | a new connection holds nothing, has the configured window for sources and for equations, and is truthful about any genuine symbols |
| Connection.ConnectionRecovery.Prune | src/recovery.rs:1304-1312 | exactly the expired pre-open records leave, with their charges and places |
| Connection.ConnectionRecovery.Reserve | src/recovery.rs:991-1054 | a place and a charge for every record, or for none; fails exactly for want of places or memory, and then the request exceeds what was free before; no split of the reservation can fail |
| Connection.ConnectionRecovery.Release | src/recovery.rs:1056-1065 | all places and charges of the records are given back |
| Connection.ConnectionRecovery.GiveTo | src/recovery.rs:1090-1103 | the flow takes the record whole, or refuses it for a reason found in its state, is unchanged, and the drop is counted |
| Connection.ConnectionRecovery.Dispatch | src/recovery.rs:1067-1105 | every record reaches the flow found for it, else the registered flow of its stream, which may only refuse it for a reason and counted; only a record whose stream is not registered waits, for the full time; no waiting record ever belongs to a registered stream; the refusals are exactly what is counted, and exactly the flows that blame a record are to be reset; flows lose nothing, the place count stays exact and no byte is counted twice |
| Connection.ConnectionRecovery.Commit | src/recovery.rs:1107-1188 | a recovered symbol becomes known exactly if it was not, paid for by its charge, and then never fails |
| Connection.ConnectionRecovery.DispatchRecovered | src/recovery.rs:1107-1188 | the same for the records of every recovered symbol; a symbol is lost only if it is malformed, or if there are not places for all records, or not the memory to dispatch the batch; exactly the others become known |
| Connection.ConnectionRecovery.AcceptNew | src/recovery.rs:970-988 | a source that is not known: the decoder takes it, reports exactly what it makes determined, and its records and those of everything recovered reach their flows or wait; or it is refused and counted, which never happens to a genuine one if the decoder has the room and the work |
| Connection.ConnectionRecovery.AcceptReserved | src/recovery.rs:967-988 | the same; a duplicate changes nothing, a contradiction is refused and counted, and both return all reservations |
| Connection.ConnectionRecovery.AcceptSource | src/recovery.rs:951-989 | the same with the reservations; a genuine source is never refused if there are places, memory and work for it |
| Connection.ConnectionRecovery.ReceiveSource | src/recovery.rs:883-949 | one or many records: malformed is refused and counted; unless the source is a duplicate or refused, every record reached the registered flow of its stream or waits because there is none, and so did those of everything recovered; a genuine source is never refused if there are places, memory and work for it |
| Connection.ConnectionRecovery.ReceiveRepair | src/recovery.rs:846-878 | a repair is taken by the decoder and the records of all that it recovers reach their flows or wait, or it is refused and counted, or it finds no row left; a genuine one within the span limit is taken whenever there is room and work for it |
| Connection.ConnectionRecovery.Receive | src/recovery.rs:843-881 | whatever arrives: memory is conserved, others' reservations are untouched, and each record of it and of everything it recovered is with the registered flow of its stream, or was refused by it for a reason and counted, or waits because there is none; unless it was a repeat, was refused as a whole, or found no row left; what is genuine and can be afforded is neither refused nor left; and genuine datagrams bring flows nothing but bytes that were sent to them |
| Connection.ConnectionRecovery.ReceiveAll | src/recovery.rs:843-1188 | over any sequence of datagrams, the same for each of them, by snapshots taken before and after it |
| Completeness.RunIsLossless | src/recovery.rs:843-1188 | a run of a connection in which no drop was counted is a run of its decoder in which nothing was refused or given up |
| Completeness.DeterminedIsDelivered | src/recovery.rs:843-1188 | such a connection ends up knowing a symbol if and only if what arrived determines it, and then each of its records is with the registered flow of its stream; only records of streams without one wait |
| Connection.ConnectionRecovery.Register | src/recovery.rs:380-410 | a new flow gets every record that waited for it, except those it refuses for a reason or that had expired, which are counted; it is to be reset exactly if it blames one; none is left waiting, and the other waiting records and flows are untouched |
| Connection.ConnectionRecovery.Unregister | src/recovery.rs:412-414 | forgets the flow's number and nothing else |
| Connection.ConnectionRecovery.DropFlow | src/recovery.rs:1561-1578 | a dropped flow returns all its memory and disturbs no other |
| Connection.ConnectionRecovery.Balance | src/recovery.rs:106-221 | `used` is the decoder's bytes plus the flows', the waiting records' and the charges' in transit plus others', never above the limit; without flows and records only the decoder's remain |
| SourceWindow.SourceOverhead | src/wire.rs:20 | a source with one record is at most `SINGLE_SOURCE_MAX_OVERHEAD` longer than its data, so the payload limit keeps every source within the symbol size |
| SourceWindow.SourceWindow.SendSource | src/recovery.rs:617-652 | a record is numbered and queued, or refused exactly when disabled or full |
| SourceWindow.SourceWindow.TakeDatagram | src/recovery.rs:722-743 | datagrams leave in order |
| SourceWindow.SourceWindow.RecordSent | src/recovery.rs:745-771 | a recorded source makes the window the old one plus the new source, without its oldest exactly if that is longer than the span limit; the window keeps consecutive ids modulo 2^32 in send order, even when the limit shrinks |
| SourceWindow.SourceWindow.SendTailRepairs | src/recovery.rs:654-720 | sends as many repairs as asked for and as fit, none with fewer than two sources, under consecutive ids; every one is the coded sum of exactly the newest sources that its header names |
| SourceWindow.SourceWindow.Disable | src/recovery.rs:788-802 | nothing is queued or repaired any more |
| Delivery.EverythingGenuine | src/recovery.rs:617-720 | everything a source window has drawn, now or before, is genuine for its own symbols |
| Delivery.WireIsGenuine | src/recovery.rs:617-720 | the same of the bytes on the wire, as a receiver decodes them |
| Delivery.QueueIsGenuine | src/recovery.rs:617-743 | the same of everything in the queue |
| Delivery.Emit | src/recovery.rs:617-802 | over any run of a window, act by act, exactly what is queued, taken and recorded; everything on the wire is drawn from the window, in order, and its records are the ones passed to `send_source` |
| Delivery.NewestSources | src/recovery.rs:654-771 | over any run with a constant span limit s the window is always the newest min(recorded, s) sources, and every repair queued codes exactly these |
| Delivery.PackedIsGenuine | src/recovery.rs:617-652 | the symbols of a connection are genuine sources, so a new receiver starts in agreement with them |
| Delivery.RecoveredWereSent | src/recovery.rs:1107-1132 | a recovered symbol decodes to exactly the record that was sent under its id |
| Delivery.BroughtWasSent | src/recovery.rs:843-1188 | what a receiver's flow gains was written by the sender: same stream, same offset, same byte |
| Delivery.Transmit | src/recovery.rs:617-1188 | end to end: any run of a window, any loss, reordering and repetition, then the receiver; every byte and end a flow gained is in a record passed to `send_source` for that flow, every arrival is served as `Receive` says, and whatever can be afforded is taken and not refused |
| Sending.EnqueueKeeps | src/flow.rs:227-244 | queueing keeps the retention invariant and appends to the queue |
| Sending.SplitKeeps | src/flow.rs:1014-1029 | splitting a chunk keeps the invariant and every byte |
| Sending.RetainKeeps | src/flow.rs:1034-1076 | handing a chunk to replay keeps the invariant and every byte |
| Sending.RetainNeverFails | src/flow.rs:987-1076 | `retain` never meets a limit, an overflow or an overlap there |
| Sending.AcknowledgeFits | src/flow.rs:935-952 | no counter underflows when acknowledged chunks are released |
| Sending.AcknowledgeKeeps | src/flow.rs:925-958 | only acknowledged bytes are let go |
| Sending.DiscardFits | src/flow.rs:282-310 | no counter underflows when a reset discards the queue |
| Sending.ResetKeeps | src/flow.rs:282-310 | a reset keeps the counters exact for what is left |
| Sending.StopKeeps | src/flow.rs:339-352 | a stopped task keeps nothing, and its counters say so |
| Writing.WriteKeeps | src/flow.rs:679-739 | whatever a write returns, the stream is a prefix of what was accepted and, while the flow is open, the buffer is the rest |
| Writing.CloseKeeps | src/flow.rs:658-671 | a shutdown waits for the buffer, then fixes the end at the stream's length |
| Writing.LateWrites | src/flow.rs:679-713 | after a shutdown a write is accepted exactly if `nodelay` is off and it does not fill the buffer |
| Writing.OpenWrites | src/flow.rs:679-739 | on an open flow every nonempty write is accepted, with the smaller of the free buffer and its own length, or has to wait, and the room in the queue decides which; it waits only if the queue it leaves has no room for a buffer |
| Writing.RoomAccepts | src/flow.rs:679-713 | room for one buffer suffices for every write if and only if the buffer is not full, `nodelay` is on, the write does not fill the emptied buffer, or there is room for two |
| Writing.FullBufferWaits | src/flow.rs:679-713 | an input that has to wait although there is room for one buffer |
| Sender.FlowSender.EnqueueBytes | src/flow.rs:227-244 | queues, waits or fails exactly as the limits, the error and the shutdown say |
| Sender.FlowSender.RequestShutdown | src/flow.rs:266-280 | fixes the end once, at the current offset |
| Sender.FlowSender.RequestReset | src/flow.rs:282-310 | discards the queue exactly once, and not after the flow task has stopped or failed |
| Sender.FlowSender.TakeOutbound | src/flow.rs:983-985 | the head of the queue passes into the flow task's hand |
| Sender.FlowSender.SplitOutbound | src/flow.rs:1014-1029 | splits unless the chunk limit is reached |
| Sender.FlowSender.ProcessOutbound | src/flow.rs:987-1085 | sends exactly when the first chunk is below the peer's limit, need not be split or may be, and is not held up; then exactly the longest stretch that the limits allow, by DATAGRAM or stream as answered; no byte is lost |
| Sender.FlowSender.ApplyAck | src/flow.rs:925-958 | refuses exactly the sets that leave what was sent; otherwise releases exactly what is acknowledged |
| Sender.FlowSender.ApplyMaxOffset | src/flow.rs:959-966 | credit never shrinks |
| Sender.FlowSender.QueueTerminalFrames | src/flow.rs:1251-1264 | the end is announced once, at the stream's length, with nothing left to send |
| Sender.FlowSender.StopTask | src/flow.rs:1387-1396 | everything retained is discarded |
| Sender.FlowHandle.PollWrite | src/flow.rs:679-713 | the buffered write does what `Writing.Write` says; on an open flow it accepts the smaller of the free buffer and its own length unless the queue lacks room, by the exact condition |
| Sender.FlowHandle.PollSendBuffer | src/flow.rs:715-739 | the whole buffer is queued or nothing changes |
| Sender.FlowHandle.PollShutdown | src/flow.rs:658-671 | the shutdown does what `Writing.Close` says |
| EndpointsSafety.ActsKeep | src/flow.rs:873-1264 | every step of either endpoint keeps the invariant of both directions |
| EndpointsSafety.RunIsSafe | src/flow.rs:132-1264 | every state of every run satisfies the invariant |
| EndpointsSafety.ArrivalIsSound | src/flow.rs:151-186 | a record of the peer is never out of credit, contradictory or past the end |
| EndpointsTheorems.StreamSafety | src/flow.rs:132-280 | in every interleaving, with loss, duplication, reordering, replay, fallback and resets: bytes read are a prefix of bytes accepted; the end is seen only after all bytes up to the shutdown, and all accepted bytes were read if and only if no write came late |
| EndpointsTheorems.Conservation | src/flow.rs:925-1264 | every byte of the stream is with the receiver or can still be sent, and an announced end is reachable |
| EndpointsTheorems.CreditSafety | src/flow.rs:850-871 | a sender never believes in more credit than its peer has granted |
| EndpointsTheorems.NoProtocolErrors | src/flow.rs:925-981 | conforming ends never refuse each other's records or frames for range, offset or content; an announced end is refused if and only if it lies past the receiver's credit, and then it was announced after a reset |
| EndpointsTheorems.EndWithinCredit | src/flow.rs:959-1264 | an end announced within the credit that its sender knows of is never refused, however much later it is read |
| EndpointsTheorems.ResetRace | src/flow.rs:1251-1264 | a run in which an end announced after a racing reset is refused for lack of credit |
| EndpointsTheorems.LateWriteLost | src/flow.rs:679-713 | a run in which a byte accepted after the shutdown is never read although the reader sees the end |
| Varint.VarintRoundTrip | src/wire.rs:753-788 | every value up to 2^62-1 is read back, whatever follows |
| Varint.VarintCanonical | src/wire.rs:768-788 | only minimal encodings are accepted |
| Varint.VarintPrefix | src/wire.rs:768-788 | every proper prefix of an encoding is truncated |
| SourceCodec.SourceSelfDelimits | src/wire.rs:585-687 | an encoded source is read back whatever follows it |
| SourceCodec.PaddedRoundTrip | src/wire.rs:623-633 | zero padding is stripped at exactly the right place |
| SourceCodec.SourceCanonical | src/wire.rs:635-687 | only encodings are accepted |
| RepairCodec.RepairRoundTrip | src/wire.rs:698-751 | a repair is read back exactly if its size is admitted |
| RepairCodec.RepairCanonical | src/wire.rs:719-751 | only encodings are accepted |
| Cursor.ReadVarint | src/wire.rs:768-788 | the byte loop decodes exactly as the format says |
| Cursor.Cursor.SourceRecord | src/wire.rs:669-687 | one record is parsed and the cursor moves exactly past it |
| Cursor.Cursor.Ranges | src/wire.rs:456-467 | the loop over acknowledged ranges accepts exactly rising disjoint ranges above the prefix |
| Cursor.ReadSource | src/wire.rs:635-667 | the decoding loop returns the source and the bytes it took |
| Cursor.WriteSource | src/wire.rs:585-609 | the encoding loop appends exactly the encoding, or refuses exactly the invalid sources |
| Control.RequestRoundTrip | src/wire.rs:117-170 | an open request is read back whatever follows |
| Control.PayloadRoundTrip | src/wire.rs:406-583 | the payload of every valid frame is read back |
| Control.PayloadCanonical | src/wire.rs:406-517 | an accepted payload is the encoding of the frame it is read as |
| Control.ControlRoundTrip | src/wire.rs:372-583 | an encoded frame is read back with its length, whatever follows |
| Control.ControlPrefix | src/wire.rs:372-448 | every proper prefix of an encoding is truncated, never misread |
| Control.ControlCanonical | src/wire.rs:406-583 | only encodings are accepted |
| Control.LimitSuffices | src/flow.rs:1302-1306 | the input limit admits every frame that a conforming peer sends |
| ControlReader.DecodeNext | src/wire.rs:406-448 | a buffer that is a cut of a valid frame sequence decodes to its next frame, or to truncated exactly if that frame is incomplete |
| ControlReader.Reader.PollReceive | src/flow.rs:873-923 | one read and the decode loop apply exactly the frames that are complete, in order |
| ControlReader.ReceiveAll | src/flow.rs:873-923 | however the encoding is cut into reads, exactly the sequence of frames is applied |
| ControlReader.TargetAdvances | src/wire.rs:388-404 | the read target never lies past the end of the first frame, and moves until it is reached |
| ControlReader.ReadControlBytes | src/flow.rs:1780-1797 | the prefix reader stops exactly at the end of one frame |
| Admission.TokenRoundTrip | src/session.rs:79-177 | the token fields are read back as written |
| Admission.MakeRoom | src/session.rs:150-155 | only expired attempts leave a full cache; there is room exactly if fewer than the maximum are unexpired |
| Admission.ReplayAdmission.Admit | src/session.rs:111-158 | the bounded cache decides exactly as the unbounded history would |
| Admission.AdmitAll | src/session.rs:111-158 | over whole runs every request is answered as the record of all earlier answers would have it: each identity and nonce is admitted at most once, room is refused only when the good ones fill it, and the cache never overflows |
| Checksum.SumBound | src/faketcp.rs:1018-1031 | a packet's sum fits a 32-bit accumulator |
| Checksum.ChecksumSum | src/faketcp.rs:1018-1031 | the loop computes the sum of 16-bit words without overflow |
| Checksum.FoldStep | src/faketcp.rs:1033-1038 | a folding step keeps the value modulo 65535 |
| Checksum.FoldChecksum | src/faketcp.rs:1033-1038 | folding ends in the representative below 65536 |
| Checksum.ComplementCancels | src/faketcp.rs:1013-1016 | data with its own complement verifies |
| TcpOptions.OptionsFit | src/faketcp.rs:166-210 | exactly an overlong cookie is refused; everything else fits the option space |
| TcpOptions.FastOpenCookie | src/faketcp.rs:335-357 | the scanning loop finds what the format says |
| TcpOptions.CookieRoundTrip | src/faketcp.rs:166-357 | the cookie put into the options is the one found there |
| FakeTcp.PrefixReverses | src/faketcp.rs:1040-1054 | both ends of a path cache the same pseudo-header prefix |
| FakeTcp.ChecksumTotal | src/faketcp.rs:1040-1071 | prefix, length and segment together stay below 2^32, for either family |
| FakeTcp.ChecksumWithPrefix | src/faketcp.rs:1063-1071 | the checksum is computed from that sum without wrapping |
| FakeTcp.SegmentVerifies | src/faketcp.rs:1063-1071 | an encoded segment always passes its receiver's checksum |
| FakeTcp.SegmentRoundTrip | src/faketcp.rs:302-333 | ports, sequence, flags, cookie and payload of a segment are read back |
| FakeTcp.ClosedFormIsGeneric | src/faketcp.rs:288-300 | the closed-form IPv4 checksum equals the generic one and verifies |
| FakeTcp.PacketRoundTrip | src/faketcp.rs:226-461 | for every valid tuple of either family, everything put into a packet is read by the peer |
| Carrier.FakeTcpCarrier.Encode | src/faketcp.rs:897-932 | fails exactly for size, and then changes nothing; otherwise the sequence advances by what was sent |
| Carrier.FakeTcpCarrier.EncodeFirst | src/faketcp.rs:716-795 | at most one SYN, only with a cookie |
| Carrier.FakeTcpCarrier.Decode | src/faketcp.rs:820-859 | returns the payload, or an error without touching the state; the acknowledgment never goes back |
| Carrier.AcceptRoundTrip | src/faketcp.rs:820-932 | the peer accepts every packet that fits its MTU and reads the same datagram |
| Carrier.Exchange | src/faketcp.rs:673-932 | a datagram that fits both MTUs arrives as sent, with its sequence, and the acknowledgment follows the sender |
| PacketRing.PacketRing.Write | src/packet_ring.rs:122-129 | a lease takes one buffer out of the pool |
| PacketRing.PacketRing.Commit | src/packet_ring.rs:172-183 | a committed lease joins the queue's end |
| PacketRing.PacketRing.Recycle | src/packet_ring.rs:131-134 | a buffer goes back to the pool |
| PacketRing.PacketRing.PushCopy | src/packet_ring.rs:71-82 | queues a copy or refuses without loss |
| PacketRing.PacketRing.PopInto | src/packet_ring.rs:100-119 | first in, first out; a packet that does not fit stays; buffers are conserved |
| Wakeups.ExecutorKeeps | src/host_runtime.rs:305-407 | a task is queued exactly when it is in the ready queue or about to be put there |
| Wakeups.WakesArePolled | src/host_runtime.rs:358-407 | a woken task is owed a poll that starts after the wake |
| Wakeups.NoLostWakeup | src/host_carrier.rs:90-173 | with one waiting task, in every interleaving before shutdown, a free resource never coexists with a parked task that is owed no wake |
| Wakeups.FirstTaskStarves | src/host_carrier.rs:277-329 | for any two or more tasks and any n: a run in which, from some point on, n units are supplied and used and the first task sleeps all the time |
| Wakeups.SecondTaskSleepsOn | src/host_carrier.rs:277-329 | and after them everything can come to rest with a unit left over and the first task still asleep |
| Wakeups.LostExactlyWithTwo | src/host_carrier.rs:277-329 | a wake-up can be lost if and only if two or more tasks share the slot |
| Wakeups.StrandedExactlyWithTwo | src/host_carrier.rs:277-329 | a run can come to rest with a free unit and a parked task if and only if two or more tasks share the slot |

## Left out

- Sender.FlowSender.ProcessOutbound: states the whole of `process_outbound` without other threads in between; the interleaved version is the step system of `Endpoints`.
- Connection.ConnectionRecovery.AcceptSource: other tasks may run between its lock regions; every region is a method of its own with a contract for any charges and places in other hands, but the whole is stated without interleaving.
- Connection.ConnectionRecovery.Dispatch: which flows are to be reset is returned, not carried out, because the reset belongs to the sending half; `Receive` passes them on and says no more of them than that they are alive.
- EndpointsTheorems.StreamSafety: safety only; that bytes are eventually delivered is not claimed, because the code does not guarantee it (a head chunk cannot be split at the chunk limit, and range capacity on fallback data resets the flow).
- SourceWindow.SourceWindow.SendSource: takes payloads within the symbol limit; the part of the payload limit that follows the path MTU is not modelled.
- SourceWindow.SourceWindow.SendTailRepairs: the code releases its lock between two repairs, and stops early if others fill the queue or disable it meanwhile; here nobody else runs in between.
- Delivery.Transmit: for connections that issue at most 2^32 symbols, because after that an id stands for two records.
- Optimality.Optimal: for runs without refusals and evictions; an evicted source is forgotten and may then be missing from a repair.
- Decoder.Decoder.CommitRecovered: a charge drawn on another budget (`belongs_to`) cannot occur in the model.
- Reduction.Reduce: the rescaling, sorting and removal of duplicates at its end are proved to have nothing to do and are not repeated.
- Wakeups.NoLostWakeup: the two rings are counters of available units; their contents and buffers are in `PacketRing`.
- Arithmetic overflow of `usize` and allocations whose capacity differs from the request.
- The pre-open records of all flows form one list in order of arrival instead of a hash map of lists; counters and statistics are omitted.
- The wire queue of a flow task and the control stream are one FIFO of whole frames in `Endpoints`; cutting into reads is covered by `ControlReader`.
- Wakers and timers inside a flow, flush bookkeeping, delayed acknowledgments, and the choice of when to replay or to repair (any moment is allowed).
- Errors for a required but unavailable adaptive mode, early-data admission, capability negotiation and open status codes.
- HMAC, CRC32C, random sequence numbers and the SYN cookie's computation.
- The QUIC backend, TLS, congestion control, path management, configuration, FFI, raw sockets and host timers.
