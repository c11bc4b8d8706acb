# A verified model of bats-iperf

This project models the measurement tool of the BATS software development kit
(`example/iperf-bats`) in Dafny and proves what its protocols are for. The BATS
transport is an abstract channel; everything that runs on top of it and carries
state is modelled as the source writes it.

| part | files |
|---|---|
| alternate-marking loss measurement | `StreamModel`, `StreamSystem`, `StreamInvariants`, `StreamReports`, `StreamTheorems`, `StreamOrdered`, `StreamRounds`, `BlockBuffer`, `IperfStream` |
| file segmentation and reassembly over parallel streams | `FileNames`, `FileBlocks`, `FileTransferSystem`, `FileTransferProofs`, `FileTransferTheorems`, `FileTransferProgress`, `FileReceiver` |
| control-channel protocol and sender polling | `ControlProtocol`, `IperfTest` |
| sliding-window rate estimator | `ProgressBar` |
| headers, dispatch and bodies of control messages | `ControlHeader`, `ControlMessages` |
| little-endian stores and loads, small arithmetic | `Bytes`, `Arithmetic`, `Options` |

**Form.** Protocols are step systems: reading a shared field, storing it and sending
a message are separate steps wherever another thread or the peer can tell them apart,
a step that is not enabled changes nothing, and a run is *any* sequence of steps, so
a theorem about `Run(Initial(...), steps)` covers every interleaving, loss,
repetition, reordering and failure. The objects the source mutates are classes:
`IperfStream`, `FileReceiver` and `IperfTest`, whose methods are proved to do what the
steps of the systems do, and `SampleRing` and `ProgressBar`, whose methods are proved
against the history of samples.

**How one stream's measurement is proved.** The sender's invariant (`TxStepKeeps`)
ties the colour and interval data of every block on the wire to the snapshot it was
stamped under. The receiver's invariant (`StreamReports.Reachable`) says that it stands at
the boundary of the last interval it reported and that its pruned recorder equals the
full history from there on. The key step is `NewColourIsNewer`: one colour bit and the
threshold of 128 are enough to tell that a block with a new colour reports a later
interval, however late it arrives.

**Where code and documentation differ.** The code is followed. Found along the way:

- With zero configured streams the sender can take the parameter acknowledgement for
  the report acknowledgement; with any other number it never does
  (`AckConfusionIffNoStreams`).
- The receiver sends the report acknowledgement before it stores TEST_DONE, so the
  sender can be done first (`SenderCanBeDoneFirst`). While nobody stops the receiver, it is
  TEST_DONE when the acknowledgement is consumed exactly unless it still stands between
  those two (`ReceiverDoneAtReportAck`).
- The sender sends the summary before it stores TEST_EXCHANGE_REPORTS. Reading the report
  acknowledgement ends the test exactly when it is not read between those two, in whatever
  order the pending stores then fall (`ReportAckOutcome`); read there, it is lost, and only
  a stop ends the test (`LostReportAckIsFinal`, `ReportAckCanBeLost`).
- An interval narrower than the reorder threshold is not always missed. On an ordered
  channel the intervals 1 to k are all reported exactly when each of them was carried by a
  delivered block far enough past its start, or by the very first block
  (`ReportsAllIffNoticed`).
- The state diagram is not strictly forward. With any stream count but zero the sender
  goes back exactly when one of three stores that were already decided falls on TEST_DONE:
  of TEST_EXCHANGE_REPORTS after dead streams, of TEST_EXCHANGE_PARAMETERS or of
  TEST_START after a signal. The receiver goes back exactly when it is stopped between
  choosing TEST_START and storing it (`StatesAdvance`, with a run for each:
  `DoneToReports`, `DoneToParameters`, `DoneToStart`, `ReceiverDoneToStart`).
- The length of a file passes through a 32-bit `int`, so `fin` is set on the last block
  exactly below 2 GiB (`FinTargetIsSize`, `FlagsMarkTheEnds`).
- Duplicate or unreadable paths are announced but not queued (`AnnouncedIsQueued`) and an
  empty file produces no block (`EmptyFileNeverCounted`); either keeps the receiver's
  countdown above zero (`CountdownReachesZero`).
- The check that the first sequence number of an ordered stream is 0 ends the receiver
  exactly when the first block is the closing one and a data block was abandoned before
  it (`FirstNumberIsZero`).
- Resetting a progress bar keeps `last_div_res`, so the guard stays in step with the
  progress exactly when that was 0 (`Reset`); the values shown still rise (`Drive`).
- Reading a summary keeps to the boundaries of its reports exactly when each identifier in
  it is held by exactly one receiver stream (`AlignedIffHeldOnce`): an unknown identifier
  leaves the position inside its report, one held twice skips the next report.
- `IsStreamReady` assigns the ready flag where a comparison may have been meant; the
  model assigns it too.

## Model

| member | source | states |
|---|---|---|
| `StreamTheorems.ReportsNeverRepeat` | example/iperf-bats/iperf_stream.cc:538-541 | Over every run and any lossy, duplicating, reordering channel, the interval reports acted on carry strictly increasing snapshot numbers and do not overlap. |
| `StreamTheorems.BoundaryNeverMovesBack` | example/iperf-bats/iperf_stream.cc:872 | No step of any run moves `seq_of_last_changed_grp_id_` back. |
| `StreamTheorems.ReportsCountArrivals` | example/iperf-bats/iperf_stream.cc:872-877 | `actual_received` is exactly the number of distinct sequence numbers of the reported interval that had arrived, never exceeds the number sent (the assertion holds), and the interval is the one the sender measured. |
| `StreamTheorems.RecorderAgreesWithHistory` | example/iperf-bats/iperf_stream.cc:930-944 | From the boundary on, the pruned recorder and the full arrival history have the same members, in every reachable state. |
| `StreamTheorems.SnapshotsTile` | example/iperf-bats/iperf_stream.cc:67-88 | Consecutive intervals meet without gap or overlap, the first begins at 0 and none is negative, wherever snapshots fall between the two counter updates. |
| `StreamTheorems.SnapshotsAddUp` | example/iperf-bats/iperf_stream.cc:67-88 | In every reachable state bytes and datagrams of all intervals add up to the totals at the last snapshot, and from the first snapshot on the report holds the latest interval. |
| `StreamTheorems.SumsTelescope` | example/iperf-bats/iperf_stream.cc:79-84 | The sum of the first k intervals is the total at snapshot k. |
| `StreamRounds.BytesAreSent` | example/iperf-bats/iperf_stream.cc:764-765 | In every reachable state the byte total is the length of all data blocks the transport took, of the abandoned block if there is one, and of the closing block as it was counted, short only of the one block whose length is about to be added. |
| `StreamRounds.IntervalBytes` | example/iperf-bats/iperf_stream.cc:67-88 | The bytes of interval k are the lengths of the blocks counted between its two snapshots, and those are the blocks at its sequence numbers, give or take the one whose two counters the snapshot fell between. |
| `StreamTheorems.ColourMatchesInterval` | example/iperf-bats/iperf_stream.cc:716-744 | A block coloured under count c has its sequence number between the boundaries of interval c + 1, the upper one included: colour and interval differ by at most one block. |
| `StreamTheorems.OrderedChannelShowsNoLoss` | example/iperf-bats/iperf_stream.cc:893-896 | On an ordered, loss-free channel every report shows zero loss. |
| `StreamTheorems.OrderedChannelReportsEverything` | example/iperf-bats/iperf_stream.cc:946-961 | On such a channel, when every interval was announced and is wider than the threshold, exactly the intervals 1..k are reported, each once and in order. |
| `StreamOrdered.ReportsAllIffNoticed` | example/iperf-bats/iperf_stream.cc:946-961 | Until the closing block, exactly the intervals 1..k are reported, k being the one the latest block carries, if and only if each of them was carried by a delivered block with a number more than 128 past its start, or by the first block. |
| `StreamOrdered.NoticedIsNew` | example/iperf-bats/iperf_stream.cc:946-961 | A receiver that stands at the interval before takes such a block for a new colour. |
| `StreamOrdered.OrderReachable` | example/iperf-bats/iperf_stream.cc:491-562 | In every reachable state of an ordered channel each report has a block that triggered it from the boundary before, and whatever was noticeable in a row has been reported. |
| `StreamTheorems.WideIntervalIsNoticed` | example/iperf-bats/iperf_stream.cc:946-961 | The first block that carries a wide interval triggers its report. |
| `StreamTheorems.FinAckMeansAllReceived` | example/iperf-bats/iperf_stream.cc:776-856 | Once the FIN-ACK is back on a reliable stream, the receiver's bytes and datagrams equal those of all blocks the transport accepted, the closing block included. |
| `StreamTheorems.WireNumbersHaveAtMostOneGap` | example/iperf-bats/iperf_stream.cc:747-765 | Sequence numbers on the wire equal their position, except that the closing block skips the number of an abandoned block; at most one block is abandoned, and the final datagram count exceeds the accepted blocks by exactly that. |
| `StreamTheorems.FirstNumberIsZero` | example/iperf-bats/iperf_stream.cc:515-524 | The first number on a reliable stream is 0 if and only if the first block is not the closing one sent after an abandoned block. |
| `StreamTheorems.FirstNumberCanBeOne` | example/iperf-bats/iperf_stream.cc:776-785 | A run in which the first block on the wire has number 1. |
| `StreamRounds.BytesReachable` | example/iperf-bats/iperf_stream.cc:678-812 | The invariant behind the two rows on bytes: each length is positive, counted once, and in the order of the wire. |
| `StreamRounds.RoundSendsOneBlock` | example/iperf-bats/iperf_stream.cc:705-765 | An undisturbed round puts one data block of the ideal length on the wire, numbered by the datagrams so far and coloured by the snapshots so far, with the latest interval on a new colour and none before the first snapshot, and counts it. |
| `StreamRounds.ClosingBlockGoesOut` | example/iperf-bats/iperf_stream.cc:776-812 | The closing block is a FIN without interval data, takes the next number and the current colour and is counted by a second reading of the ideal length. |
| `StreamRounds.ClosingBlockIsGivenUp` | example/iperf-bats/iperf_stream.cc:786-803 | A refused closing block is given up if and only if the stream is done or has failed, and then nothing is counted. |
| `StreamRounds.BlocksCanArrive` | example/iperf-bats/iperf_stream.cc:491-513 | In every reachable state a block the channel may deliver is taken: its number is recorded and its bytes and one datagram are counted. |
| `StreamRounds.FinIsAnswered` | example/iperf-bats/iperf_stream.cc:819-856 | On a reliable stream the FIN is answered by a block that reads last and ack, and the answer ends the sender. |
| `StreamRounds.NoDataAfterStop` | example/iperf-bats/iperf_stream.cc:678-684 | After the report is finished, a kill, an error or a lost connection no data block goes out in any continuation, if none was in hand. |
| `StreamRounds.StopIsFinal` | example/iperf-bats/iperf_stream.cc:620-641 | A stopped stream is done and disconnected in every continuation. |
| `StreamRounds.ErrorEndsTheLoop` | example/iperf-bats/iperf_stream.cc:678-684 | An error in sending is taken back and leaves the stream done; the closing block of a reliable stream is still tried, but given up when refused. |
| `StreamRounds.KindsApart` | example/iperf-bats/iperf_stream.cc:776-824 | Data, FIN and the answer to a FIN are never taken for one another. |
| `StreamInvariants.SnapshotTiles` | example/iperf-bats/iperf_stream.cc:67-88 | A snapshot appends one boundary, keeps the earlier ones and keeps the interval of the report equal to the last pair of boundaries. |
| `StreamInvariants.StampKeepsSender` | example/iperf-bats/iperf_stream.cc:716-744 | Stamping keeps the tie between the reused buffer, the remembered colour and the set of colour changes. |
| `StreamInvariants.TxStepKeeps` | example/iperf-bats/iperf_stream.cc:678-812 | Every step of the sending thread, of a snapshot and of the closing exchange keeps the sender's whole invariant: counters, colours, chain of carried intervals, every block on the wire. |
| `StreamReports.NewColourIsNewer` | example/iperf-bats/iperf_stream.cc:946-961 | For any block ever stamped, passing the colour test after a report means it carries a strictly later interval that starts at or after the receiver's boundary. |
| `StreamReports.ReportedIntervalIsPast` | example/iperf-bats/iperf_stream.cc:738-743 | The interval data in a block ends at or before the block's own sequence number. |
| `StreamReports.CountIsExact` | example/iperf-bats/iperf_stream.cc:874-877 | The range count of the pruned recorder, which stops short of its largest member, is the count over the whole history. |
| `StreamReports.ArrivalKeepsRecorder` | example/iperf-bats/iperf_stream.cc:513-541 | Recording before pruning keeps recorder and history in agreement. |
| `StreamReports.DataArrival` | example/iperf-bats/iperf_stream.cc:491-562 | What any data block in any reachable state may do: a report is newer and lies behind the block; a new colour without interval data is the first colour. |
| `StreamReports.Reachable` | example/iperf-bats/iperf_stream.cc:491-562 | The invariant of sender, channel and receiver holds in every reachable state. |
| `BlockBuffer.FlagsReadBack` | example/iperf-bats/iperf_stream.cc:92-111 | The four flag bits read back as written, whatever the reserved bits hold. |
| `BlockBuffer.WireLayout` | example/iperf-bats/iperf_stream.cc:92-111 | Number, flags and interval data are read from the bytes and bits at which the wire format has them. |
| `BlockBuffer.SoundValidates` | example/iperf-bats/iperf_stream.cc:450-489 | Any prefix of a sound buffer that holds the magic number, up to the whole buffer, passes validation. |
| `BlockBuffer.PieceReads` | example/iperf-bats/iperf_stream.cc:92-111 | A block from 72 bytes up reads, header, interval and identifier, as the buffer it was cut from. |
| `BlockBuffer.StoreKeepsSound` | example/iperf-bats/iperf_stream.cc:711-743 | A store between the magic number and byte 72 leaves magic number and filler alone. |
| `BlockBuffer.WriteHeaderReads` | example/iperf-bats/iperf_stream.cc:717-731 | After the header stores the receiver reads exactly the new number and flags and the old interval data. |
| `BlockBuffer.WriteIntervalReads` | example/iperf-bats/iperf_stream.cc:286-318 | After the interval stores the receiver reads exactly that interval and the old header. |
| `BlockBuffer.EveryEmittedBlockValidates` | example/iperf-bats/iperf_stream.cc:450-489 | After any run of header and interval writes, a block of any length from 8 bytes up to the buffer size passes validation. |
| `BlockBuffer.IdentifierStays` | example/iperf-bats/iperf_stream.cc:122-129 | Every block of a stream carries the identifier stored at its construction, after any run of writes. |
| `BlockBuffer.ValidateReceivedData` | example/iperf-bats/iperf_stream.cc:450-489 | A block is accepted if and only if its first 8 bytes are the magic number and, beyond 72 bytes, byte 72 and the last byte, and, beyond 1572 bytes, also the byte 1500 before the last, are 0x77. |
| `BlockBuffer.ChangedByteIsRefused` | example/iperf-bats/iperf_stream.cc:462-486 | Any block with one of the probed bytes changed is refused. |
| `BlockBuffer.WrongMagicIsRefused` | example/iperf-bats/iperf_stream.cc:452-460 | Any block with another magic number is refused, whatever its length. |
| `BlockBuffer.HeaderTime` | example/iperf-bats/iperf_stream.cc:717-731 | The time stored with a header reads back. |
| `BlockBuffer.IntervalBitrate` | example/iperf-bats/iperf_stream.cc:286-302 | The bitrate stored with an interval reads back, and the time stays. |
| `IperfStreamObject.IperfStream.constructor` | example/iperf-bats/iperf_stream.cc:113-129 | A new stream has a sound buffer that holds its identifier and otherwise reads as filler, empty reports, no colour, and 0.9 of the interval in whole milliseconds as the least distance of its snapshots. |
| `IperfStreamObject.IperfStream.SnapshotRxTxReport` | example/iperf-bats/iperf_stream.cc:67-88 | While no counter has wrapped the report becomes its snapshot; in any case the interval is the difference modulo 2^64 and the bitrate its bytes per second to the nearest hundredth; the receiving side is untouched. |
| `IperfStreamObject.IperfStream.StampBlock` | example/iperf-bats/iperf_stream.cc:716-744 | The bytes of the reused buffer then read as the stamped header with the time of the stamp, and the buffer stays sound. |
| `IperfStreamObject.IperfStream.SerializeInterval` | example/iperf-bats/iperf_stream.cc:286-302 | The buffer reads as before, time included, but for the interval and its bitrate, which are the given ones. |
| `IperfStreamObject.IperfStream.StampFinBlock` | example/iperf-bats/iperf_stream.cc:776-785 | The buffer reads as the closing header with the time of the stamp. |
| `IperfStreamObject.IperfStream.StampFinAckBlock` | example/iperf-bats/iperf_stream.cc:819-824 | The buffer reads last, ack, no interval data and the datagrams so far; colour and time are as they were. |
| `IperfStreamObject.IperfStream.EmittedBlockValidates` | example/iperf-bats/iperf_stream.cc:450-489 | In every valid state of a stream, whatever length is sent passes validation, and from 72 bytes on it reads as what was stamped. |
| `IperfStreamObject.IperfStream.HasNewGrpId` | example/iperf-bats/iperf_stream.cc:946-961 | A colour is new if none is known, or it differs and the number is more than 128 past the boundary; the colour remembered after it. |
| `IperfStreamObject.IperfStream.ResetSeqRecord` | example/iperf-bats/iperf_stream.cc:930-944 | Saving, clearing and recording again leaves exactly the numbers at or beyond the boundary. |
| `IperfStreamObject.IperfStream.OnReceivedIntervalData` | example/iperf-bats/iperf_stream.cc:858-896 | The count in the reported range, the new boundary and the pruned recorder always; the receiver's own snapshot, its time and the loss exactly when now and the last snapshot are at least the least distance apart, in either direction, and otherwise nothing of the three changes. |
| `IperfStreamObject.IperfStream.Screen` | example/iperf-bats/iperf_stream.cc:491-524 | Which of the four outcomes an arrival has, that an accepted one is counted and recorded, and that the identifier is learned from the first block. |
| `IperfStreamObject.IperfStream.TakeBlock` | example/iperf-bats/iperf_stream.cc:526-541 | Behind the checks the receiving side becomes exactly that of the modelled step, and its own snapshot is taken exactly on a report that is not too soon. |
| `IperfStreamObject.IperfStream.UpdateReceived` | example/iperf-bats/iperf_stream.cc:491-541 | From the bytes of an arrival: empty ones are ignored; corrupt ones (any protocol but 2, by magic number and probed bytes) and a first number other than 0 are rejected exactly under conditions on protocol and bytes; otherwise the receiving side becomes that of the step the theorems are about, with a report exactly when that step makes one and a snapshot exactly when the clock allows it. |
| `IperfStreamObject.ScreenedMeans` | example/iperf-bats/iperf_stream.cc:491-524 | When an arrival is ignored, corrupt or a bad start, over its bytes. |
| `IperfStreamObject.ChangedBlockIsCorrupt` | example/iperf-bats/iperf_stream.cc:505-511 | A block of a sound buffer with one probed byte changed is corrupt under every protocol but 2. |
| `FileNames.FieldReads` | example/iperf-bats/iperf_file_transfer.cc:573-588 | A zero-padded field reads back what was put in, cut to one byte less than the field. |
| `FileNames.NameRoundTrip` | example/iperf-bats/iperf_file_transfer.cc:784-791 | A NUL-free name survives split, padding, reading and rejoining if and only if the part before the last dot has at most 255 bytes, the extension at most 15, and the name does not end in a dot. |
| `FileNames.NameSurvives` | example/iperf-bats/iperf_file_transfer.cc:784-791 | The same over the two parts: 255 bytes before the last dot, 1 to 15 behind it, or 255 without a dot. |
| `FileNames.ReadFileNames` | example/iperf-bats/iperf_file_transfer.cc:573-588 | Scanning both fields byte by byte gives their contents up to the first zero byte. |
| `FileBlocks.HeaderRoundTrip` | example/iperf-bats/iperf_file_transfer.cc:64-84 | The header byte reads back with the bar number cut to four bits. |
| `FileBlocks.HeaderBits` | example/iperf-bats/iperf_file_transfer.cc:64-84 | Where the bits of the header byte lie. |
| `FileBlocks.MetaReads` | example/iperf-bats/iperf_file_transfer.cc:737-791 | The meta data of a first block holds the file code, the stream, the length of every file below 2 GiB in its 56-bit field and an empty checksum. |
| `FileBlocks.FinTargetIsSize` | example/iperf-bats/iperf_file_transfer.cc:780 | The length the byte count is compared with equals the file size if and only if the file is below 2 GiB. |
| `FileBlocks.BlockReads` | example/iperf-bats/iperf_file_transfer.cc:828-882 | The receiver reads out of any block, compressed or raw, exactly the flags, the name and the bytes of the file it was built from, and at least one content byte. |
| `FileBlocks.BlockFits` | example/iperf-bats/iperf_file_transfer.cc:828-882 | No block outgrows the ideal length it was cut for, compressed or not. |
| `FileBlocks.BlockPayload` | example/iperf-bats/iperf_file_transfer.cc:869-888 | A block is marked compressed if and only if compression is on and the compressor gave something that is not longer than the data; what follows the header is that, and otherwise the data. |
| `FileBlocks.SegmentsDecode` | example/iperf-bats/iperf_file_transfer.cc:604-671 | Whatever the cut points, the blocks decode, one after the other, to the file up to the last cut. |
| `FileBlocks.FlagsMarkTheEnds` | example/iperf-bats/iperf_file_transfer.cc:829-845 | In a completely sent file `syn` is on the first block only; `fin` is on the last block if and only if the file is below 2 GiB, and then on no other. |
| `FileBlocks.FlagsOnFile` | example/iperf-bats/iperf_file_transfer.cc:737-777 | The bits set for a file and those set in each round together give the header byte of the block, whatever the reused byte held. |
| `FileBlocks.FillBuffer` | example/iperf-bats/iperf_file_transfer.cc:828-882 | Overwriting the reused send buffer leaves it starting with exactly the block for these bytes of the file. |
| `FileBlocks.ReadRound` | example/iperf-bats/iperf_file_transfer.cc:798-882 | A round takes exactly the ideal length less 361 (first) or 360 bytes, at most 300000 under compression, and less only at the end of the file; it meets the end exactly when less was left, also when the length is a multiple of the read size; its block fits the ideal length. |
| `FileBlocks.SendFile` | example/iperf-bats/iperf_file_transfer.cc:797-911 | The send loop ends whatever happens; the blocks the transport took cut a prefix of the file into consecutive non-empty pieces, each exactly as long as its round's ideal length allows but for the last; the whole file unless a round was left or refused; `sent_bytes` runs ahead only after an abandoned block, which is the last, by that block's piece. |
| `FileBlocks.SendRound` | example/iperf-bats/iperf_file_transfer.cc:797-911 | One round of the loop appends one full piece, abandons one, or meets the end. |
| `FileTransferProofs.HandleOk` | example/iperf-bats/iperf_file_transfer.cc:590-699 | One delivery of a modelled block, whatever the file system does, fires no assertion, changes no file but its own, leaves a prefix of the content there, and counts down exactly when the last block was stored in full. |
| `FileTransferProofs.DeliveryKeepsProgress` | example/iperf-bats/iperf_file_transfer.cc:590-699 | After it, every file of the stream whose output was opened still holds a prefix, and those that never failed hold all that arrived. |
| `FileTransferProofs.FillTakesAll` | example/iperf-bats/iperf_file_transfer.cc:828-868 | The reading step of the system: nothing with no room, the end of the file with nothing left, and otherwise the block of exactly as many bytes as the ideal length allows or the file has left. |
| `FileTransferProofs.FaultIff` | example/iperf-bats/iperf_file_transfer.cc:590-699 | When an assertion of the receiver would fire, over the bytes of a message, the writer and the file system; no file counts as finished then. |
| `FileTransferTheorems.Reachable` | example/iperf-bats/iperf_file_transfer.cc:705-916 | The invariant of queue, threads, channels, writers, disk and countdown holds in every reachable state, any number of streams, any failures on either side. |
| `FileTransferTheorems.NoAssertionFires` | example/iperf-bats/iperf_file_transfer.cc:642-643 | No assertion of the receiver fires in any run, across any number of files per stream and with outputs that do not open or fail. |
| `FileTransferTheorems.StoredIsPrefix` | example/iperf-bats/iperf_file_transfer.cc:671-676 | Under any failures of sending, connection, opening and writing, what is stored of a file whose output was opened is a prefix of it, all that arrived if its writes never failed, and the whole file once complete. |
| `FileTransferTheorems.OneStreamPerFile` | example/iperf-bats/iperf_file_transfer.cc:728-733 | A file travels on one stream only, the one that took it from the queue. |
| `FileTransferTheorems.CountdownIsExact` | example/iperf-bats/iperf_file_transfer.cc:687-697 | `num_files` is the announced number minus the completely received files, and each of those stands on the disk byte for byte. |
| `FileTransferTheorems.CountdownReachesZero` | example/iperf-bats/iperf_file_transfer.cc:687-697 | `num_files` is 0 if and only if every file has been received completely and no more were announced than queued. |
| `FileTransferTheorems.EmptyFileNeverCounted` | example/iperf-bats/iperf_file_transfer.cc:842-845 | With an empty file in the list the countdown stays above zero in every run. |
| `FileTransferTheorems.CleanRunDeliversEverything` | example/iperf-bats/iperf_file_transfer.cc:720-911 | When nothing failed, all threads stopped and all channels are drained, every file stands under its own name, equal to the source byte for byte, and the countdown is 0. |
| `FileTransferTheorems.NothingFollowsAbandoned` | example/iperf-bats/iperf_file_transfer.cc:885-902 | After a block was abandoned nothing more enters that stream's channel, although `sent_bytes` went on. |
| `FileTransferTheorems.NothingSentAfterFailure` | example/iperf-bats/iperf_file_transfer.cc:720-727 | After a failed send, a lost connection or the end of the test the channel of a stream without a block in hand only drains, in every continuation. |
| `FileTransferTheorems.NoFileTakenAfterFailure` | example/iperf-bats/iperf_file_transfer.cc:720-733 | After a failed send or the end of the test a stream takes no further file, in every continuation, unless it had passed the test at the head of its loop. |
| `FileTransferTheorems.TakingAFile` | example/iperf-bats/iperf_file_transfer.cc:728-779 | An empty queue ends the thread, a file that does not open is dropped and the loop goes on, any other is read from its start. |
| `FileTransferTheorems.AbandonedBlockStillCounts` | example/iperf-bats/iperf_file_transfer.cc:885-902 | A refused block of a failed stream is abandoned while `sent_bytes` goes on by its piece. |
| `FileTransferTheorems.ReadErrorGivesUp` | example/iperf-bats/iperf_file_transfer.cc:798-806 | A read error drops the file and goes on with the next; without one the thread reads on. |
| `FileTransferProgress.StepUsesWork` | example/iperf-bats/iperf_file_transfer.cc:720-911 | In every reachable state a step of any kind, failures included, changes nothing or strictly lowers one measure over queue, threads, unread bytes and channels. |
| `FileTransferProgress.RunsEnd` | example/iperf-bats/iperf_file_transfer.cc:720-911 | Under any schedule and any failures a run makes at most as many effective steps as the measure at its start: the nested send loops end. |
| `FileTransferProgress.StuckMeansClean` | example/iperf-bats/iperf_file_transfer.cc:720-733 | Without failures, a state in which nothing more can happen has all threads stopped and all channels drained: no deadlock. |
| `FileTransferProgress.CompletedRunDeliversEverything` | example/iperf-bats/iperf_file_transfer.cc:604-698 | Any schedule without failures that has run to its end has delivered every file under its name, byte for byte, and counted down to 0, for any number of streams, ideal lengths and compress or raw choices. |
| `FileTransferProgress.EveryRunCanComplete` | example/iperf-bats/iperf_file_transfer.cc:720-911 | Every schedule without failures can be continued to such an end. |
| `FileReceiverObject.FileReceiver.BeginFile` | example/iperf-bats/iperf_file_transfer.cc:604-634 | A first block opens, and empties, the file it names; if it does not open, the disk is unchanged and the writer is broken. |
| `FileReceiverObject.FileReceiver.WriteContent` | example/iperf-bats/iperf_file_transfer.cc:671-675 | What the file takes of the content is appended; a short write breaks the writer, and a broken writer stores nothing. |
| `FileReceiverObject.FileReceiver.EndFile` | example/iperf-bats/iperf_file_transfer.cc:674-698 | A last block closes the writer and counts down, never below zero. |
| `FileReceiverObject.FileReceiver.HandleReceivedFileData` | example/iperf-bats/iperf_file_transfer.cc:590-699 | For every block, every state and every behaviour of the file system the object changes as the step the theorems are about; an unknown stream changes nothing; the result says whether an assertion would fire. |
| `FileReceiverObject.BuildQueue` | example/iperf-bats/iperf_file_transfer.cc:113-138 | The queue holds the first readable occurrence of each path in order, and the total is the sum of their sizes. |
| `FileReceiverObject.TotalsAdd` | example/iperf-bats/iperf_file_transfer.cc:127-128 | The total of two queues is the sum of their totals. |
| `FileReceiverObject.TotalOfOne` | example/iperf-bats/iperf_file_transfer.cc:127-128 | The total of one file is its size, and of none 0. |
| `FileReceiverObject.AnnouncedIsQueued` | example/iperf-bats/iperf_file_transfer.cc:121-137 | As many files are queued as announced if and only if the paths are distinct and all readable. |
| `FileReceiverObject.QueueHasNoRepeats` | example/iperf-bats/iperf_file_transfer.cc:121-137 | Queue entries have distinct paths, true sizes and the bar number of their first place in the list. |
| `FileReceiverObject.QueueMissesNothing` | example/iperf-bats/iperf_file_transfer.cc:121-137 | Every readable path is in the queue. |
| `ControlProtocol.Reachable` | example/iperf-bats/iperf_test.cc:217-402 | With a stream count other than zero, the invariant of both state machines and both channels holds in every reachable state. |
| `ControlProtocol.ReportAckIsGenuine` | example/iperf-bats/iperf_test.cc:217-276 | With any stream count but zero and in every interleaving, dead streams, stops and signals included, an acknowledgement consumed in TEST_EXCHANGE_REPORTS was sent for the summary, and the receiver has processed it and is TEST_DONE or about to store that. |
| `ControlProtocol.AckConfusionIffNoStreams` | example/iperf-bats/iperf_bats_api.cc:487-500 | The parameter acknowledgement can be taken for the report acknowledgement if and only if the test has zero streams. |
| `ControlProtocol.ConfusedRun` | example/iperf-bats/iperf_test.cc:424-434 | A run with zero streams in which it is. |
| `ControlProtocol.SenderCanBeDoneFirst` | example/iperf-bats/iperf_test.cc:375-402 | A run in which the sender is done while the receiver still stands in TEST_START: the excepted case of the next row. |
| `ControlProtocol.ReceiverDoneAtReportAck` | example/iperf-bats/iperf_test.cc:375-402 | With any stream count but zero and as long as the receiver is not stopped, it is TEST_DONE when the report acknowledgement is consumed if and only if it is past storing that state, and otherwise in TEST_START. |
| `ControlProtocol.ReportAckOutcome` | example/iperf-bats/iperf_test.cc:217-242 | With any stream count but zero, after reading the report acknowledgement and any further steps in any order without a stop, once both pending stores are made the sender is TEST_DONE if and only if the acknowledgement was not read between sending the summary and storing TEST_EXCHANGE_REPORTS, and TEST_EXCHANGE_REPORTS otherwise. |
| `ControlProtocol.LostReportAckIsFinal` | example/iperf-bats/iperf_test.cc:325-350 | Over any continuation without a stop, a lost report acknowledgement leaves the sender in TEST_EXCHANGE_REPORTS. |
| `ControlProtocol.ReportAckCanBeLost` | example/iperf-bats/iperf_test.cc:347-349 | A run with one stream in which it is read that early. |
| `ControlProtocol.StatesAdvance` | example/iperf-bats/iperf_test.h:69-94 | With any stream count but zero, a step of any run takes the sender back in the diagram if and only if the state is TEST_DONE and the step is one of three pending stores, and the receiver if and only if it stores TEST_START after it was stopped. |
| `ControlProtocol.DoneToReports` | example/iperf-bats/iperf_test.cc:533-537 | A run with dead streams that goes from TEST_DONE to TEST_EXCHANGE_REPORTS. |
| `ControlProtocol.DoneToParameters` | example/iperf-bats/iperf_test.cc:352-373 | A run with a signal before the connection is up that goes from TEST_DONE to TEST_EXCHANGE_PARAMETERS. |
| `ControlProtocol.DoneToStart` | example/iperf-bats/iperf_test.cc:217-234 | A run with a signal while the first acknowledgement is handled that goes from TEST_DONE to TEST_START. |
| `ControlProtocol.ReceiverDoneToStart` | example/iperf-bats/iperf_test.cc:375-393 | A run in which the receiver, stopped while it acknowledges, goes from TEST_DONE to TEST_START. |
| `ControlProtocol.FirstStreamSaysReady` | example/iperf-bats/iperf_test.cc:122-126 | The first accepted stream that is not UDP puts exactly one ready message on the channel, and no later one does. |
| `ControlProtocol.ReadyIsNoticed` | example/iperf-bats/iperf_test.cc:206-207 | The sender sets its flag on it. |
| `ControlProtocol.ReadyAtMostOnce` | example/iperf-bats/iperf_test.cc:122-126 | In every run, over all messages sent and read, ready is said at most once and only after a stream was accepted. |
| `ControlProtocol.NoMoreStreamsThanConfigured` | example/iperf-bats/iperf_test.cc:217-234 | With any stream count but zero, no run makes or accepts more streams than were configured. |
| `ControlProtocol.OneMessageAtATime` | example/iperf-bats/iperf_test.cc:217-242 | The network callback takes the next message only when it has stored what the last one asked for and made its streams. |
| `ControlProtocol.EveryStopEndsTheTest` | example/iperf-bats/iperf_test.cc:73-87 | The first call of Stop, by a closed channel, the end of waiting or a signal, leads to TEST_DONE without streams from every state. |
| `ControlProtocol.WaitingCanEnd` | example/iperf-bats/iperf_bats_api.cc:487-500 | A signal, and only that, takes the main thread out of its two loops, and a time-out out of the first. |
| `IperfTestObject.IperfTest.constructor` | example/iperf-bats/iperf_test.h:137-141 | A new test is in TEST_NONE with no streams, no ticks and an empty outbox. |
| `IperfTestObject.IperfTest.HandleAckMessage` | example/iperf-bats/iperf_test.cc:217-242 | State and number of new streams are those of the two protocol steps that decide and store; the new streams are fresh and the old ones stay. |
| `IperfTestObject.IperfTest.SendAck` | example/iperf-bats/iperf_test.cc:375-402 | One acknowledgement goes out and the state advances as in the protocol model. |
| `IperfTestObject.IperfTest.SendTestSummary` | example/iperf-bats/iperf_test.cc:325-350 | For every protocol state this object can stand for, what goes out and what is stored is what the steps `SendSummary` and `StoreReports` make of it, also without a control channel. |
| `IperfTestObject.IperfTest.IsStreamReady` | example/iperf-bats/iperf_test.cc:424-434 | The answer is the ready check of the protocol model; the ready flag is overwritten exactly when all streams are connected. |
| `IperfTestObject.IperfTest.SnapshotRound` | example/iperf-bats/iperf_test.cc:520-533 | Every stream that lives and whose interval has elapsed takes exactly one snapshot, no other changes, and all count as dead exactly when they are. |
| `IperfTestObject.IperfTest.TestFinishState` | example/iperf-bats/iperf_test.cc:500-541 | State and answer are those of the protocol's poll step; when a poll ends the test, when it runs a snapshot round, and what it does to ticks and snapshot counts. |
| `IperfTestObject.IperfTest.PollOnce` | example/iperf-bats/iperf_test.cc:500-541 | A poll after other threads moved: ticks, rounds, the end and every stream's snapshots. |
| `IperfTestObject.IperfTest.PollUntilDone` | example/iperf-bats/iperf_bats_api.cc:543-553 | The loop itself, over any period m of at least 1. |
| `IperfTestObject.IperfTest.EnterSenderIntervalLoop` | example/iperf-bats/iperf_bats_api.cc:543-553 | Whatever other threads do, polling ends within floor(T) + 2 calls, runs exactly floor((floor(T) + 1) / m) snapshot rounds unless cut short or interrupted by a signal and never more, m being the interval in ticks to the nearest whole; every living stream whose interval elapses takes exactly that many snapshots and none takes more. |
| `ProgressBars.ShiftedIsQuotient` | example/iperf-bats/progressbar.h:118-119 | Shifting right by p is division by 2^p, rounded down. |
| `ProgressBars.PeriodPower` | example/iperf-bats/progressbar.h:168-178 | The loop finds the least p with 2^p >= raw period, and p is at most 19. |
| `ProgressBars.AcceptedMeansProgress` | example/iperf-bats/progressbar.h:118-123 | While the guard's memory is not behind the progress shown, an accepted update other than the end is strictly larger. |
| `ProgressBars.GuardMeans` | example/iperf-bats/progressbar.h:118-123 | The guard lets a value pass if and only if it reaches the next multiple of 2^p. |
| `ProgressBars.RawPeriod` | example/iperf-bats/progressbar.h:169 | Between its clamps 1 and 500000 the period is the progress per 25 elapsed units, rounded down. |
| `ProgressBars.SampleRate` | example/iperf-bats/progressbar.h:157 | The rate of a sample is its progress per second for microseconds elapsed. |
| `ProgressBars.WindowTelescopes` | example/iperf-bats/progressbar.h:131-151 | The progress summed over any window is its last value minus the value at its start. |
| `ProgressBars.SlideWindow` | example/iperf-bats/progressbar.h:137-144 | Overwriting the oldest entry of a full ring and moving the head on makes it hold the latest window in order. |
| `ProgressBars.GrowBuffer` | example/iperf-bats/progressbar.h:168-170 | A ring that has not wrapped may get more capacity without losing its order. |
| `ProgressBars.ReplacedOk` | example/iperf-bats/progressbar.h:137-144 | Replacing the oldest sample of a full ring keeps it the window of the longer history, sums included. |
| `ProgressBars.AppendedOk` | example/iperf-bats/progressbar.h:145-151 | So does adding a sample to a ring with room. |
| `ProgressBars.GrownOk` | example/iperf-bats/progressbar.h:168-170 | A ring that has not filled stays the window of its history when its capacity grows. |
| `ProgressBars.SampleRing.constructor` | example/iperf-bats/progressbar.h:42-54 | A new ring holds the empty history with a capacity of 50. |
| `ProgressBars.SampleRing.Push` | example/iperf-bats/progressbar.h:134-151 | The ring then holds the history with one more sample, cached sums included, in both the full and the filling case. |
| `ProgressBars.SampleRing.Grow` | example/iperf-bats/progressbar.h:168-170 | The capacity becomes 75 and the ring still holds the same window. |
| `ProgressBars.SampleRing.AverageRate` | example/iperf-bats/progressbar.h:153-162 | The loop computes the exponential average of the rates of the window from newest to oldest. |
| `ProgressBars.ProgressBar.constructor` | example/iperf-bats/progressbar.h:36-57 | A new bar has an empty history and a guard in step with it. |
| `ProgressBars.ProgressBar.Reset` | example/iperf-bats/progressbar.h:276-288 | History and window are empty; the guard is never behind, and in step with the progress if and only if `last_div_res` was 0. |
| `ProgressBars.ProgressBar.TakeSample` | example/iperf-bats/progressbar.h:126-151 | The update becomes the newest sample and the bar stays valid through the change of capacity. |
| `ProgressBars.ProgressBar.AcceptUpdate` | example/iperf-bats/progressbar.h:125-179 | The bar stays valid, the guard's memory is the shown progress shifted by the period power, and the power is the least one for the new period after ten updates. |
| `ProgressBars.ProgressBar.FormatLine` | example/iperf-bats/progressbar.h:116-179 | An update is drawn if and only if it is the end value or reaches the next multiple of 2^p behind the last one drawn; a refused one changes nothing, an accepted one is recorded and leaves the guard in step. |
| `ProgressBars.ProgressBar.WindowIsLastUpdates` | example/iperf-bats/progressbar.h:131-151 | In every valid state the window is the last 75 updates (all of them while fewer), the cached sums are the sums over it, and the progress sum is `n_old` minus the value at its start. |
| `ProgressBars.Drive` | example/iperf-bats/progressbar.h:116-179 | Over any run of updates, each with its own end value, and resets: the values between two resets strictly increase except where one is its end value, every accepted update is one history entry, the guard is always in step on a bar never reset and otherwise from the first accepted update on, and the window is the last 75 updates since the reset. |
| `ControlMessages.HundredthsRound` | example/iperf-bats/iperf_common.h:109-112 | Fixed point loses less than 0.01 and nothing the second time. |
| `ControlMessages.ConfigArrives` | example/iperf-bats/iperf_common.h:108-141 | The receiver reads interval and time rounded down to 0.01, protocol modulo 256, port modulo 65536 and the reverse flag. |
| `ControlMessages.ConfigReads` | example/iperf-bats/iperf_common.h:127-141 | Which bytes each field of a configuration is read from, whatever they hold. |
| `ControlMessages.ConfigRoundTrip` | example/iperf-bats/iperf_common.h:108-141 | A configuration arrives unchanged if and only if times are whole hundredths, the protocol is below 256 and the port below 65536. |
| `ControlMessages.ConfigReencodes` | example/iperf-bats/iperf_common.h:108-141 | Encoding what was decoded gives the same bytes. |
| `ControlMessages.Serialize` | example/iperf-bats/iperf_common.h:108-125 | The stores through the moving pointer put exactly the encoded configuration in place, change no other byte and end behind it. |
| `ControlMessages.RequestTotals` | example/iperf-bats/iperf_file_transfer.cc:496-524 | File count and 64-bit total, sent as two halves, arrive exactly. |
| `ControlMessages.RequestRoundTrip` | example/iperf-bats/iperf_file_transfer.cc:487-524 | The whole request carries magic number, test, action 1 and stream count, decodes to its file count, total and rounded configuration, and encoding that again gives the same message. |
| `ControlMessages.RequestRest` | example/iperf-bats/iperf_file_transfer.cc:487-524 | The fourth parameter and all bytes behind the configuration are zero. |
| `ControlMessages.SerializeReport` | example/iperf-bats/iperf_stream.cc:246-266 | The four stores put exactly one report in place and change no other byte. |
| `ControlMessages.BuildSummary` | example/iperf-bats/iperf_test.cc:330-345 | For up to 33 streams the 1100-byte message begins with magic number, test, action 3 and stream count and carries, behind the header, exactly the reports in order. |
| `ControlMessages.BuildParameters` | example/iperf-bats/iperf_test.cc:352-373 | The parameter message begins with magic number, test, action 2 and stream count, and the configuration follows. |
| `ControlHeader.NewMessage` | example/iperf-bats/iperf_test.cc:330-338 | A new message is headed by magic number, test, action and stream count, and otherwise zero. |
| `ControlHeader.HandleControlMessage` | example/iperf-bats/iperf_test.cc:174-204 | Which handler a message goes to, by its action byte, and when the assertion on the test holds. |
| `ControlHeader.HandleFileMessage` | example/iperf-bats/iperf_file_transfer.cc:193-215 | The same for a file transfer: request, accepted, denied, and when its two assertions hold. |
| `ControlHeader.Delivered` | example/iperf-bats/iperf_test.cc:174-204 | Every message of the protocol, built with its action and any size, test and stream count, reaches the handler it is meant for with its own test. |
| `ControlHeader.BuildResponse` | example/iperf-bats/iperf_file_transfer.cc:429-457 | The answer to a request carries action 4 and says whether it was denied. |
| `ControlHeader.AcksAreAlike` | example/iperf-bats/iperf_test.cc:375-393 | The two acknowledgements have the same bytes, and no other message has their action: only the state they are read in tells them apart. |
| `ControlMessages.SummaryFits` | example/iperf-bats/iperf_test.cc:330-345 | The reports fit the 1100-byte message if and only if there are at most 33. |
| `ControlMessages.HandleSummary` | example/iperf-bats/iperf_test.cc:244-268 | The two nested loops compute the parse the round trip is about. |
| `ControlMessages.EntryMoves` | example/iperf-bats/iperf_test.cc:250-258 | From the right position, reading an entry moves on by its identifier and one report for each stream that holds it. |
| `ControlMessages.AlignedIffHeldOnce` | example/iperf-bats/iperf_test.cc:248-268 | Reading keeps to the boundaries of the first n reports if and only if each of their identifiers is held by exactly one receiver stream. |
| `ControlMessages.EntriesReachOwners` | example/iperf-bats/iperf_test.cc:248-268 | Reports already delivered stay, and each further one reaches the stream that holds its identifier. |
| `ControlMessages.SummaryRoundTrip` | example/iperf-bats/iperf_test.cc:248-268 | When reading keeps to the boundaries and identifiers differ, every stream gets its own sender's bytes and datagrams exactly and its bitrate to within 0.01. |
| `ControlMessages.UnknownIdentifierLosesTheRest` | example/iperf-bats/iperf_test.cc:250-258 | A witness for the other case: behind an identifier no stream holds, a known stream gets no report. |
| `ControlMessages.IdentifiersDiffer` | example/iperf-bats/iperf_stream.cc:119-120 | The identifiers of one sender, a monotone clock plus a rising counter, are pairwise distinct. |
| `ControlMessages.SenderSummaryArrives` | example/iperf-bats/iperf_test.cc:248-268 | For identifiers made that way and held once each, every report of the message is found with its sender's numbers on the stream that holds its identifier. |

## Left out

- The BATS transport, its callbacks and timers: channels are lossy, repeating and reordering for unreliable protocols, ordered and loss-free for reliable ones.
- The inside of the sequence recorder and of the half-ring comparison: the recorder is a set with the range count its tests pin down (example/iperf-bats/seq_recorder_test.cc:33-47), of unlimited capacity, and sequence numbers compare as integers.
- Runs in which a 64-bit counter wraps: `AddBytes`, `AddDatagram` and `SnapshotRxTxReport` wrap, the theorems over runs count without bound.
- Memory-model races: every access to a shared field is one atomic step. In the control protocol the test of the channel and the send of a summary are one step, and a poll is one step because other threads can only store what it stores.
- Rounding of `float` and `double`: intervals, times and rates are real numbers, and a division by an elapsed time of zero gives the clamped period of `RawPeriod`.
- SnapshotRxTxReport: leaves out the jitter, and the bitrate of an interval of zero length, where the source divides by zero.
- Jitter, printing, logging, colours and the remaining-time display.
- UpdateReceived: requires 72 readable bytes, as the source reads header and interval data without asking, and leaves out jitter and the sending of the FIN-ACK, whose header is `StampFinAckBlock`.
- ValidateReceivedData: requires the 8 bytes of the magic number, which the source reads without asking.
- SendFile: ideal lengths lie above 361 and within the 300000-byte buffer; what the source does with a non-positive read length, or with one that overruns its buffer, is not modelled there. In the step system a non-positive read length makes no progress.
- HandleReceivedFileData: the checksum side file is left out and `has_sum` is 0.
- BuildSummary: requires at most 33 streams, because the source writes past its message with more (`SummaryFits`).
- AverageRate: a sample without elapsed time has whatever rate the caller gives it, where the source divides by zero.
- Transfers of more than ten paths: the client refuses them (example/iperf-bats/iperf_bats_api.cc:402-405), and the theorems ask that the four-bit bar number is below ten.
- The compressor: a pair of functions of which only the round trip is known.
- A second ready message that starts the sending thread again, and the start of sending on UDP without waiting.
- The receiver's own TEST_DONE in a file transfer as a completion signal: one accepted stream can set it early, so completion is stated on the countdown.
- Refusing a request for lack of disk space, argument parsing, address lookup, certificates and the simple client and server examples: input and output around the core.
