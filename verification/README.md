# Verified model of Voyager's protocols

A Dafny model of the parts of the Voyager firmware and its PC helper that move data, with
proofs of what they keep. `dafny verify dfyconfig.toml` checks everything. Each imperative
part of the system is a class or a method that is proved equal, step by step, to a
specification function; the theorems are about those functions.

**Kermit file transfer** (`Kermit*.dfy`; the standard is the Kermit Protocol Manual, 6th
edition, sections 6 and 8.1). The stream parser, the prefix codec, the negotiation and both
endpoints, and the whole transfer: two endpoints with their parsers and two FIFO channels of
packet bytes that may lose packets and deliver bytes the block checks expose. The main results
are `KermitTransfer.TransferIsSafe` (safety over every run) and `KermitProgress.NeverStuck`
(no reachable dead end). Negotiation takes an 8th-bit prefix `#`, or `~` beside the repeat
prefix `~`, and data is then lost. It also takes another control prefix than `#`, which an end
then decodes by while it encodes with `#`: that is what a peer with its own prefix needs, but
such an end does not read back what it encodes. `KermitInit.PeerKeepsCodecLossless` is the exact
condition on a peer's reply, `KermitInit.RepliesThatLose` gives three replies that fail it.
`KermitFrames` says of every stream which frames are emitted and which of them are read.
`KermitReplies` and `KermitAttrs` say what any reply and any attributes mean.
`KermitForeign` and `KermitLinger` have the laws of each endpoint against any peer, and
`KermitAbort` those of its giving up: each side ends the other, except that a receiver which
alone has negotiated sends its error packet under a check its sender cannot read
(`KermitAbort.GivingUpReachesSenderIff`).

**LoRa link** (`Lora*.dfy`). CRC-8 framing, the retry machine, duplicate suppression, the
receiving side, and the system they form: a sender and its receiver among other boards.
Results worth knowing:

- The CRC covers sequence number and payload but not the type byte
  (`LoraFrame.OneByteChanged`).
- The duplicate window is documented as 16 accepted packets. The code counts from the packet
  itself, so a retry is recognised through fourteen other accepts and queued again after
  fifteen (`LoraOnce.RepeatQueuedIff`, `LoraOnce.FifteenOthersDuplicate`).
- The slot to give up is chosen round robin, not by last use
  (`LoraDedup.FifthSourceEvictsFreshest`).
- In every run whatever, a board's messages and network packets are queued in order and with
  their own bytes, with one result each and at most four transmissions
  (`LoraLinkSafety.LinkIsFaithful`). With four sources and retries inside the window none is
  queued twice (`LoraLinkSafety.LinkQueuesOnce`).
- Acknowledgements carry no address, and every board that hears a chat message acknowledges it.
  So a reported success may be a third board's: `LoraLinkSafety.SuccessIsTrueIff` says exactly
  when it is true of the receiver, `LoraLinkLimits.OverheardAckFools` is a run where it is not.
- Two boards by themselves can trust it if and only if fewer than 256 sequence numbers lie
  between packets and before acknowledgements (`LoraLinkLimits.TwoBoardsAreSafeIff`).
- The announced worst-case time of a message bounds every run (`LoraTiming.CourseWithinBound`),
  and the worst run is three milliseconds below it (`LoraTiming.BoundIsTight`).

**IP over LoRa** (`IpPacket`, `IpRoutes`, `ClampMss`, `ClampBuilt`, `Slip`, `NetPath`,
`NetRun`). IPv4 filtering and routing over packets built from fields, the MSS clamp (RFC 1624
section 3, RFC 1071), both SLIP codecs (RFC 1055), one packet's whole way
(`NetPath.DirectPacketArrives`, byte by byte in `NetRun.PacketTravels`), and any number of PCs and boards on a
channel that may lose, repeat and reorder, with log text and console commands on the cables
between frames (`NetRun.OnlyWhatWasSent`). An MSS option at an odd
offset, after a single NOP, can break the TCP checksum; `ClampMss.ClampKeepsChecksumIff` gives
the exact condition.

**Improv Serial** (`Improv`). The board's byte parser and the PC's scanner accept the same
packets (`Improv.ScannerAgreesWithParser`).

**Pacer** (`Pacer`, `PacerClasses`), **updates over the air** (`Ota`, `OtaHistory`) and **WiFi
scanning** (`WifiScan`, `WifiSelect`): laws over every run of three smaller machines. An upload
succeeds exactly if every step of it did (`OtaHistory.DoneIff`). To interactive packets
bulk traffic does not exist (`Pacer.BulkIsInvisible`). A firmware update that succeeds while a
half-written filesystem waits for its own reboots without restoring anything: of all successful
updates this is the kind that can lose a setting the snapshot held (`Ota.SettingsSurviveIff`).

`Bytes` holds the shared arithmetic. Counters the firmware wraps (sequence numbers, the
accept counter) wrap in the model; the unwrapped counters in some states only label packets,
so that properties can be stated. Lemmas carry `{:induction false}`: every induction is
written out.

## Model

| member | source | states |
|---|---|---|
| KermitChecks.ComputeCheck1 | data_main/kermit.js:44-48 | the loop computes the six-bit checksum of the whole range |
| KermitChecks.SumOfParts | data_main/kermit.js:44-48 | the sum of two parts is the sum of their sums, and of one byte that byte |
| KermitChecks.Check1Folds | data_main/kermit.js:44-48 | the check is the low six bits of the sum plus bits 6 and 7; higher bits play no part |
| KermitChecks.ComputeCrc16 | data_main/kermit.js:51-58 | the bitwise loop computes CRC-16/KERMIT, and the result fits 16 bits |
| KermitChecks.ComputeCheck3 | data_main/kermit.js:60-63 | the loop's CRC comes out as the three check characters of the specification |
| KermitChecks.ComputeBlockCheck | data_main/kermit.js:65-67 | the check of the type asked for, over any range |
| KermitChecks.Check3Carries | data_main/kermit.js:60-63 | the three characters carry the CRC: four bits, six bits, six bits |
| KermitChecks.CrcDetectsTwoAdjacentBytes | data_main/kermit.js:51-63 | any change confined to one byte or two adjacent bytes changes the CRC and its three check characters, for any length |
| KermitPacket.BuildHeader | data_main/kermit.js:74-84 | basic or long header with its own check, by the size of the body |
| KermitPacket.BuildPacket | data_main/kermit.js:74-90 | the built packet is mark, header, data, block check and end of line |
| KermitPacket.ClassicNak | data_main/kermit.js:74-90 | the packet every Kermit sends first, byte by byte: mark, `#`, blank, `N`, `3`, end of line |
| KermitPacket.ReadData | data_main/kermit.js:147-154 | a frame gives up its data exactly when it is long enough and its own block check agrees |
| KermitPacket.Parser.Clear | data_main/kermit.js:163 | forgets what is buffered |
| KermitPacket.Parser.Drop | data_main/kermit.js:101 | removes exactly the first n buffered bytes |
| KermitPacket.Parser.BadRange | data_main/kermit.js:132-141 | a control character in the range drops everything before it; otherwise nothing changes |
| KermitPacket.Parser.Take | data_main/kermit.js:124-128 | a complete frame is emitted and removed; a cut one is dropped up to the control character |
| KermitPacket.Parser.RoundLong | data_main/kermit.js:111-116 | one turn of the loop on a long header |
| KermitPacket.Parser.RoundFromMark | data_main/kermit.js:108-129 | one turn of the loop once the mark is in front |
| KermitPacket.Parser.Round | data_main/kermit.js:104-129 | one turn of the loop, junk before the mark included |
| KermitPacket.Parser.Feed | data_main/kermit.js:158-162 | feeding bytes emits the frames of, and keeps the rest of, the buffered and new bytes; it terminates |
| KermitPacket.ParseAppend | data_main/kermit.js:98-165 | parsing a stream in two goes gives the same frames and the same rest as in one |
| KermitPacket.ChunkingDoesNotMatter | data_main/kermit.js:98-165 | two ways of cutting one byte stream into feeds emit the same frames and leave the same buffer |
| KermitPacket.StableBufferIsDropped | data_main/kermit.js:94-97 | from every state between feeds, the start of a frame discards what was buffered |
| KermitPacket.FreshFrame | data_main/kermit.js:74-130 | a built frame of printable data, basic or long, is taken whole from an empty buffer |
| KermitPacket.Resynchronises | data_main/kermit.js:74-156 | from every state between feeds, a built frame is emitted, alone, and leaves the buffer empty |
| KermitPacket.BuiltCarries | data_main/kermit.js:143-156 | the emitted frame has the sequence number, type and data that were built, under its own check type |
| KermitFrames.OnlyFramesEmitted | data_main/kermit.js:98-141 | of every stream, damaged or not, only frames by the book are emitted: mark, clean characters, the stated length, a checked long header |
| KermitFrames.ReadUnderCheck1 | data_main/kermit.js:143-156 | which data a frame gives up under check type 1, by its own last character |
| KermitFrames.ReadUnderCheck3 | data_main/kermit.js:143-156 | which data under the CRC, by the number its last three characters carry |
| KermitFrames.DamageIsSeen | data_main/kermit.js:60-90 | a built packet with one character or two neighbours changed before its CRC gives up nothing |
| KermitCodec.ComputePiece | data_main/kermit.js:188-195 | one encoded unit with its run length and 8th-bit prefixes |
| KermitCodec.ComputeChunk | data_main/kermit.js:185-201 | the loop packs as many whole pieces as fit and says where it stopped |
| KermitCodec.ComputeUnit | data_main/kermit.js:206-223 | one decoded unit, prefixes at the end of the data included |
| KermitCodec.PushCopies | data_main/kermit.js:224 | a repeated byte is pushed as often as its count says |
| KermitCodec.ComputeDecode | data_main/kermit.js:203-227 | the loop decodes the whole data |
| KermitCodec.CutData | data_main/kermit.js:203-227 | data cut short: a last prefix stands for itself, and a count without its byte repeats zeros |
| KermitCodec.ChunkRoundTrip | data_main/kermit.js:170-227 | decoding a chunk gives back exactly the source bytes it covers, for distinct prefixes |
| KermitCodec.CodecLosslessIffDistinct | data_main/kermit.js:170-227 | for all prefixes that negotiation can settle, what one end encodes it decodes to the same bytes, for every source and size, if and only if the control prefix is `#` and the three prefixes differ |
| KermitCodec.QbinIsQctlLoses | data_main/kermit.js:262-276 | an 8th-bit prefix equal to the control prefix loses data: a concrete source, for all such prefixes |
| KermitCodec.QbinIsReptLoses | data_main/kermit.js:262-279 | an 8th-bit prefix equal to the repeat prefix loses data: a concrete source, for all such prefixes |
| KermitCodec.OtherQctlLoses | data_main/kermit.js:170-227 | encoding writes `#` but decoding reads the peer's control prefix: with any other one an end does not read back its own `#` |
| KermitCodec.ChunkPrintable | data_main/kermit.js:170-201 | a chunk holds no byte below 32 and no 127 |
| KermitCodec.AdvancesIffPieceFits | data_main/kermit.js:183-201 | every chunk of every file advances if and only if the room holds the longest piece (five bytes with both prefixes) |
| KermitCodec.FileRoundTrip | data_main/kermit.js:428-439 | cutting a file into chunks until its end and decoding them in order gives the file |
| KermitInit.ComputeNegotiate | data_main/kermit.js:262-295 | the combined parameters of any reply, missing fields and out-of-range prefixes included |
| KermitInit.NegotiableMeansReached | data_main/kermit.js:262-295 | prefixes are negotiable if and only if some reply of a peer leads to them |
| KermitInit.PeerKeepsCodecLossless | data_main/kermit.js:170-295 | the exact condition on the fields 5, 6 and 8 of any reply under which an end reads back what it encodes |
| KermitInit.RepliesThatLose | data_main/kermit.js:262-295 | three concrete replies after which an end does not read back what it encodes |
| KermitInit.ComputeLastCapas | data_main/kermit.js:281-284 | where the chain of capability bytes ends |
| KermitInit.NegotiateOurs | data_main/kermit.js:242-305 | what both our ends negotiate: long packets of 222 data bytes, CRC, distinct prefixes |
| KermitInit.PeerAllowsProgress | data_main/kermit.js:262-305 | a peer lets every file make progress if and only if it takes long packets or its limit leaves room for one piece |
| KermitInit.PacketFitsLoRa | data_main/kermit.js:297-305 | a packet within the data room fits one LoRa frame |
| KermitReplies.NegotiateReads | data_main/kermit.js:262-295 | every reply, whole or cut at any byte: each field that came is taken as announced, each missing or senseless one gets its default, extended lengths behind any number of capability bytes included |
| KermitReplies.WeAnnounce | data_main/kermit.js:242-259 | what our own end announces, field by field; the timeout in seconds rounded up |
| KermitReplies.RoomFills | data_main/kermit.js:297-305 | a full packet states exactly the length that was agreed |
| KermitReplies.RoomIsMost | data_main/kermit.js:297-305 | how much data a packet takes: at least ten bytes in a long one, else what the agreed length leaves beside the check |
| KermitReplies.DecimalDigits | data_main/kermit.js:417-420 | sizes are announced in decimal: known answers |
| KermitInit.ComputeParseAttrs | data_main/kermit.js:578-590 | the exact size read from the attributes |
| KermitInit.AttrRoundTrip | data_main/kermit.js:417-420 | the size attribute we send is read back as the same size |
| KermitAttrs.SizeAnnounced | data_main/kermit.js:578-590 | of any attributes, in any order and cut at any byte, the last length in bytes counts: the number it starts with, or no size |
| KermitAttrs.NumberRead | data_main/kermit.js:578-590 | a number as any program may write it, with blanks, sign and zeros, up to what does not belong to it |
| KermitAttrs.NoNumber | data_main/kermit.js:578-590 | anything else is no number |
| KermitEarlyNak.EarlyNakIsUnreadable | data_main/kermit.js:383-386 | the prompt of a receiver that has negotiated is not an acknowledgement for a sender still in S |
| KermitSender.KermitSender.DoFail | data_main/kermit.js:361-366 | completes with failure once, telling the peer if asked |
| KermitSender.KermitSender.DoSend | data_main/kermit.js:372-380 | writes the packet again, or fails after the tenth try |
| KermitSender.KermitSender.DoExchange | data_main/kermit.js:369-371 | builds the next packet and sends it first |
| KermitSender.KermitSender.DoSendData | data_main/kermit.js:428-430 | the next data packet, or the end of the file |
| KermitSender.KermitSender.DoAcked | data_main/kermit.js:399-448 | what follows the acknowledgement of each packet |
| KermitSender.KermitSender.Receive | data_main/kermit.js:381-398 | the reaction to any frame: acknowledgement, NAK of this or the next packet, error, or damaged |
| KermitSender.KermitSender.TimedOut | data_main/kermit.js:333-336 | resends while waiting, and nothing otherwise |
| KermitSender.KermitSender.DoCancel | data_main/kermit.js:455-457 | fails and tells the peer, unless already over |
| KermitSender.KermitSender.DoStart | data_main/kermit.js:451-454 | the first packet carries our parameters |
| KermitReceiver.Assemble | data_main/kermit.js:597-602 | the output array is the concatenation of the chunks |
| KermitReceiver.KermitReceiver.SendAck | data_main/kermit.js:488-491 | writes an acknowledgement and remembers it for repeats |
| KermitReceiver.KermitReceiver.DoFail | data_main/kermit.js:481-486 | completes with failure once, telling the peer if asked |
| KermitReceiver.KermitReceiver.SendNak | data_main/kermit.js:513 | asks for the expected packet |
| KermitReceiver.KermitReceiver.DoFinish | data_main/kermit.js:592-609 | completes with the file, or says why not; then only repeats are answered |
| KermitReceiver.KermitReceiver.OnInit | data_main/kermit.js:531-537 | negotiates and answers with our parameters under check type 1 |
| KermitReceiver.KermitReceiver.OnName | data_main/kermit.js:538-543 | decodes the name and echoes it |
| KermitReceiver.KermitReceiver.OnAttr | data_main/kermit.js:544-548 | reads the exact size and accepts |
| KermitReceiver.KermitReceiver.OnData | data_main/kermit.js:549-556 | stores the decoded bytes and acknowledges |
| KermitReceiver.KermitReceiver.OnEof | data_main/kermit.js:557-564 | remembers the end of the file; a discarded file fails |
| KermitReceiver.KermitReceiver.OnBreak | data_main/kermit.js:565-568 | acknowledges the end of the session and completes |
| KermitReceiver.KermitReceiver.DoAccept | data_main/kermit.js:529-575 | the reaction to the expected packet, by type |
| KermitReceiver.KermitReceiver.Receive | data_main/kermit.js:508-528 | repeats the last acknowledgement for the previous packet, NAKs anything else unexpected or damaged |
| KermitReceiver.KermitReceiver.TimedOut | data_main/kermit.js:493-506 | repeats the last acknowledgement, or NAKs before the first one, at most ten times |
| KermitReceiver.KermitReceiver.DoCancel | data_main/kermit.js:638-640 | fails and tells the peer, unless already over |
| KermitReceiver.KermitReceiver.DoStart | data_main/kermit.js:632-637 | prompts the sender with a NAK |
| KermitSafety.KeepsOnAck | data_main/kermit.js:399-448 | an acknowledged exchange keeps the invariant of the whole transfer |
| KermitSafety.KeepsOnAccept | data_main/kermit.js:529-575 | a packet the receiver accepts keeps the invariant |
| KermitSafety.RepeatIsReAcked | data_main/kermit.js:520-524 | a repeated packet is answered with the acknowledgement it already had, and stored once |
| KermitTransfer.StepKeeps | data_main/kermit.js:351-645 | every step of either endpoint or channel keeps the invariant |
| KermitTransfer.TransferIsSafe | data_main/kermit.js:351-645 | over every run: the receiver holds a prefix of the file, a saved file is the file, a reported success means the file was saved, each side completes at most once, no packet is written more than ten times, the receiver is at most one packet ahead |
| KermitProgress.NeverStuck | data_main/kermit.js:351-645 | from every reachable state in which neither side gave up and a try is left, before either start too, there is a continuation in which both sides succeed with the file |
| KermitProgress.StartedIsAlive | data_main/kermit.js:450-454 | a transfer is such a state before it starts, and both ends are at it once started in either order |
| KermitProgress.PacketsFitLoRa | data_main/kermit.js:32-33 | every packet of a transfer between our ends fits one LoRa frame |
| KermitAbort.ErrorEndsSenderIff | data_main/kermit.js:381-390 | an error packet with any text and number, in any state of the transfer, ends a waiting sender exactly if its check is understood: failure reported once, nothing written; otherwise nothing happens |
| KermitAbort.ErrorEndsReceiverIff | data_main/kermit.js:508-519 | the same for an active receiver; one it does not understand has the awaited packet asked for |
| KermitAbort.ClosedSenderStays | data_main/kermit.js:361-366 | once failed or done a sender reports nothing more and writes nothing, whatever comes |
| KermitAbort.ClosedReceiverStays | data_main/kermit.js:481-486 | the same for a receiver |
| KermitAbort.SenderTimeouts | data_main/kermit.js:369-380 | each of the first ten tries writes the current packet once more and nothing else |
| KermitAbort.SenderGivesUp | data_main/kermit.js:361-380 | a cancel or the try after the tenth reports failure and writes exactly one error packet, in the words of its cause, under the current number and check |
| KermitAbort.ReceiverTimeouts | data_main/kermit.js:493-506 | each of the first ten silences repeats the last answer, or asks for the first packet |
| KermitAbort.ReceiverGivesUp | data_main/kermit.js:481-498 | a cancel or the silence after the tenth reports failure and writes exactly one error packet |
| KermitAbort.GivingUpReachesReceiver | data_main/kermit.js:361-390 | over every run: whatever happens after a sender gave up, when its error packet arrives an active receiver fails |
| KermitAbort.GivingUpReachesSenderIff | data_main/kermit.js:481-519 | over every run: when a receiver's error packet arrives a waiting sender fails, if and only if not the receiver alone has negotiated, or the check happens to agree |
| KermitForeign.WrongNumber | data_main/kermit.js:520-528 | any packet under another number than the awaited one: the last answer again if it is the one before, else the awaited packet is asked for |
| KermitForeign.Unreadable | data_main/kermit.js:508-515 | a packet that fails its check has the awaited one asked for |
| KermitForeign.UnknownType | data_main/kermit.js:569-572 | a packet of no known type fails the transfer, and the peer is told |
| KermitForeign.BeforeParameters | data_main/kermit.js:538-556 | a name or data before any parameters is ignored |
| KermitForeign.FileDiscarded | data_main/kermit.js:557-563 | an end of file that discards it is acknowledged and fails the transfer |
| KermitLinger.LastAnswerRepeated | data_main/kermit.js:611-621 | after its transfer a receiver answers the packet before, an end of file and an end of session with its last acknowledgement, whatever the check, and nothing else |
| KermitLinger.OverStays | data_main/kermit.js:611-628 | over every run: once over, it reports nothing more and writes only its last acknowledgement |
| KermitLinger.LetsGo | data_main/kermit.js:622-627 | at the end of its time it reads nothing more |
| KermitForeign.ReceiverServes | data_main/kermit.js:508-609 | with any peer and any session of names, attributes, data and ends of file: every answer, and at the end exactly the data packets' contents under the last name, or a failure if no end came or the size is not the announced one |
| KermitForeign.AnswerIgnored | data_main/kermit.js:381-398 | an answer to another packet, or of another type, is ignored |
| KermitForeign.NakResends | data_main/kermit.js:391-396 | a request for the current packet writes it again, up to ten times |
| KermitForeign.NakOfNextAcknowledges | data_main/kermit.js:391-395 | a request for the next packet is the same as an acknowledgement of the current one |
| KermitForeign.FileRefused | data_main/kermit.js:420-423 | a refused file fails the transfer, and the peer is told |
| KermitForeign.DataCancelled | data_main/kermit.js:431-435 | a peer that breaks off in the data fails the transfer, silently |
| KermitForeign.SenderServes | data_main/kermit.js:408-448 | with any peer that agrees, whatever it negotiates: parameters, name, attributes if wanted, the file in as many packets as it takes, its end and the end, each once under its number and check; then success |
| KermitForeign.SenderSendsFile | data_main/kermit.js:428-439 | a sender's data packets, decoded with the same distinct prefixes, are the file |
| LoraFrame.ComputeCrc8 | src/lora/lora_proto.h:30-38 | the bitwise loop computes CRC-8 with polynomial 0x07 over the data |
| LoraFrame.Crc8Known | src/lora/lora_proto.h:28-38 | known remainders by the polynomial, through every turn of the loop |
| LoraFrame.FrameLayout | src/lora/lora_proto.h:49-71 | the wire format of data and acknowledgement frames, byte by byte |
| LoraFrame.FramePacket | src/lora/lora_proto.h:49-60 | writes the whole frame, or returns 0 exactly for an ack type, an unknown type, a long payload or a small buffer |
| LoraFrame.ParseInvertsFrame | src/lora/lora_proto.h:41-101 | parsing undoes framing for every payload of up to 251 bytes |
| LoraFrame.ParseInvertsAck | src/lora/lora_proto.h:63-101 | parsing undoes acknowledgement framing |
| LoraFrame.OneByteChanged | src/lora/lora_proto.h:41-101 | a data frame with exactly one byte changed is refused, except when the type byte turns into another valid type |
| LoraRetry.TxRetry.DoBegin | src/lora/lora_proto.h:117 | a new packet starts with its first attempt |
| LoraRetry.TxRetry.DoNextOrFail | src/lora/lora_proto.h:119-123 | the next attempt, or failure after the fourth |
| LoraRetry.TxRetry.AckArrived | src/lora/lora_proto.h:126-131 | ignores other numbers and late answers; 1 succeeds, anything else costs an attempt |
| LoraRetry.TxRetry.TimedOut | src/lora/lora_proto.h:133-136 | a timeout costs an attempt |
| LoraRetry.OneOutcomeFourTransmissions | src/lora/lora_proto.h:104-136 | over any acknowledgements and timeouts: at most four transmissions and one terminal action, success only by a matching acknowledgement |
| LoraRetry.FourthFailureFails | src/lora/lora_proto.h:104-136 | four timeouts or refusals end the packet with failure |
| LoraDedup.RxDedup.Find | src/lora/lora_proto.h:196-201 | the slot that holds the key |
| LoraDedup.RxDedup.Check | src/lora/lora_proto.h:219-222 | whether the table calls it a duplicate, without changing anything |
| LoraDedup.RxDedup.FindOrAllocate | src/lora/lora_proto.h:204-215 | the key's slot, a free one, or the round-robin victim |
| LoraDedup.RxDedup.DoCommit | src/lora/lora_proto.h:224-231 | the table after a commit |
| LoraDedup.TableIsFaithful | src/lora/lora_proto.h:161-231 | over any commits: each used slot holds its key's most recent commit, keys are unique, the counter is the number of commits modulo 2^32 |
| LoraDedup.DuplicateMeansRepeat | src/lora/lora_proto.h:219-222 | a duplicate repeats the key's most recent commit with fewer than fifteen commits since |
| LoraDedup.FewKeysAllStay | src/lora/lora_proto.h:204-215 | with at most four keys nothing is ever pushed out |
| LoraDedup.FourSourcesExact | src/lora/lora_proto.h:161-231 | with at most four keys the table decides exactly what the history says |
| LoraDedup.RecentRepeatIsDuplicate | src/lora/lora_proto.h:204-222 | in a history of any length from at most four keys, a key's most recent commit is recognised while fewer than fifteen follow it |
| LoraDedup.FifthSourceEvictsFreshest | src/lora/lora_proto.h:171-175 | a fifth source pushes out round robin, even the slot just refreshed: a concrete history |
| LoraDedup.LastFourAreKnown | src/lora/lora_proto.h:161-231 | with all sources different, a packet is recognised exactly while it is one of the last four accepted |
| LoraRx.Receiver.Accept | src/lora/lora_support.cpp:485-502 | a duplicate is acknowledged and dropped; only what was queued is remembered and acknowledged |
| LoraRx.Receiver.Handle | src/lora/lora_support.cpp:423-509 | the reaction to any received frame: table, reply and what is delivered |
| LoraRx.MessageQueuedIff | src/lora/lora_support.cpp:484-507 | a message is queued whole exactly when it is new, holds no NUL and there is room; the reply and the table follow |
| LoraRx.UnicastReachesOnlyItsNode | src/lora/lora_support.cpp:457-479 | an intact unicast packet is taken and acknowledged by the board it names alone |
| LoraRx.AckIsSeen | src/lora/lora_support.cpp:440-445 | an acknowledgement is handed on with its number and its result, if there is room; table and radio stay silent |
| LoraRx.SerialIsBridged | src/lora/lora_support.cpp:446-455 | bridged bytes are handed on as they are, NULs included, unanswered |
| LoraRx.RawIsIgnored | src/lora/lora_support.cpp:480-483 | the retired type is dropped unanswered |
| LoraRx.BroadcastReachesAll | src/lora/lora_support.cpp:457-470 | an intact broadcast is handed on at every other board in network mode with room, unanswered |
| LoraRx.DamagedIsRefused | src/lora/lora_support.cpp:426-434 | a message with one damaged byte is refused under the number it carries; other damaged frames go unanswered |
| LoraRx.NetKeyIs | src/lora/lora_proto.h:442-442 | network sources have keys of their own, marked by two letters |
| LoraRx.CommitsItsSource | src/lora/lora_support.cpp:423-509 | whatever is heard, the table remembers exactly what is queued, under the key and number the frame carries, and acknowledges that number |
| LoraOnce.ArriveIsAccepting | src/lora/lora_support.cpp:484-502 | the receiver's table is the one its log of queued packets stands for |
| LoraOnce.CommitLogs | src/lora/lora_proto.h:224-231 | a commit under a packet's key and number is that packet at the end of the log |
| LoraOnce.RefusedWasQueued | src/lora/lora_proto.h:219-222 | in order and within 256 numbers, a packet taken for a repeat was queued |
| LoraOnce.RememberedIsRefused | src/lora/lora_proto.h:219-222 | with at most four sources, a packet queued before is taken for a repeat while fewer than fifteen follow it |
| LoraOnce.RefusedIff | src/lora/lora_proto.h:219-222 | with at most four sources an arrival is refused exactly when it repeats the source's last counter modulo 256 within fourteen others |
| LoraOnce.RepeatQueuedIff | src/lora/lora_support.cpp:484-502 | a packet already queued is queued again exactly when fifteen others came in between and there is room |
| LoraOnce.NewPacketRefusedIff | src/lora/lora_support.cpp:484-502 | a new packet is wrongly refused exactly when its counter wraps onto the source's last one inside the window |
| LoraOnce.QueuedAtMostOnce | src/lora/lora_support.cpp:421-509 | over any run from at most four sources on a channel that does not reorder, with every retry inside the window, no packet is queued twice |
| LoraOnce.FifteenOthersDuplicate | src/lora/lora_proto.h:156-162 | fifteen other accepts before a retry do duplicate it, fourteen do not: concrete logs |
| LoraLinkSafety.TakeAckKeeps | src/lora/lora_support.cpp:368-382 | taking any acknowledgement, whoever sent it, keeps the invariant |
| LoraLinkSafety.LoadArrives | src/lora/lora_support.cpp:423-509 | a message or unicast packet at its receiver: what is queued is new, whole and remembered under its key and number; what is not leaves the table alone; a positive answer means queued or a repeat; with room and in network mode every new one is queued and answered |
| LoraLinkSafety.QueuedIsNew | src/lora/lora_support.cpp:457-507 | with four sources and a retry inside the window, what the receiver does not take for a repeat it has not queued before |
| LoraLinkSafety.RefusedIsLogged | src/lora/lora_support.cpp:457-507 | within 256 numbers, what the receiver takes for a repeat is the very packet it queued before, among any other commits |
| LoraLinkSafety.DataArrivalKeeps | src/lora/lora_support.cpp:457-507 | a data frame at the receiver keeps the invariant of the whole system, without any condition |
| LoraLinkSafety.OtherKeeps | src/lora/lora_support.cpp:423-509 | any frame of any other board keeps it, whatever it puts into the table |
| LoraLinkSafety.StepKeeps | src/lora/lora_support.cpp:323-386 | every step of sender, receiver, channel or another board keeps it, whatever is acknowledged and however the numbers wrap |
| LoraLinkSafety.LinkIsFaithful | src/lora/lora_support.cpp:323-509 | over every run whatever, other boards' frames and acknowledgements and wrapped numbers included: messages and network packets are queued in order, under their own key and with their own bytes; one result each; at most four transmissions |
| LoraLinkSafety.LinkQueuesOnce | src/lora/lora_support.cpp:323-509 | over every run among any other boards, with four sources and retries inside the window and no other condition: no packet is queued twice |
| LoraLinkSafety.FalseSuccessIff | src/lora/lora_support.cpp:368-382 | within 256 numbers, taking an acknowledgement reports success for a packet not queued if and only if the acknowledgement is a stranger's, positive, with the current number |
| LoraLinkSafety.SuccessIsTrueIff | src/lora/lora_support.cpp:323-386 | over every run among any other boards, within 256 numbers: every success is reported of a packet queued by then, if and only if no such acknowledgement is ever taken |
| LoraLinkSafety.LinkIsSafe | src/lora/lora_support.cpp:323-509 | over every run among any other boards, with four sources, retries inside the window, numbers within 256 and no acknowledgement mistaken: queued in order, at most once and with their own bytes, one result each, and every reported success was queued exactly once |
| LoraLinkSafety.TwoBoardsQueueOnce | src/lora/lora_support.cpp:323-509 | without other boards, under four keys, no packet is ever queued twice, however the numbers wrap |
| LoraLinkSafety.TwoBoardsAreSafe | src/lora/lora_support.cpp:323-509 | without other boards, numbers within 256 are all it takes for every reported success to be queued exactly once |
| LoraLinkLimits.TwoBoardsAreSafeIff | src/lora/lora_support.cpp:323-509 | without other boards, reported successes are true in every run with given distances, of a packet from its key's last queued one and of an acknowledgement from the current packet, if and only if both are below 256 |
| LoraLinkLimits.WrapLosesPacket | src/lora/lora_support.cpp:323-386 | when the counter wraps between two packets of either kind, the second is reported delivered and never queued: a concrete run for every packet |
| LoraLinkLimits.LateAckLies | src/lora/lora_support.cpp:323-382 | an acknowledgement 256 numbers late reports a lost packet as delivered: a concrete run for every packet |
| LoraLinkLimits.OverheardAckFools | src/lora/lora_support.cpp:355-382 | acknowledgements carry no address: another board's with the current number, of this very chat message perhaps, reports a lost packet as delivered: the witness beside `SuccessIsTrueIff` |
| LoraLinkLimits.ExchangeSucceeds | src/lora/lora_support.cpp:323-509 | an exchange without losses reports success from any quiet state, and queues the packet unless its number is the last one's modulo 256 |
| LoraTiming.AirtimeRoundsUp | src/lora/lora_proto.h:233-248 | the time on air is the exact one rounded up to the next millisecond |
| LoraTiming.AirtimeExact | src/lora/lora_proto.h:238-251 | the data sheet's formula, blocks as a least number, coding rate and low-rate flag spelled out: an airtime is that time, its begun millisecond included |
| LoraTiming.OneMoreBlock | src/lora/lora_proto.h:238-251 | one more block costs as many symbols as the coding rate says |
| LoraTiming.OneMoreRate | src/lora/lora_proto.h:238-251 | one step of the coding rate costs one symbol for each block |
| LoraTiming.KnownAirtimes | src/lora/lora_proto.h:238-251 | the default and the slowest settings: known answers |
| LoraTiming.AirtimeMonotone | src/lora/lora_proto.h:237-248 | a longer payload never takes less time |
| LoraTiming.AirtimeBounded | src/lora/lora_proto.h:237-248 | any valid configuration sends any frame within ten minutes |
| LoraTiming.TxExpectedFits | src/lora/lora_proto.h:273-280 | the announced bound and every intermediate value fit an unsigned 32-bit word |
| LoraTiming.UnknownIsZero | src/lora/lora_proto.h:273-280 | the bound is 0 exactly outside the formula's range |
| LoraTiming.BackoffRange | src/lora/lora_proto.h:259-265 | a backoff is the random number's remainder above 10 ms |
| LoraTiming.AwaitAck | src/lora/lora_support.cpp:362-379 | one attempt's waiting loop: the first acknowledgement of its number heard in time decides, or the timeout |
| LoraTiming.SendWithRetry | src/lora/lora_support.cpp:355-385 | the sender's whole loop is the course of its attempts: outcome, total time, transmissions |
| LoraTiming.DeliveredIff | src/lora/lora_support.cpp:323-386 | delivered exactly when in one of the attempts the first acknowledgement of its number in time is positive |
| LoraTiming.OneHeard | src/lora/lora_support.cpp:355-382 | one acknowledgement heard: what comes of the attempt and how long it takes, late and foreign ones included |
| LoraTiming.CourseWithinBound | src/lora/lora_proto.h:265-280 | air time, waits and backoffs of every run together stay within the announced bound |
| LoraTiming.BoundIsTight | src/lora/lora_proto.h:265-280 | the worst course stays exactly three milliseconds below the bound |
| LoraTiming.BusyCostsNothing | src/lora/lora_support.cpp:323-386 | with nothing but a busy radio only the backoffs are waited, and nothing is sent |
| LoraTiming.DeliveryStops | src/lora/lora_support.cpp:323-386 | after a delivery nothing of the later attempts plays a part |
| IpPacket.NodesAndAddresses | src/lora/lora_proto.h:395-409 | node ids and node addresses name each other, and routing follows the address |
| IpRoutes.BuiltIsIpv4 | src/lora/lora_proto.h:412-419 | a packet built from any fields is recognised, with its addresses |
| IpRoutes.Ipv4IsBuilt | src/lora/lora_proto.h:412-419 | nothing else is: whatever is taken for an IPv4 packet can be built from fields |
| IpRoutes.NodeMeans | src/lora/lora_proto.h:403-411 | node addresses and broadcasts as 32-bit numbers |
| IpRoutes.NodeIdMeans | src/lora/lora_proto.h:398-402 | the id a MAC gives |
| IpRoutes.PublicMeans | tools/voyager-link/netshare.go:84-96 | which addresses go to a gateway, as a list of address blocks |
| IpRoutes.DropReasonMeans | tools/voyager-link/netcore.go:127-150 | what becomes of a packet from the adapter, by its fields |
| IpRoutes.OtherDropped | tools/voyager-link/netcore.go:127-150 | what is no IPv4 packet is dropped |
| IpRoutes.ClassifyMeans | tools/voyager-link/netshare.go:107-128 | which packets go to a node and which to a gateway, by their fields |
| IpRoutes.SendToMeans | src/lora/lora_proto.h:455-462 | the send-to frame is taken exactly for a node's id and an IPv4 packet |
| IpRoutes.OtherFrames | src/lora/lora_proto.h:455-462 | no other frame is |
| IpRoutes.NetMeans | src/lora/lora_proto.h:420-438 | a network payload is built within the size limit, and taken exactly with a node as source, some destination and an IPv4 packet |
| IpRoutes.BeaconMeans | tools/voyager-link/netshare.go:35-68 | which packets are beacons, by their fields |
| IpRoutes.BeaconIsBuilt | tools/voyager-link/netshare.go:35-53 | the beacon a gateway sends, field by field |
| IpPacket.SendToRoundTrip | src/lora/lora_proto.h:452-462 | the send-to frame is read back, except for the node ids it refuses |
| IpPacket.NetRoundTrip | src/lora/lora_proto.h:420-438 | a network payload is read back with its destination, source and packet |
| IpPacket.ComputeFold | tools/voyager-link/netcore.go:197-199 | the folding loop ends with the same residue modulo 65535 |
| IpPacket.ComputeIpChecksum | tools/voyager-link/netshare.go:70-79 | the checksum loop computes RFC 1071 over the whole words of any slice |
| IpPacket.BeaconRoundTrip | tools/voyager-link/netshare.go:35-68 | a beacon is recognised with its address, its header checksum is right, and it is a broadcast |
| ClampMss.ScanOptions | tools/voyager-link/netcore.go:174-205 | the option loop finds the first well-formed MSS option, and terminates |
| ClampMss.Rewrite | tools/voyager-link/netcore.go:190-201 | overwrites the value and updates the checksum as RFC 1624 says |
| ClampMss.ClampInPlace | tools/voyager-link/netcore.go:155-207 | the packet in the array becomes the clamped packet; says whether it changed |
| ClampMss.ClampChangesFourBytes | tools/voyager-link/netcore.go:155-207 | only the MSS value and the TCP checksum change, and the scan still ends at the same option |
| ClampMss.ClampKeepsRoute | tools/voyager-link/netcore.go:155-207 | for every packet: same length, same IP header, the MSS capped, and a second pass does nothing |
| ClampBuilt.BuiltIsClamped | tools/voyager-link/netcore.go:155-207 | every segment built from fields: with SYN set, alone or among other flags, and no later fragment, it comes out as the segment with its first MSS option lowered, every other option and byte but the checksum as built; otherwise unchanged |
| ClampMss.ClampKeepsChecksumIff | tools/voyager-link/netcore.go:190-201 | an intact segment stays intact if and only if the option starts at an even offset or the change of its two bytes differs by a multiple of 257 |
| ClampMss.OddOffsetBreaksChecksum | tools/voyager-link/netcore.go:190-201 | a NOP before the option breaks the checksum: a concrete segment |
| Slip.EncodeGo | tools/voyager-link/netcore.go:46-61 | the PC's encoder produces the encoding |
| Slip.EncodeInto | src/lora/lora_proto.h:469-486 | the board's encoder succeeds if and only if the exact encoded size fits the capacity, and writes nothing behind it |
| Slip.BoardDecoder.Feed | src/lora/lora_proto.h:493-512 | one byte through the fixed buffer is one step of the decoder; the frame is in the buffer when a length is returned |
| Slip.BoardDecoder.Reset | src/lora/lora_proto.h:514 | the decoder starts over |
| Slip.PcDecoder.Feed | tools/voyager-link/netcore.go:74-107 | a chunk through the growing slice is the same steps; all completed frames are returned |
| Slip.FeedAppend | tools/voyager-link/netcore.go:74-107 | splitting a stream changes neither the frames nor the state |
| Slip.EncodingDecodes | src/lora/lora_proto.h:490-519 | from every decoder state an encoding closes what was pending and then yields the frame, if it is not empty and fits |
| Slip.StreamDecodes | tools/voyager-link/netcore.go:63-107 | back-to-back encodings come out as the list of the frames that fit |
| Slip.FramesFit | tools/voyager-link/netcore.go:63-107 | every completed frame of any stream is non-empty and within the limit |
| Slip.BadEscapeDrops | src/lora/lora_proto.h:491-512 | an escape followed by anything else spoils its frame up to the END, and the next frame is read as if nothing had been |
| Slip.CutEscapeDrops | src/lora/lora_proto.h:491-512 | so does an END in the middle of an escape |
| Slip.WireFormat | src/lora/lora_proto.h:469-486 | both special bytes in one frame: a known answer |
| NetPath.NetSerial.Enter | src/core/net_serial.cpp:56-67 | refused while the serial bridge is on; otherwise network mode starts with an empty decoder |
| NetPath.NetSerial.Poll | src/core/net_serial.cpp:125-128 | network mode ends exactly after half a minute without a frame from the PC |
| NetPath.NetSerial.HandleFrame | src/core/net_serial.cpp:78-117 | control, send-to and routed frames; what is refused or finds no room is counted as dropped; the PC is told of a filling queue, at most every 300 ms |
| NetPath.PacketsRouted | src/core/net_serial.cpp:111-116 | which frames of a PC go to which node, and which are dropped |
| NetPath.ControlHandled | src/core/net_serial.cpp:93-110 | what each control frame does, unknown ones included |
| NetPath.NetSerial.MaybeReport | src/core/net_serial.cpp:78-88 | when the PC is told to slow down, and what it is told |
| NetPath.CongestionMeans | src/core/net_serial.cpp:78-88 | a queue of six or more, or a lost packet, is reported unless less than 300 ms went by, also when the clock wraps |
| NetPath.NetSerial.Feed | src/core/net_serial.cpp:119-123 | each completed frame is handled, nothing else is |
| NetPath.NetSerial.Deliver | src/core/net_serial.cpp:130-144 | queued exactly in network mode, with room, within one frame; counted accordingly |
| NetPath.NetSerial.Write | src/core/net_serial.cpp:31-43 | the writer's buffer always holds the encoding |
| NetPath.ControlFrames | tools/voyager-link/netbridge_windows.go:329-336 | the two control frames of a board as the PC reads them; others of the kind are dropped |
| NetPath.InboundMeans | tools/voyager-link/netbridge_windows.go:337-366 | what a PC makes of any IPv4 packet from its board |
| NetPath.DirectPacketArrives | tools/voyager-link/netbridge_windows.go:289-368 | a packet classified direct reaches exactly the PC of the node its address names, as the clamped packet, through SLIP, routing, framing and SLIP again; beacon lookalikes are the exception |
| NetPath.GatewayPacketArrives | tools/voyager-link/netbridge_windows.go:289-359 | a packet for the internet reaches exactly the chosen gateway's shared connection |
| NetRun.UsbToRadio | src/core/net_serial.cpp:90-117 | what a board transmits for a PC's frame carries that PC's packet to the node it is for |
| NetRun.HeardIsLegit | src/lora/lora_support.cpp:457-479 | what a board takes from the air was sent to it or to everyone |
| NetRun.InwardIsSent | tools/voyager-link/netbridge_windows.go:328-366 | what a PC makes of a board's frame, or of log text, was sent to it by another PC |
| NetRun.StepKeeps | src/core/net_serial.cpp:31-144 | every step of any PC, board, cable or the air, text between frames included, keeps the invariant of the whole network |
| NetRun.OnlyWhatWasSent | tools/voyager-link/netbridge_windows.go:274-368 | over every run with any loss, repetition and reordering on the air and text on the cables: an adapter gets only what another PC sent to its address, byte for byte the clamped packet; a gateway only what was sent through it |
| NetRun.ImprovIsSkipped | tools/voyager-link/netbridge_windows.go:383-387 | an Improv packet between frames, in either direction, is text that neither decoder's owner acts on |
| NetRun.KeepaliveIsAnswered | src/core/net_serial.cpp:90-101 | a keepalive, read byte by byte, keeps network mode on and is answered; nothing is sent |
| NetRun.LeaveEnds | src/core/net_serial.cpp:90-97 | a leave ends it, unanswered |
| NetRun.OnlyLeaveEnds | src/core/net_serial.cpp:56-76 | at no step does anything but a leave end network mode, or anything but entering begin it |
| NetRun.OfferIsSent | tools/voyager-link/netbridge_windows.go:289-318 | a packet from the adapter, over the cable byte by byte, becomes exactly one payload for the radio, or none if it goes nowhere |
| NetRun.HeardIsDelivered | src/lora/lora_support.cpp:457-479 | a new packet for this board reaches its PC over the cable byte by byte |
| NetRun.PacketTravels | tools/voyager-link/netbridge_windows.go:289-368 | undisturbed, a packet goes from the one PC's adapter to the other's as the clamped packet, unless it is a beacon |
| Improv.Parser.Feed | src/core/improv.h:65-90 | one byte moves the header automaton or the packet; the verdict is right at its end |
| Improv.Parser.Reset | src/core/improv.h:91 | the parser starts over |
| Improv.FindHeader | tools/voyager-link/netcore.go:275-282 | the first occurrence of the header |
| Improv.Scanner.Feed | tools/voyager-link/netcore.go:244-273 | the next good packet of the buffered stream, bad ones skipped, and what stays buffered; it terminates |
| Improv.ByteSum | tools/voyager-link/netcore.go:262-265 | the byte accumulator holds the sum modulo 256 |
| Improv.StepKeepsLongest | src/core/improv.h:65-75 | the header automaton always holds the longest matching prefix of the header |
| Improv.FiveBytesSuffice | tools/voyager-link/netcore.go:247-253 | the five bytes a scanner keeps hold all that matters of a stream without a header |
| Improv.NextIsFaithful | tools/voyager-link/netcore.go:244-273 | answer and remaining buffer stand for the stream, whatever follows |
| Improv.ScannerAgreesWithParser | src/core/improv.h:63-99 | on every stream under every chunking the scanner and the byte parser accept the same packets |
| Improv.BuiltIsAccepted | src/core/improv.h:102-114 | from every hunting state a built packet is accepted whole |
| Improv.AcceptedWasBuilt | src/core/improv.h:57-100 | whenever a byte makes the parser accept something, the stream ends with exactly that packet as it is built |
| Improv.LittleIsKept | tools/voyager-link/netcore.go:240-282 | without an answer the scanner keeps at most an unfinished packet, without a header five bytes |
| Improv.ReadyPacket | src/core/improv.h:102-118 | a packet by the book: known bytes |
| Improv.BuildInto | src/core/improv.h:102-114 | writes the whole packet, or returns 0 exactly when it does not fit |
| Improv.FillRpcResult | src/core/improv.h:125-139 | fills the result data, or gives up exactly when it is too long |
| Improv.ResultGivenUpIff | src/core/improv.h:125-140 | a result is given up exactly when its strings need more than 255 bytes |
| Improv.RpcRoundTrip | src/core/improv.h:142-149 | a command and its payload are recovered |
| Improv.CommandRefused | src/core/improv.h:142-150 | exactly which packets are no commands |
| Improv.OverrunRefused | tools/voyager-link/netcore.go:284-320 | strings that run over the end are not read |
| Improv.ResultRoundTrip | tools/voyager-link/netcore.go:285-297 | the strings of a result are read back, each cut to 255 bytes |
| Pacer.PacerQueue.DoPush | tools/voyager-link/netpace.go:147-175 | a full queue gives up the new packet if it is bulk, else the oldest bulk packet, else the oldest |
| Pacer.PacerQueue.Pop | tools/voyager-link/netpace.go:179-203 | the next packet that is not stale by the clock of its own turn; stale ones are counted as dropped |
| Pacer.PacerQueue.Close | tools/voyager-link/netpace.go:221-227 | nothing is queued after closing |
| Pacer.BoundedFairAndComplete | tools/voyager-link/netpace.go:147-203 | over every interleaving: at most ten queued, every packet queued, sent or lost exactly once, order kept within each class |
| Pacer.InteractiveFirst | tools/voyager-link/netpace.go:152-196 | over every run: when bulk is sent, every interactive packet that came has been sent or lost; when an interactive packet is evicted, so has every bulk packet |
| Pacer.BulkIsInvisible | tools/voyager-link/netpace.go:147-196 | over every run: the interactive packets waiting and sent are those of the same run without its bulk packets |
| Pacer.PopIsTurns | tools/voyager-link/netpace.go:179-203 | a call that drops stale packets is some turns of the loop, each with its own clock reading, so all the laws of runs hold of it |
| Pacer.OnlyFreshIsSent | tools/voyager-link/netpace.go:183-201 | whatever is sent waited at most three seconds |
| Pacer.StaleIsLost | tools/voyager-link/netpace.go:179-201 | a turn gives up its packet exactly when that waited more than three seconds |
| PacerClasses.OtherProtocols | tools/voyager-link/netpace.go:32-58 | ICMP goes first, unknown protocols do not, whatever the packet |
| PacerClasses.NameServiceFirst | tools/voyager-link/netpace.go:38-44 | a datagram goes first exactly to or from port 53 |
| PacerClasses.SmallSegmentsFirst | tools/voyager-link/netpace.go:45-56 | a TCP segment goes first exactly if it opens, closes or resets a connection or carries at most 64 bytes, whatever its other flags and options |
| Pacer.Pace.DoBackoff | tools/voyager-link/netpace.go:92-104 | half slower, up to the limit |
| Pacer.Pace.DoRecover | tools/voyager-link/netpace.go:106-117 | five per cent faster, down to the nominal pace |
| Pacer.FactorBounded | tools/voyager-link/netpace.go:92-117 | over any reports the factor stays in 1000..4000, and every report moves it unless it is at that end |
| Pacer.PaceSteps | tools/voyager-link/netpace.go:92-117 | both steps exactly, rounding and limits included |
| Pacer.KnownMeans | tools/voyager-link/netpace.go:119-123 | which reported airtimes are used, and what stands in for others |
| Pacer.CostIs | tools/voyager-link/netpace.go:135-145 | the cost of any length at any pace, to the nanosecond |
| Pacer.CostMonotone | tools/voyager-link/netpace.go:119-145 | for any reported airtimes, usable or not: a longer packet or a slower pace never costs less; the nominal costs of a full and a minimal packet |
| Ota.Server.KeepSnapshot | src/web/web_server.cpp:395-411 | every settings file of at most 2 KB that reads back whole is kept |
| Ota.Server.KeepClear | src/web/web_server.cpp:388-393 | forgets every kept file |
| Ota.Server.DoReleaseRadio | src/web/web_server.cpp:413-418 | gives the mutex back exactly if the upload held it |
| Ota.Server.DoFail | src/web/web_server.cpp:434-438 | marks the request failed and undoes its upload |
| Ota.Server.DoAbortOwner | src/web/web_server.cpp:421-432 | undoes the upload; a half-written filesystem stays offline with its snapshot |
| Ota.Server.DoAdmit | src/web/web_server.cpp:473-484 | admission, in the order of its checks |
| Ota.Server.DoBegin | src/web/web_server.cpp:494-523 | the first chunk's part, every refusal included |
| Ota.Server.Chunk | src/web/web_server.cpp:486-537 | the whole upload callback |
| OtaHistory.RunningIff | src/web/web_server.cpp:486-537 | over every run: an upload is running exactly when it was admitted and begun and everything since was written |
| OtaHistory.DoneIff | src/web/web_server.cpp:525-537 | over every run: a request becomes done, and the device is to restart, exactly at the final part of such an upload whose write and final check succeeded |
| OtaHistory.FailureUndoes | src/web/web_server.cpp:434-438 | a failed start, write or final check fails the request, frees the radio and leaves no owner |
| OtaHistory.EndingUndoes | src/web/web_server.cpp:500-558 | so does a request that ends or a client that leaves before the last part |
| OtaHistory.DirtyIff | src/web/web_server.cpp:525-527 | the filesystem counts as half-written exactly when an upload ever put bytes on it |
| OtaHistory.RefusalMeans | src/web/web_server.cpp:473-516 | what each refusal means, and that it changes nothing |
| OtaHistory.DecidedStays | src/web/web_server.cpp:543-558 | once decided, a request keeps its status, and with it its reply, until its client is gone |
| OtaHistory.SnapshotMeans | src/web/web_server.cpp:395-411 | a settings file is kept if it is there, not empty, of at most 2048 bytes, and read back whole |
| OtaHistory.RestoreMeans | src/web/web_server.cpp:456-464 | each file comes back from its own snapshot, the WiFi settings else from their backup, if the write succeeds |
| Ota.Server.RequestEnd | src/web/web_server.cpp:543-558 | an upload its request did not finish fails; the reply follows the status |
| Ota.Server.Disconnect | src/web/web_server.cpp:500-505 | a client that leaves aborts its upload |
| Ota.Server.Restore | src/web/web_server.cpp:456-464 | which content each settings file gets over the new image |
| Ota.OfflineAndQuiet | src/web/web_server.cpp:362-379 | in every reachable state: offline exactly while dirty, uploading a filesystem or rebooting after one; the radio held exactly by an upload or a pending reboot; one running request, the owner |
| Ota.NothingAfterSuccess | src/web/web_server.cpp:473-484 | after a success, whatever follows: admission never says yes, nothing runs, nothing else is done, the radio stays held and the snapshot stays as it is |
| Ota.BeforeFirstOverwrite | src/web/web_server.cpp:514-526 | the remembered files are those just before the first overwritten byte, through all failed attempts since |
| Ota.SettingsSurvive | src/web/web_server.cpp:440-467 | after a filesystem update, whatever failed before, each kept setting is what it was before the first overwritten byte |
| Ota.SettingsSurviveIff | src/web/web_server.cpp:440-467 | settings survive every successful update if and only if it is a filesystem update or no half-written filesystem waits for one |
| Ota.FirmwareOverHalfWritten | src/web/web_server.cpp:440-467 | a firmware update on a half-written filesystem loses a saved setting: a concrete run |
| WifiScan.MergeInto | src/wifi/wifi_config.h:106-130 | one scan hit merged in place |
| WifiScan.ClampedKeeps | src/wifi/wifi_config.h:109-110 | the signal is the driver's own within a signed byte's range up to 0 |
| WifiScan.HitCounts | src/wifi/wifi_config.h:106-130 | which hits count, by the bytes of their names |
| WifiScan.FullListTrades | src/wifi/wifi_config.h:117-129 | a full list gives up the first of its weakest entries for a stronger new network, and nothing for another |
| WifiScan.ListedTakesBetter | src/wifi/wifi_config.h:111-116 | a listed network keeps its place and takes the better signal |
| WifiScan.FindIn | src/wifi/wifi_config.h:111-116 | the first entry with the SSID |
| WifiScan.WeakestIn | src/wifi/wifi_config.h:119-121 | the first of the weakest entries |
| WifiScan.ListIsTop | src/wifi/wifi_config.h:100-130 | after any hits: distinct networks, each with the best signal ever seen, also after eviction and return, and nothing stronger left out |
| WifiScan.InsertAt | src/wifi/wifi_config.h:134-139 | one round of the insertion sort |
| WifiScan.SortInPlace | src/wifi/wifi_config.h:132-140 | the list in the array becomes the sorted list |
| WifiScan.SortedStable | src/wifi/wifi_config.h:132-140 | sorting gives a descending permutation that keeps the order of equally strong entries |
| WifiSelect.Selector.Add | src/wifi/wifi_config.h:198-204 | the selector summarises every hit it was fed |
| WifiSelect.Selector.Pick | src/wifi/wifi_config.h:205 | the pick, preferring nodes that are not avoided |
| WifiSelect.Selector.OnlyAvoided | src/wifi/wifi_config.h:206-207 | whether only the avoided node was found |
| WifiSelect.PicksStrongest | src/wifi/wifi_config.h:170-208 | the first of the strongest usable nodes, the avoided one only if it is the only choice |
| WifiSelect.UsableMeans | src/wifi/wifi_config.h:155-168 | what a lone hit has to be to be picked |
| WifiSelect.AvoidedMeans | src/wifi/wifi_config.h:200-203 | the avoided node is recognised by its address |
| WifiSelect.OnlyAvoidedIff | src/wifi/wifi_config.h:206-207 | the only node is the avoided one exactly if there is a usable hit and all of them are its |
| WifiSelect.MatchesCounts | src/wifi/wifi_config.h:198-199 | the count is that of the hits with the name |

## Left out

- Kermit: progress callbacks, file-name display.
- Kermit: `start` is called once per session, files have at most 2^53 bytes, and timers fire at any time while armed; milliseconds are not modelled.
- KermitInit.ComputeParseAttrs: the approximate size from the `!` attribute, which only scales a progress bar.
- KermitReceiver.KermitReceiver.OnAttr: likewise.
- KermitSender.KermitSender.DoFail: the text passed to `onComplete`; the text sent to the peer is modelled.
- KermitReceiver.KermitReceiver.DoFail: likewise.
- KermitTransfer.TransferIsSafe: noise is any bytes in which every frame fails both block checks; undetected damage and stale frames of an earlier session are not covered.
- KermitProgress.NeverStuck: says that success stays possible while tries are left, not that it happens with some probability.
- LoRa: radio registers, interrupts, listen-before-talk, queue memory and scheduling; a busy radio, a full queue and a lost frame are inputs.
- LoraRx.Receiver.Handle: the JSON reading and hash that turn a message into its source key are a parameter; the list of peers heard, which decides nothing, is not kept.
- LoraLinkSafety.LinkIsFaithful: one receiver; broadcasts and packets to other nodes only take a sequence number; a message too long for a frame is refused before it takes one and is not an event; damage is what parsing exposes; no other board uses the sender's source keys.
- LoraOnce.QueuedAtMostOnce: takes the order of arrivals as given; `LoraLinkSafety.LinkQueuesOnce` derives it from sender and channel.
- LoraDedup.DuplicateMeansRepeat: for histories shorter than 2^32 commits, as the accept counter wraps there.
- LoraTiming.AirtimeRoundsUp: exact arithmetic; the rounding of the double-precision formula is not modelled.
- LoraTiming.SendWithRetry: waits for the radio mutex and for a clear channel are not counted, as in the announced bound; one tick is one millisecond.
- LoRa configuration files, their validation and OLED messages.
- NetRun.OnlyWhatWasSent: text on a cable may be anything of which neither end makes a routable packet, and network mode starts only where the bytes left on the cable make none; frames cut by a restart of the PC, and frames that are damaged without being noticed, are not covered. Duplicates are allowed there: `LoraOnce` and `LoraLinkSafety` are about those.
- NetPath.NetSerial.Feed: status text; the list of peers heard, which decides nothing.
- The gateway's own traffic (`netgw.go`, `netproxy.go`), network adapters and routes.
- Improv: WiFi credentials, error and state packets beyond their framing, and the number and address parsing of the network-start result after its strings.
- Pacer.PacerQueue.Pop: waiting on the condition variable is a call that returns nothing. Durations are unbounded integers.
- Ota.Server.Chunk: authentication, flash writing and file reading are inputs; a reboot that cannot be started after a success is not modelled.
- Ota.SettingsSurviveIff: the file writes of the restore succeed and the new image mounts; `Ota.Server.Restore` has the case of a write that fails.
- WifiScan.MergeInto: SSIDs are byte strings without NUL; the driver's scan and roaming thresholds are not modelled.
- `wifi_pick_strongest` (which no firmware code calls), disconnect reasons, host names and WiFi configuration parsing.
- Web pages, authentication, MD5/Digest, displays, tray and registry code.
