# Verified model of the client engine

A Dafny model of the TeamSpeak client engine and proofs about it.  Each module follows one
component of the program; what the program changes in place is a class here, proved against a
function, and the properties are proved about that function.  `dafny verify dfyconfig.toml` checks
the whole project.

The main results:

- **Reliable, ordered commands.**  Modules `PacketNumbers`, `Fragments`, `Receive`, `Resend` and
  `Sending` model numbering, splitting, reordering, acknowledging and retransmission.  `Transport`
  puts a sender, a network that loses, repeats and reorders, and a receiver together; a run is any
  list of enabled steps.  What can go wrong in a run is named by two conditions: the run is
  *orderly* if no delivery that consumes packets meets a queued copy of an earlier one, and an ack
  is *harmless* if it names no packet that is still to be accepted.
  `Ordering.ConsumedInOrderExactly`: packets are consumed in the order sent exactly in orderly runs;
  `DeliveredIsPrefix`: there the commands handed up are a prefix of those sent.
  `RunLosesNothingExactly`: in an orderly run with a congestion window of at most 32567 no packet is
  ever lost exactly if every ack was harmless, which an ack is that comes while its packet is
  outstanding or less than a turn of the ids after it (*timely*).  `NothingLostExactly`: no packet
  is lost in any orderly run with timely acks exactly when the congestion window is at most 32567,
  which is 200 below the cap in the program.  `Refinement` couples codec and resender to that
  system, through every turn of the ids, and `Links` puts them together: after any calls of sending,
  polling, receiving and acknowledging the two ends have made a run, so `Links.Link.Reliable` states
  order and reliability of the objects themselves, for any bound of at most 32567 on the congestion
  window.  `KeyCache` models the key cache of the encryption.
- **Channel order.**  `Channels`: the linked list stored in the channel map, with insertion,
  removal and moving as splices, and the exact condition under which chains stay chains.
- **Audio queue.**  `SlidingMinimum` and `Audio`: wrapping ids and clocks, the sorted buffer, the
  subtractions they justify, and exactly when the assertion of debug builds fails.
- **Command text and voice packets.**  `CommandText` and `Voice`: round trips between writer and
  parser, each with the exact condition under which it holds.
- **Flood budget.**  `FloodBudget`: rate bound, longest wait, conservation and order over all runs.
- **Licenses.**  `Licenses`: exactly when a license parses, nested validity, and the round trip
  with the builder that writes in place, for all types of blocks.

Where the program does not do what its comments or tests promise, the model follows the program
and a lemma says exactly when the promise holds:

- A datagram that is queued out of order twice leaves a copy that is delivered one turn of the ids
  later (`Failures.StaleCopyIsDelivered`; exactly when: `Ordering.ConsumedInOrderExactly`).
- A command datagram that comes again a whole turn of the ids later is acknowledged without being
  decrypted, and that ack removes another packet, which can be lost with any congestion window
  (`Failures.OldDatagramLoses`; exactly when: `Reliability.AckLosesNothingExactly`).
- The generation in the label of packet id 65535 is one too high
  (`Receive.LabelWrongExactlyAtTurn`).  So its ack can be missed (`Resend.AckOfLastIdIsMissed`), its
  record can be in the heap twice (`Resend.LastIdIsPushedTwice`; exactly when an insertion breaks
  the agreement: `Resend.InsertKeepsExactExactly`), a later packet can be sent before it
  (`Resend.OvertakesExactly`), and it can be reported as acknowledged while it is not
  (`Refinement.ReportIsTrueExactly`).
- Finding the generation of a packet stops debug builds at both ends of the generations
  (`PacketNumbers.GenerationOverflowsExactly`).
- The difference of packet ids is wrong across generations
  (`PacketNumbers.MinusExactWithinGeneration`).
- A congestion window above 32567 can lose a packet for good (`WindowThreshold.WideWindowLoses`).
- An audio packet exactly 50 ids ahead is accepted but trips an assertion of debug builds when it
  is at the front and data has to be decoded (`Audio.AudioQueue.GetNextData`,
  `Audio.AudioQueue.AcceptsAndTrips`).
- A packet or decoder answer without samples takes the audio queue out of its decoded data
  (`Audio.AudioQueue.DecodeRound`, `Audio.AudioQueue.GetNextData`).
- A new-style whisper without data is refused as too short and whisper lists of 256 or more
  entries are cut off (`Voice.VoiceRoundTrip`).
- A flood report does not make the next command wait if the last refill is long past
  (`FloodBudget.WaitAfterReport`); and degraded mode does not halve the throughput, it divides the
  rate by six (`FloodBudget.RateIsBounded`).
- A command whose first item is a new part loses its name, and one without a name can get one
  (`CommandText.CommandRoundTrip`).
- Max clients of a license block of version 5 are written as the accessor does not read them
  (`Licenses.PropertiesAreFound`); such a block with properties cannot be the last one
  (`Licenses.PropertiesAreRead`); and website and code blocks that a builder adds are refused by the
  parser (`Licenses.BuildRoundTrip`).

## Model

| member | source | states |
|---|---|---|
| PacketNumbers.NumberIsBijective | native/local_tsclientlib/tsproto/src/resend.rs:55-62 | A generation and a 16 bit id are one number below 2^48: storing and counting are inverse to each other |
| PacketNumbers.AddCounts | native/local_tsclientlib/tsproto/src/resend.rs:281-309 | Adding to or subtracting from a packet id counts packets, through every carry into the generation and its overflow |
| PacketNumbers.OrderIsNumberOrder | native/local_tsclientlib/tsproto/src/resend.rs:269-275 | The order of packet ids is the order of the packets |
| PacketNumbers.MinusExactWithinGeneration | native/local_tsclientlib/tsproto/src/resend.rs:311-319 | The difference of two ids counts the packets between them if and only if both are of one generation; it is one too small for each generation between |
| PacketNumbers.WindowFindsGeneration | native/local_tsclientlib/tsproto/src/connection.rs:189-209 | For packet s seen by a receiver that expects e, the window yields the generation of s if and only if s lies at most 32769 behind and less than 32767 ahead, around all 2^48 numbers; and then it reports "inside" if and only if s is 0 to 32766 ahead |
| PacketNumbers.WindowFindsGenerationEarly | native/local_tsclientlib/tsproto/src/connection.rs:189-209 | The same before the generation overflows, without going round; a packet reported outside is an old one or at least 32767 ahead |
| PacketNumbers.GenerationOverflowsExactly | native/local_tsclientlib/tsproto/src/connection.rs:194-206 | Finding the generation leaves its 32 bits, where release builds wrap around and debug builds stop, exactly for ids half a turn ahead in the first generation and for ids of the next one in the last |
| Receive.LabelWrongExactlyAtTurn | native/local_tsclientlib/tsproto/src/packet_codec.rs:429-456 | The generation handed to the resender with a packet is the one the packet was encrypted under if and only if its id is not 65535 |
| KeyCache.KeyCache.CreateKeyNonce | native/local_tsclientlib/tsproto/src/algorithms.rs:115-146 | Through every history of calls the cached key and nonce are the derived ones, except, exactly, when an unused slot is asked for the largest generation |
| KeyCache.KeysDiffer | native/local_tsclientlib/tsproto/src/algorithms.rs:141-145 | Two packets of one generation get the same key if and only if they have the same id |
| Fragments.CompressAndSplit | native/local_tsclientlib/tsproto/src/algorithms.rs:46-113 | The splitting method: compression only when the content is too long and the compressed form is not longer, flags on the first and last piece |
| Fragments.CutUp | native/local_tsclientlib/tsproto/src/algorithms.rs:70-92 | The splitting loop yields the pieces of the recursive definition |
| Fragments.SetFlags | native/local_tsclientlib/tsproto/src/algorithms.rs:93-112 | Piece i of n carries the compressed flag only as the first, the fragmented flag only as the first or last of several |
| Fragments.ChunksJoin | native/local_tsclientlib/tsproto/src/algorithms.rs:70-92 | The pieces joined are the content; all but the last have full length |
| Fragments.FragmentsFit | native/local_tsclientlib/tsproto/src/algorithms.rs:46-113 | Every fragment with its header is at most 500 bytes |
| Fragments.SplitMeans | native/local_tsclientlib/tsproto/src/algorithms.rs:46-113 | What is sent for a command: a short one as it is; of a longer one the shorter of its plain and compressed form, the compressed one on a tie, in full packets and a rest that is not empty; the first fragment alone carries the compressed flag, the first and last of several the fragmented one |
| Fragments.ConsumeMeans | native/local_tsclientlib/tsproto/src/packet_codec.rs:279-320 | When a packet completes a content, what that is, and exactly when decompression or the length limit ends it |
| Fragments.FitsExactly | native/local_tsclientlib/tsproto/src/packet_codec.rs:279-320 | The condition for a command to survive in numbers: all but the last two packets with the header below 40960 bytes, and at most two megabytes if compressed |
| Fragments.SplitRoundTrip | native/local_tsclientlib/tsproto/src/packet_codec.rs:270-324 | Feeding the fragments of a command to the reassembler yields exactly the command, if and only if with n >= 3 fragments header + (n - 2) * size stays below 40960 and a compressed command does not exceed the decompression limit; otherwise an error ends the stream |
| Fragments.WholeStream | native/local_tsclientlib/tsproto/src/packet_codec.rs:270-324 | The fragments of any sequence of commands are reassembled to a prefix of the commands, and to all of them unless an error ends the stream |
| Fragments.StreamHandsUpPrefix | native/local_tsclientlib/tsproto/src/packet_codec.rs:270-324 | Any initial part of the fragment stream hands up a prefix of the commands |
| Fragments.StreamArrivesExactly | native/local_tsclientlib/tsproto/src/algorithms.rs:46-113 | All commands arrive if and only if each of them fits |
| Receive.PacketCodec.constructor | native/local_tsclientlib/tsproto/src/connection.rs:165-175 | A client counts its commands from 1 and expects those of the server from 0; for a server it is the other way round |
| Receive.PacketCodec.EncodePacket | native/local_tsclientlib/tsproto/src/packet_codec.rs:354-459 | The fragments of a command get consecutive numbers; each is encrypted under its own generation and labelled with that of the following number |
| Receive.PacketCodec.HandleCommandPacket | native/local_tsclientlib/tsproto/src/packet_codec.rs:255-352 | The delivery loop over reordered packets computes the recursive definition of reordering, duplicate handling, reassembly and delivery |
| Receive.PacketCodec.HandleUdpPacket | native/local_tsclientlib/tsproto/src/packet_codec.rs:44-253 | Decision between handling, dropping and acknowledging a command datagram: outside the window it is only acknowledged, inside it has to decrypt under the generation found |
| Receive.DrainAssembles | native/local_tsclientlib/tsproto/src/packet_codec.rs:255-352 | What one call hands up is the reassembly of the packets it takes, and it fails exactly when that fails |
| Receive.DrainCounts | native/local_tsclientlib/tsproto/src/packet_codec.rs:325-345 | The next expected id advances by the number of packets taken, and the queue keeps the rest |
| Receive.TakenAndLeft | native/local_tsclientlib/tsproto/src/packet_codec.rs:325-345 | Each queued packet is taken once or stays queued, with multiplicities |
| Receive.TakenOrLeft | native/local_tsclientlib/tsproto/src/packet_codec.rs:325-345 | What was queued is taken or left, and nothing else is |
| Receive.NextIsNotLeft | native/local_tsclientlib/tsproto/src/packet_codec.rs:325-345 | The loop stops only when no packet with the expected id is queued |
| Receive.InOrderExactly | native/local_tsclientlib/tsproto/src/packet_codec.rs:255-352 | One call consumes consecutive packets if and only if no copy of an earlier packet stands in the queue where the loop gets to |
| Receive.FreshQueueInOrder | native/local_tsclientlib/tsproto/src/packet_codec.rs:255-352 | The order is right while no queued packet is nearly a turn old |
| Receive.GenuineWindow | native/local_tsclientlib/tsproto/src/connection.rs:189-209 | For a genuine packet that decrypts, the tests of the receive window and of the queue limit of 200 on ids are tests on packet numbers |
| Receive.QueueWindowCounts | native/local_tsclientlib/tsproto/src/packet_codec.rs:343-350 | The queue accepts an id if and only if the packet is less than 200 ahead of the expected one |
| Receive.HandleUdpDecides | native/local_tsclientlib/tsproto/src/packet_codec.rs:44-253 | For every packet and every expected number: acknowledged unseen if 32767 or more ahead modulo the ids, dropped without ack if of another turn, consumed if expected, queued and acknowledged if less than 200 ahead, and otherwise the end of the connection |
| Receive.DrainFailureDiscards | native/local_tsclientlib/tsproto/src/packet_codec.rs:279-320 | An error discards all that one call would have handed up |
| Transport.RunKeepsOrder | native/local_tsclientlib/tsproto/src/packet_codec.rs:255-352 | Invariant over every orderly run of sender, network and receiver: queued packets are genuine and in range, and what was handed up is the reassembly of a prefix of the packets sent |
| Transport.DeliverKeepsOrder | native/local_tsclientlib/tsproto/src/packet_codec.rs:44-253 | Delivery of any datagram, lost, repeated or reordered, keeps that invariant, if no copy of an earlier packet is met when packets are consumed |
| Transport.DeliveredIsPrefix | native/local_tsclientlib/tsproto/src/packet_codec.rs:255-352 | Over every orderly run the commands handed up are a prefix of the commands sent, in order and each once; all of them when the receiver has consumed the last packet |
| Transport.FreshRunIsOrderly | native/local_tsclientlib/tsproto/src/packet_codec.rs:255-352 | A run is orderly while no queued copy gets nearly a turn of the ids old |
| Ordering.RunTraces | native/local_tsclientlib/tsproto/src/packet_codec.rs:255-352 | Over every run, orderly or not: the expected number counts the packets consumed, and these and the queued ones are packets of the log, the queued ones less than 200 ahead |
| Ordering.TakenInOrderExactly | native/local_tsclientlib/tsproto/src/packet_codec.rs:325-350 | In every state of a run whose packets were consumed in order so far, a delivery that consumes packets consumes the next ones of the log if and only if no copy of an earlier packet stands where it gets to |
| Ordering.ConsumedInOrderExactly | native/local_tsclientlib/tsproto/src/packet_codec.rs:255-352 | The packets consumed over a whole run are a prefix of the packets sent if and only if the run is orderly |
| Reliability.QueuedOnceIsFresh | native/local_tsclientlib/tsproto/src/packet_codec.rs:343-350 | A run of any length is fresh and orderly if no datagram is delivered again while a copy of it waits in the receive queue |
| Reliability.FewPacketsAreFresh | native/local_tsclientlib/tsproto/src/packet_codec.rs:255-352 | A run that stays below packet number 65336 is fresh and orderly, and all its acks are timely |
| Reliability.AcceptedIsAcked | native/local_tsclientlib/tsproto/src/packet_codec.rs:132-139 | Over every orderly run the receiver has acknowledged each packet it consumed or queued |
| Rounds.AtOnceIsTimely | native/local_tsclientlib/tsproto/src/packet_codec.rs:230-253 | If each ack is delivered as soon as it was made and no command datagram is delivered a whole turn of the ids after it was acknowledged, all acks are timely |
| Reliability.TransmitStaysInWindow | native/local_tsclientlib/tsproto/src/resend.rs:576-615 | With a congestion window of at most 32567 a transmitted packet is never ahead of the receive window, mislabelled last ids included |
| Reliability.DeliverLosesNothing | native/local_tsclientlib/tsproto/src/packet_codec.rs:44-253 | A delivery keeps every accepted packet accepted, and acknowledges only what was accepted |
| Reliability.RemovedIsNamed | native/local_tsclientlib/tsproto/src/resend.rs:424-473 | An ack is harmless, that is, the record it names is of an accepted packet or of none, if and only if all it removes was accepted |
| Reliability.AckLosesNothingExactly | native/local_tsclientlib/tsproto/src/resend.rs:424-473 | The delivery of any ack ever made loses no packet if and only if it is harmless |
| Reliability.TimelyAckIsHarmless | native/local_tsclientlib/tsproto/src/resend.rs:424-473 | An ack delivered while its packet is outstanding, or less than a turn of the ids after it, is harmless |
| Reliability.RunLosesNothingExactly | native/local_tsclientlib/tsproto/src/resend.rs:424-473 | Over every orderly run with a congestion window of at most 32567: at every moment every packet ever sent is kept by the sender or was accepted by the receiver, if and only if every ack delivered was harmless |
| Reliability.RunLosesNothing | native/local_tsclientlib/tsproto/src/resend.rs:424-473 | Over every orderly run with timely acks and a congestion window of at most 32567: every packet ever sent is still kept by the sender or was accepted by the receiver |
| WindowThreshold.WideWindowLoses | native/local_tsclientlib/tsproto/src/packet_codec.rs:230-247 | With a window of 32568 or more there is a run with timely acks, none of them late, in which a packet is acknowledged unseen and lost: the run is constructed |
| WindowThreshold.NothingLostExactly | native/local_tsclientlib/tsproto/src/resend.rs:620-634 | No packet is lost in any orderly run with timely acks if and only if the congestion window is at most 32567; the program caps it at 32767 |
| Failures.StaleCopyIsDelivered | native/local_tsclientlib/tsproto/src/packet_codec.rs:343-350 | With a congestion window of at least two packets there is a run with timely acks, none of them late, in which what is handed up is not a prefix of what was sent: a datagram that arrives twice out of order is handed up again one turn of the ids later. The run is constructed, from the first packet on |
| Failures.OldDatagramLoses | native/local_tsclientlib/tsproto/src/packet_codec.rs:230-247 | Whatever the congestion window, there is an orderly run in which each ack is delivered as soon as it was made, and all but the last are timely, and a packet that was never transmitted is lost: an old command datagram comes again outside the receive window, is acknowledged unseen, and the ack names the packet a turn of the ids later. The run is constructed |
| Resend.UrgencyIsStrictWeakOrder | native/local_tsclientlib/tsproto/src/resend.rs:353-372 | The order of the priority queue is a strict weak order that separates the packets of one type |
| Resend.AckedKeyIsNext | native/local_tsclientlib/tsproto/src/resend.rs:444-456 | An ack names the first number with its 16 bit id from the first outstanding one on |
| Resend.AckFindsExactly | native/local_tsclientlib/tsproto/src/resend.rs:444-456 | The ack for an outstanding packet finds its record if and only if the record is less than a turn above the first outstanding one |
| Resend.AckOfLastIdIsMissed | native/local_tsclientlib/tsproto/src/resend.rs:327-336 | The ack for id 65535 does not find its record, filed one generation too high, while packet 65534 is outstanding |
| Resend.LabelIsKept | native/local_tsclientlib/tsproto/src/packet_codec.rs:429-456 | The generation of the next number and the id of its own, which is what is kept of a packet, are the number that the model files it at |
| Resend.LiveInHeapExactlyBelowIndex | native/local_tsclientlib/tsproto/src/resend.rs:208-220 | In agreeing queues a live record is in the heap exactly once, as its current id, if it is below the index of its type, and otherwise not at all |
| Resend.HeapBoundsSpan | native/local_tsclientlib/tsproto/src/resend.rs:208-220 | A live record in the heap has at most a window of outstanding records up to it |
| Resend.PushKeepsGood | native/local_tsclientlib/tsproto/src/resend.rs:576-611 | Moving the first record outside the heap into it keeps heap, maps and indices in agreement |
| Resend.PopKeepsGood | native/local_tsclientlib/tsproto/src/resend.rs:679-691 | Dropping an acknowledged entry from the heap keeps the agreement |
| Resend.ResendKeepsGood | native/local_tsclientlib/tsproto/src/resend.rs:745-779 | Noting a transmission of the most urgent entry in heap and map keeps the agreement and the order of first transmissions |
| Resend.InsertKeepsExactExactly | native/local_tsclientlib/tsproto/src/resend.rs:648-668 | A new record keeps heap, maps and indices in agreement if and only if no heap entry of its type is filed at or above it |
| Resend.InsertKeepsGoodExactly | native/local_tsclientlib/tsproto/src/resend.rs:648-668 | It also keeps the order of first transmissions and reports if and only if it comes in order: above the last report, above all heap entries of its type, and above it only records never sent and kept no earlier |
| Resend.InsertKeepsSound | native/local_tsclientlib/tsproto/src/resend.rs:648-668 | The label of any later packet, those after a turn of the ids included, keeps the queues sound: every live record below its index is in the heap at least once, and so is every record before a heap entry |
| Resend.PushKeepsSound | native/local_tsclientlib/tsproto/src/resend.rs:576-611 | Filling keeps the queues sound, also when an entry is in the heap already |
| Resend.PopKeepsSound | native/local_tsclientlib/tsproto/src/resend.rs:679-691 | Dropping an acknowledged entry keeps them sound |
| Resend.ResendKeepsSound | native/local_tsclientlib/tsproto/src/resend.rs:745-779 | Noting a transmission of one of several equal entries keeps them sound |
| Resend.RemoveKeepsSound | native/local_tsclientlib/tsproto/src/resend.rs:424-473 | Removing an acknowledged record keeps them sound |
| Resend.SpanIsInHeap | native/local_tsclientlib/tsproto/src/resend.rs:208-220 | In sound queues, with every heap entry all outstanding packets before it, by number and by label, are in the heap; so there is at most a window of them |
| Resend.ClearedIsExact | native/local_tsclientlib/tsproto/src/resend.rs:569-574 | Whatever was filed twice, an emptied heap with reset indices agrees with the maps |
| Resend.LastIdIsPushedTwice | native/local_tsclientlib/tsproto/src/resend.rs:648-668 | When the packet after id 65535 is sent while that is outstanding in the heap, the index goes back and filling puts the same entry into the heap a second time |
| Resend.OvertakesExactly | native/local_tsclientlib/tsproto/src/resend.rs:353-368 | Of two new packets kept at the same moment the later one is more urgent if and only if the earlier one has id 65535 and is less than a turn away |
| Resend.HeapHoldsFirstExactly | native/local_tsclientlib/tsproto/src/resend.rs:208-220 | With one type and live entries only, a record is in the heap if and only if it is among the first records, as many as the heap holds |
| Resend.RemoveKeepsGood | native/local_tsclientlib/tsproto/src/resend.rs:424-473 | An acknowledged record leaves its map, perhaps with its entry still in the heap; the agreement is kept |
| Resend.ClearKeepsGood | native/local_tsclientlib/tsproto/src/resend.rs:569-574 | Emptying the heap and resetting the indices keeps the agreement |
| Resend.MostUrgentIsNext | native/local_tsclientlib/tsproto/src/resend.rs:353-368 | Below the most urgent entry no record of its type waits for its first transmission |
| Sending.Resender.constructor | native/local_tsclientlib/tsproto/src/resend.rs:383-412 | The queues of a new resender are empty and agree; the round trip time, the old maximum and the congestion epoch have their initial values |
| Sending.Resender.PickHead | native/local_tsclientlib/tsproto/src/resend.rs:578-600 | Among the first records outside the heap, one per type, the one created last is picked; none only if all records are in the heap |
| Sending.Resender.FillUp | native/local_tsclientlib/tsproto/src/resend.rs:576-615 | Afterwards the heap is as large as the window or holds every record; only live records were added, among them the first record outside the heap that was created last; agreement, soundness, order and the window itself are kept; the start of the congestion epoch is moved exactly as noted |
| Sending.Resender.RebuildSendQueue | native/local_tsclientlib/tsproto/src/resend.rs:569-574 | The rebuilt heap holds live records only, a window full or all, and agrees with maps and indices whatever the old one did |
| Sending.Resender.SendPacket | native/local_tsclientlib/tsproto/src/resend.rs:648-668 | The packet is kept in its map and the heap is filled; the queues stay sound for the label of any later packet, and stay in full order for a label that comes in order |
| Sending.Resender.AckPacket | native/local_tsclientlib/tsproto/src/resend.rs:424-473 | Exactly the record named by the ack is removed and nothing else of the queues changes; exactly acks of records sent once are measured; a report is made if and only if the first record was acknowledged, and names everything below the first record left, or everything sent, or the last init packet; while labels come in order, reported numbers strictly increase |
| Sending.Resender.UpdateSrtt | native/local_tsclientlib/tsproto/src/resend.rs:636-646 | The smoothed round trip time becomes the average of its old value with weight 7/8 and the measured one, its deviation with weight 3/4, and those of the statistics with weights 1/2 and 3/4, but for rounding by at most two nanoseconds |
| Sending.Resender.RegisterLoss | native/local_tsclientlib/tsproto/src/resend.rs:755-772 | After a loss the smoothed round trip time is doubled up to the timeout and a new congestion epoch starts from the present window |
| Sending.Resender.Rto | native/local_tsclientlib/tsproto/src/resend.rs:680-686 | The retransmission timeout is the round trip time and four deviations, at most a second |
| Sending.Resender.Sent | native/local_tsclientlib/tsproto/src/resend.rs:753-779 | A first transmission changes neither round trip time nor congestion epoch nor the rest of the heap; any other doubles the round trip time up to the timeout, makes the present window the old maximum, starts an epoch and rebuilds the heap from live records |
| Sending.DoubledIsPower | native/local_tsclientlib/tsproto/src/resend.rs:764-768 | After some losses the round trip time is multiplied by a power of two, and cut off at the timeout |
| Sending.Resender.PollResend | native/local_tsclientlib/tsproto/src/resend.rs:670-785 | On all sound queues: the loop ends whatever the socket does; every transmission is of an outstanding packet no older than the timeout with at most a window of outstanding ones before it; exactly the records sent are marked as sent; each loss doubles the round trip time and moves window and epoch, no loss leaves them, and if heap and maps agreed the losses are the records that had been sent before; it idles only when nothing in the heap is due, and times out exactly when a most urgent entry is due and too old. While labels came in order, also: none is sent twice and first transmissions are in order |
| Sending.SendingLeavesFewerWaiting | native/local_tsclientlib/tsproto/src/resend.rs:745-779 | Each transmission lowers the number of records not yet sent at this time, the measure of the loop |
| Sending.SendingLeavesFewerOutdated | native/local_tsclientlib/tsproto/src/resend.rs:745-779 | With repeated entries, a transmission lowers the number of records not yet sent at this time or the number of outdated entries: the measure of the loop |
| Sending.FirstTransmissionsInOrder | native/local_tsclientlib/tsproto/src/resend.rs:753-779 | Whatever a call sent, all outstanding packets of the type below it were sent before or by the same call |
| Refinement.NewIsCoupled | native/local_tsclientlib/tsproto/src/resend.rs:383-412 | A new codec and resender are coupled to the initial state of the system: the records of a type are the outstanding packets under their labels, the codec has numbered the packets of the log, the queues are sound |
| Refinement.Deliver | native/local_tsclientlib/tsproto/src/packet_codec.rs:44-253 | The codec handles a datagram as the delivery step of the system does: same receiver state, same commands handed up, same ack |
| Refinement.Send | native/local_tsclientlib/tsproto/src/connection.rs:337-357 | Encoding a command and handing its packets to the resender is the sending step; the coupling is kept through every turn of the ids |
| Refinement.Poll | native/local_tsclientlib/tsproto/src/resend.rs:670-785 | A poll is a number of transmission steps, each enabled, with any bound of the congestion window as window; the coupling is kept |
| Refinement.Ack | native/local_tsclientlib/tsproto/src/resend.rs:424-473 | An ack is the ack step of the system; the coupling is kept. The report that everything up to a packet is acknowledged is true if and only if the first packet still outstanding does not have id 65535 |
| Refinement.PollTransmits | native/local_tsclientlib/tsproto/src/resend.rs:670-785 | Whatever record the resender may send, the system may transmit the packet with that label, with any bound of the congestion window as window |
| Refinement.AckRemoves | native/local_tsclientlib/tsproto/src/resend.rs:444-456 | What the resender removes for an ack is what the system removes |
| Refinement.ReportIsTrueExactly | native/local_tsclientlib/tsproto/src/resend.rs:430-443 | A report below the first record is a report below the first outstanding packet if and only if that does not have id 65535 |
| Refinement.RebuiltHoldsExactly | native/local_tsclientlib/tsproto/src/resend.rs:569-615 | A rebuilt heap of one type holds a packet if and only if the system may transmit it with as large a window |
| Refinement.FarPacketIsInHeap | native/local_tsclientlib/tsproto/src/resend.rs:620-634 | In the state in which the system loses a packet with a window of 32568, a rebuilt heap of that size does hold that packet |
| Links.TransmitsAreSteps | native/local_tsclientlib/tsproto/src/resend.rs:670-785 | The transmissions of a poll, one after the other, are steps of a run |
| Links.Link.constructor | native/local_tsclientlib/tsproto/src/connection.rs:165-175 | A new client and server, or the other way round, for any growth of the congestion window and any bound of it |
| Links.Link.Send | native/local_tsclientlib/tsproto/src/connection.rs:337-357 | Whatever was called before, sending is a step that continues the run |
| Links.Link.Poll | native/local_tsclientlib/tsproto/src/resend.rs:670-785 | So are the transmissions of a poll |
| Links.Link.Deliver | native/local_tsclientlib/tsproto/src/packet_codec.rs:44-253 | So is the arrival of a datagram |
| Links.Link.Ack | native/local_tsclientlib/tsproto/src/resend.rs:424-473 | So is an ack |
| Links.Link.Reliable | native/local_tsclientlib/tsproto/src/resend.rs:620-634 | For the objects themselves, after any calls: if the run was orderly, what was handed up is a prefix of the commands sent; if also the acks were timely and the congestion window never exceeds 32567, each packet sent is still kept by the resender or was accepted by the receiver |
| Channels.AddSplices | native/local_tsclientlib/utils/ts-bookkeeping/src/data.rs:278-283 | Adding a channel after a sibling gives the chain with the channel spliced in, and no other chain changes |
| Channels.RemoveSplices | native/local_tsclientlib/utils/ts-bookkeeping/src/data.rs:284-292 | Removing a channel gives the chain without it, and no other chain changes |
| Channels.MoveSplices | native/local_tsclientlib/utils/ts-bookkeeping/src/data.rs:670-700 | Moving a channel within or across parents gives the chains with it taken out and spliced in |
| Channels.AddKeepsChainsExactly | native/local_tsclientlib/utils/ts-bookkeeping/src/data.rs:626-649 | The links form chains after an insertion if and only if the order is 0 or a sibling |
| Channels.MoveKeepsChainsExactly | native/local_tsclientlib/utils/ts-bookkeeping/src/data.rs:670-700 | The same for a move, with a sibling other than the channel itself |
| Channels.ChainedHaveOneFollower | native/local_tsclientlib/utils/ts-bookkeeping/src/data.rs:604-649 | In a chained book at most one channel matches each search, so the first match found is the only one |
| Channels.SecondInsertChangesNothing | native/local_tsclientlib/utils/ts-bookkeeping/src/data.rs:651-656 | The second insertion for a created channel finds nothing to change |
| Channels.Book.OrderRemove | native/local_tsclientlib/utils/ts-bookkeeping/src/data.rs:604-624 | At most one channel is relinked, and the change is logged with the old order |
| Channels.Book.OrderInsert | native/local_tsclientlib/utils/ts-bookkeeping/src/data.rs:626-649 | At most one channel is relinked, and the change is logged with the old order |
| Channels.Book.AddChannel | native/local_tsclientlib/utils/ts-bookkeeping/src/data.rs:278-283 | In a chained book the channels are relinked and the new one is put in; a replaced channel is returned |
| Channels.Book.RemoveChannel | native/local_tsclientlib/utils/ts-bookkeeping/src/data.rs:284-292 | In a chained book the channel is taken out and the gap closed; an unknown channel changes nothing |
| Channels.Book.Created | native/local_tsclientlib/utils/ts-bookkeeping/src/data.rs:651-656 | The two insertions for a created channel are one splice in a chained book |
| Channels.Book.Move | native/local_tsclientlib/utils/ts-bookkeeping/src/data.rs:670-700 | A move with its parent field set is the move of the chains; without order and parent nothing happens; an unknown channel is refused; every change is logged with the old order |
| Channels.OneChangedIsUndone | native/local_tsclientlib/utils/ts-bookkeeping/src/data.rs:604-649 | Putting back the logged old order undoes a change; so the log of a move undoes it |
| SlidingMinimum.ClockDifference | native/local_tsclientlib/tsclientlib/src/audio.rs:143-158 | The wrapping 8 bit clock measures ages below 256 exactly |
| SlidingMinimum.FrontAge | native/local_tsclientlib/tsclientlib/src/audio.rs:143-158 | The front has left the window if and only if its wrapped age is at least the size |
| SlidingMinimum.SlidingWindowMinimum.Push | native/local_tsclientlib/tsclientlib/src/audio.rs:143-158 | Over any history the queue keeps strictly increasing values that cover the window |
| SlidingMinimum.SlidingWindowMinimum.GetMin | native/local_tsclientlib/tsclientlib/src/audio.rs:160-160 | For every size from 1 to 255 and any history: the minimum of the last size pushes, or 0 |
| Audio.DeviationIsNatural | native/local_tsclientlib/tsclientlib/src/audio.rs:219-223 | The maximum of the window is not below its minimum, so the subtraction does not underflow |
| Audio.AudioQueue.GetDeviation | native/local_tsclientlib/tsclientlib/src/audio.rs:219-223 | The smallest of the last 255 sizes, and the largest minus the smallest of them |
| Audio.MissingIsNatural | native/local_tsclientlib/tsclientlib/src/audio.rs:321-329 | The number of missing packets up to the last buffered one is never negative |
| Audio.MissingCounts | native/local_tsclientlib/tsclientlib/src/audio.rs:321-329 | It is the number of ids up to the last buffered one at which no packet is buffered |
| Audio.StillBufferingMeans | native/local_tsclientlib/tsclientlib/src/audio.rs:272-278 | Without a turn of the ids, a packet behind the last one lowers the samples still to buffer by its own and those of the packets lost between, any other one does not |
| Audio.StillBufferingAtTurn | native/local_tsclientlib/tsclientlib/src/audio.rs:272-278 | After id 65535 every packet counts, with as many lost ones as its id says |
| Audio.AdvanceKeepsOrder | native/local_tsclientlib/tsclientlib/src/audio.rs:390-405 | Moving on past a lost packet keeps the buffered ids in increasing wrapped order, at most 50 ahead |
| Audio.TruncateKeepsOrder | native/local_tsclientlib/tsclientlib/src/audio.rs:415-440 | So does dropping the front and continuing with the first id left |
| Audio.InsertKeepsOrder | native/local_tsclientlib/tsclientlib/src/audio.rs:262-280 | So does insertion at the place that was found |
| Audio.DifferenceComparesOffsets | native/local_tsclientlib/tsclientlib/src/audio.rs:262-270 | Comparing ids by their wrapped difference compares their distance from the next id |
| Audio.DuplicateIsAtPlace | native/local_tsclientlib/tsclientlib/src/audio.rs:262-272 | An id is buffered if and only if it is buffered at its place |
| Audio.NearerAfterAdvance | native/local_tsclientlib/tsclientlib/src/audio.rs:393-405 | Once an id was taken or given up every buffered id is less than 50 ahead |
| Audio.AudioQueue.AddBufferSize | native/local_tsclientlib/tsclientlib/src/audio.rs:209-217 | Both windows get the same value, if it fits |
| Audio.AudioQueue.AddPacket | native/local_tsclientlib/tsclientlib/src/audio.rs:225-280 | A packet is added if and only if there is room, its length can be read and is allowed, it is at most 50 ahead and not buffered yet; then it is at its place, the cached sum counts it and the samples still to buffer go down by its share; otherwise nothing changes, and the first of these reasons is the error |
| Audio.AudioQueue.FindPlace | native/local_tsclientlib/tsclientlib/src/audio.rs:262-270 | The search from the back finds the place of an id |
| Audio.AudioQueue.DecodePacket | native/local_tsclientlib/tsclientlib/src/audio.rs:282-343 | Loss counter, decoded length and the buffer size measured, for decoded, lost, forward corrected and failing packets, with the order and the sum kept |
| Audio.AudioQueue.DecodeNext | native/local_tsclientlib/tsclientlib/src/audio.rs:385-411 | The next packet is taken or noticed as missing; the order and the sum are kept through losses and decode errors; the assertion fails if and only if the front is 50 ids ahead |
| Audio.AudioQueue.Truncate | native/local_tsclientlib/tsclientlib/src/audio.rs:412-446 | A buffer that stays too full keeps its longest tail below the limit; order and sum are kept |
| Audio.AudioQueue.DecodeRound | native/local_tsclientlib/tsclientlib/src/audio.rs:385-455 | One round keeps all invariants and ends exactly with a stream that ends, a decoder error or no samples. Otherwise, with the smallest of the last 255 sizes above 25 frames the longest tail below that and 960 samples is kept; else, with it above the deviation one sample in a hundred of the decoded packet is cut; else nothing is |
| Audio.AudioQueue.GetNextData | native/local_tsclientlib/tsclientlib/src/audio.rs:345-466 | All invariants hold at the end of every call, and a returned frame lies in the decoded data. For every queue, length and decoder: it buffers exactly while samples are to be buffered and time is left; without need nothing is decoded; the assertion of debug builds fails if and only if a packet has to be decoded and the front is 50 ids ahead; the slice is never out of range if packets and decoder answers carry samples |
| Audio.AudioQueue.AcceptsAndTrips | native/local_tsclientlib/tsclientlib/src/audio.rs:246-398 | A packet 50 ids ahead is accepted into an empty queue, and the next call that decodes fails the assertion |
| CommandText.EscapeIsUndone | native/local_tsclientlib/utils/tsproto-packets/src/packets.rs:964-985 | Each escape is undone by the meaning of its second character and contains no stop |
| CommandText.EscapedCharactersAre | native/local_tsclientlib/utils/tsproto-packets/src/packets.rs:964-985 | The nine characters that are escaped, and how |
| CommandText.UnescapeEscaped | native/local_tsclientlib/utils/tsproto-packets/src/commands.rs:121-148 | Unescaping undoes escaping for every text |
| CommandText.UnescapedLength | native/local_tsclientlib/utils/tsproto-packets/src/commands.rs:121-148 | Unescaping takes away one byte for each escape, a lone backslash at the end included |
| CommandText.NoEscapesNoChange | native/local_tsclientlib/utils/tsproto-packets/src/commands.rs:150-155 | Without escapes the raw text is the value |
| CommandText.ParserCountsEscapes | native/local_tsclientlib/utils/tsproto-packets/src/commands.rs:90-110 | The count kept by the parser is the number of escapes of the value it cut out |
| CommandText.ParsedValueUnescapes | native/local_tsclientlib/utils/tsproto-packets/src/commands.rs:90-155 | For every value the parser produces, unescaping yields exactly raw length minus escapes bytes, and the shortcut for values without escapes agrees with it |
| CommandText.NextItemMeans | native/local_tsclientlib/utils/tsproto-packets/src/commands.rs:66-112 | On any text: blanks are skipped, a bar is an item, a name goes up to a space, bar or equals sign, and a value up to a blank or bar |
| CommandText.CommandNameMeans | native/local_tsclientlib/utils/tsproto-packets/src/commands.rs:33-51 | On any text: the command name is the letters and digits at its start, if a space or nothing follows, and empty otherwise |
| CommandText.CommandParser.constructor | native/local_tsclientlib/utils/tsproto-packets/src/commands.rs:33-51 | The loop finds the end of the command name: the first space after alphanumeric characters, or none |
| CommandText.CommandParser.Next | native/local_tsclientlib/utils/tsproto-packets/src/commands.rs:66-112 | The index driven parser computes the recursive definition and ends on every input |
| CommandText.CommandParser.ReadValue | native/local_tsclientlib/utils/tsproto-packets/src/commands.rs:90-110 | The value loop cuts out the value and counts its escapes |
| CommandText.Unescape | native/local_tsclientlib/utils/tsproto-packets/src/commands.rs:121-148 | The unescaping loop computes the recursive definition |
| CommandText.OutCommand.WriteEscaped | native/local_tsclientlib/utils/tsproto-packets/src/packets.rs:964-985 | The escaping loop appends the escaped value |
| CommandText.OutCommand.WriteBinArg | native/local_tsclientlib/utils/tsproto-packets/src/packets.rs:996-1007 | An argument is appended, with a space unless it is first in its part |
| CommandText.OutCommand.WriteArg | native/local_tsclientlib/utils/tsproto-packets/src/packets.rs:1009-1024 | The same for formatted arguments: the equals sign is taken back exactly if nothing was written |
| CommandText.AppendedMeans | native/local_tsclientlib/utils/tsproto-packets/src/packets.rs:996-1024 | Where the space, the equals sign and the bar are written |
| CommandText.ItemIsRead | native/local_tsclientlib/utils/tsproto-packets/src/commands.rs:66-112 | From the place where an item was written the parser reads that item and stops where the next one was written |
| CommandText.GivenNameIsReadExactly | native/local_tsclientlib/utils/tsproto-packets/src/commands.rs:33-51 | A command name that is not empty is read back if and only if it is alphanumeric and the first item, if any, is an argument |
| CommandText.EmptyNameIsReadExactly | native/local_tsclientlib/utils/tsproto-packets/src/commands.rs:33-51 | An empty command name is read back if and only if the first item does not look like a name: an argument with alphanumeric name and no value that ends the text or its part |
| CommandText.CommandRoundTrip | native/local_tsclientlib/utils/tsproto-packets/src/commands.rs:33-112 | Parsing what was written yields the same name and items, for any name, legal argument names and arbitrary values, if and only if the name survives: an alphanumeric one before an argument or nothing, an empty one unless the first item looks like a name |
| BigEndian.NumberAt | native/local_tsclientlib/utils/tsproto-packets/src/packets.rs:638-721 | A number that fits is read back where it was written |
| BigEndian.BytesAreKept | native/local_tsclientlib/utils/tsproto-packets/src/packets.rs:638-721 | What was read as a number is written as the same bytes |
| BigEndian.MostSignificantFirst | native/local_tsclientlib/utils/tsproto-packets/src/packets.rs:638-721 | The first byte counts most |
| Voice.WriteNumbers | native/local_tsclientlib/utils/tsproto-packets/src/packets.rs:1159-1164 | The loop over a whisper list appends its numbers |
| Voice.New | native/local_tsclientlib/utils/tsproto-packets/src/packets.rs:1143-1184 | The content of a voice packet, as laid out by the recursive definition |
| Voice.NumbersAt | native/local_tsclientlib/utils/tsproto-packets/src/packets.rs:708-719 | A list of numbers is read back where it was written |
| Voice.VoiceRoundTrip | native/local_tsclientlib/utils/tsproto-packets/src/packets.rs:638-721 | A receiver gets the voice packet that was written if and only if a whisper to a group is not empty and the whisper lists have fewer than 256 entries |
| Voice.ParsedIsWritten | native/local_tsclientlib/utils/tsproto-packets/src/packets.rs:638-721 | Whatever bytes were parsed, writing the result yields the same bytes |
| Voice.ParseFailsExactly | native/local_tsclientlib/utils/tsproto-packets/src/packets.rs:638-721 | Exactly when parsing fails, and with which error |
| Voice.WrittenMeans | native/local_tsclientlib/utils/tsproto-packets/src/packets.rs:1143-1184 | Where id, sender, codec, lists, target and data stand |
| FloodBudget.FloodCost | native/src/lib.rs:244-292 | No cost exceeds the degraded capacity |
| FloodBudget.PricesAreOrdered | native/src/lib.rs:237-292 | A text message is the most expensive and a mute update the cheapest control command, a rename the most expensive state update; moderation costs as much as a text message, file commands as much as a file handshake |
| FloodBudget.PricesAre | native/src/lib.rs:244-292 | Each price, by the commands that have it |
| FloodBudget.CommandBudget.constructor | native/src/lib.rs:360-370 | A new budget is full |
| FloodBudget.CommandBudget.EnterDegraded | native/src/lib.rs:380-388 | Degraded capacity and rate, no tokens, for 30 seconds; the time of the last refill stays |
| FloodBudget.CommandBudget.Refill | native/src/lib.rs:390-405 | The end of degraded mode and the refill for the time passed, if any |
| FloodBudget.CommandBudget.Enqueue | native/src/lib.rs:407-421 | The new command replaces the first one it supersedes, or is appended, dropping and counting the front of a full queue |
| FloodBudget.CommandBudget.TakeReady | native/src/lib.rs:424-434 | The front command is released and paid if the tokens suffice after the refill |
| FloodBudget.RefillKeepsOk | native/src/lib.rs:390-405 | Tokens stay between 0 and the capacity, in and out of degraded mode |
| FloodBudget.RefillMeans | native/src/lib.rs:390-405 | A refill gains 3 tokens a second up to 8, or 0.5 a second up to 2 until 30 seconds after a report, at which the full rate returns |
| FloodBudget.ReportMeans | native/src/lib.rs:380-388 | A report takes all tokens and starts 30 slow seconds |
| FloodBudget.RateIsBounded | native/src/lib.rs:346-434 | Over any steps in an interval from t1 to t2, the cost released is at most 8 + 3 (t2 - t1); at most 2 + 0.5 (t2 - t1) while degraded mode lasts |
| FloodBudget.NoLongWait | native/src/lib.rs:346-434 | Without a flood report a command waits at most 4 seconds: however often the budget was asked in vain since a refill, 4 seconds after it the front command is released |
| FloodBudget.WaitAfterReport | native/src/lib.rs:380-388 | After a flood report the front command is released if and only if 2 seconds a token have passed since the last refill, which may lie before the report |
| FloodBudget.QueueStaysOk | native/src/lib.rs:407-421 | The queue never exceeds 32 and holds at most one command of each superseding kind |
| FloodBudget.EnqueueMeans | native/src/lib.rs:298-324 | Each of the ten kinds of state replaces the first waiting command of its kind in its place; any other command goes to the end, at the cost of the front if 32 wait |
| FloodBudget.Conservation | native/src/lib.rs:407-434 | Over every run each command put in is exactly one of released, waiting, superseded or dropped |
| FloodBudget.LeftIsReleasedOrDropped | native/src/lib.rs:407-434 | What left at the front was released or dropped |
| FloodBudget.OrderIsKept | native/src/lib.rs:298-324 | Over every run commands that nothing supersedes leave in the order they were put in, and of each kind the last to leave or wait is the last put in |
| FloodBudget.ContentIsKept | native/src/lib.rs:298-324 | Over every run, messages, pokes, moderation, file and channel commands leave or wait exactly as they were given, kind by kind and in order, and none is superseded |
| Licenses.ParseBlocks | native/local_tsclientlib/tsproto/src/license.rs:178-190 | The parsing loop computes the recursive definition |
| Licenses.ParseInternal | native/local_tsclientlib/tsproto/src/license.rs:167-193 | Version check and parsing loop |
| Licenses.ParseExactly | native/local_tsclientlib/tsproto/src/license.rs:167-224 | Parsing yields given blocks if and only if the version is 0 or 1, there are at most eight, they tile the data exactly, and each parses in its place, is valid now if that is checked, and lies in the time of the one before |
| Licenses.TimesAreNested | native/local_tsclientlib/tsproto/src/license.rs:208-221 | In a parsed license the validity of each block lies inside that of every earlier one |
| Licenses.ParsedIsValid | native/local_tsclientlib/tsproto/src/license.rs:195-224 | In a parsed license the number at byte 34 of each block is not in the future and that at byte 38 not in the past, if that was checked; and each block starts no earlier and ends no later than those before |
| Licenses.ParseStops | native/local_tsclientlib/tsproto/src/license.rs:178-224 | The error at a block, in order: a ninth block, a block that cannot be read, one that is expired or not yet valid, one outside the time of the one before |
| Licenses.ExpiredIsRefused | native/local_tsclientlib/tsproto/src/license.rs:167-224 | Another version is refused, and so is a readable first block that starts after or ends before the present, if that is checked |
| Licenses.TimeIsIgnored | native/local_tsclientlib/tsproto/src/license.rs:203-212 | Without the check the present does not matter |
| Licenses.BlockAtMeans | native/local_tsclientlib/tsproto/src/license.rs:336-421 | What a block is by the bytes at fixed positions: length, key kind, type, and the null byte that ends it |
| Licenses.PropertiesFollow | native/local_tsclientlib/tsproto/src/license.rs:394-412 | Properties follow each other, each as long as its first byte says, with a byte left after each |
| Licenses.PropertyMeans | native/local_tsclientlib/tsproto/src/license.rs:508-573 | Exactly when a property is an issuer or max clients, and what it says |
| Licenses.BlockStays | native/local_tsclientlib/tsproto/src/license.rs:336-421 | A block that was parsed is parsed again, to the same, when more data follows |
| Licenses.BuildingIsParsing | native/local_tsclientlib/tsproto/src/license.rs:270-303 | Parsing only the blocks a builder appended, from the last bounds on, gives what parsing the whole data gives |
| Licenses.Build | native/local_tsclientlib/tsproto/src/license.rs:270-303 | The same for the method, whenever and however strictly the old blocks were parsed |
| Licenses.BlockIsRead | native/local_tsclientlib/tsproto/src/license.rs:336-505 | Where a block was laid out, the parser finds its length, times and properties or refuses it, exactly as the type and what follows say; of a parsed block the accessors find issuer and max clients, but never max clients among properties |
| Licenses.LayoutMeans | native/local_tsclientlib/tsproto/src/license.rs:716-842 | Where the bytes of a built block are |
| Licenses.BuildRoundTrip | native/local_tsclientlib/tsproto/src/license.rs:270-303 | Any list of built blocks of any type can be parsed if and only if there are no more than eight, none is of type website or code, the last one has no properties of version 5, and each is valid and inside the time of the one before; all fields are recovered but max clients of version 5. The count and lengths of the properties fit into their bytes |
| Licenses.PropertiesAreRead | native/local_tsclientlib/tsproto/src/license.rs:394-412 | Properties that were written one after the other are found at their offsets if and only if there are none or more data follows the last one |
| Licenses.PropertiesAreFound | native/local_tsclientlib/tsproto/src/license.rs:457-511 | Among built properties the first issuer is found, and max clients never: they are written with a length of 6 and expected with one of 4 |
| Licenses.CountIsCutOff | native/local_tsclientlib/tsproto/src/license.rs:777-790 | Once the 256th property is written the count is zero: the parser finds no property and goes on in the middle of the block |
| Licenses.TimeIsRecoveredExactly | native/local_tsclientlib/tsproto/src/license.rs:748-754 | A time written into a block is recovered if and only if it lies in the 2^32 seconds from the offset on |
| Licenses.LicenseBuilder.AddBlock | native/local_tsclientlib/tsproto/src/license.rs:732-739 | A zeroed block of its minimum length with its type byte is appended: the layout of a blank block |
| Licenses.LicenseBuilder.PublicKey | native/local_tsclientlib/tsproto/src/license.rs:742-746 | Writing in place changes the key of the last block and nothing else |
| Licenses.LicenseBuilder.NotValidBefore | native/local_tsclientlib/tsproto/src/license.rs:748-758 | Writing in place changes the start of the last block and nothing else |
| Licenses.LicenseBuilder.NotValidAfter | native/local_tsclientlib/tsproto/src/license.rs:748-762 | Writing in place changes the end of the last block and nothing else |
| Licenses.LicenseBuilder.ServerLicenseType | native/local_tsclientlib/tsproto/src/license.rs:765-775 | Writing in place changes the license type of the last block and nothing else |
| Licenses.LicenseBuilder.AddProperty | native/local_tsclientlib/tsproto/src/license.rs:777-790 | A property is counted and appended to the last block, with count and length cut to a byte, and nothing else changes |
| Licenses.LicenseBuilder.MaxClients | native/local_tsclientlib/tsproto/src/license.rs:793-811 | Writing in place changes the max clients of the last block and nothing else; in a block of version 5 a property is appended |
| Licenses.LicenseBuilder.WriteIssuer | native/local_tsclientlib/tsproto/src/license.rs:814-842 | The issuer is inserted before the final null byte of the last block, or appended as a property, and nothing else changes |

## Left out

- Sockets, timers, wakers, event listeners and logging: the socket's answers, the clock and the network are parameters or free choices of a run.
- Fragments.CompressAndSplit: whisper packets, which are exempt from splitting.
- Encryption and decryption: ideal, a packet decrypts only under the generation it was encrypted under; the hash of the key cache is a parameter.
- QuickLZ and Opus: QuickLZ is a pair of functions with one law, Opus a parameter that answers each decoder call.
- The CUBIC formula of the congestion window: any function, clamped to 1..32767 as in the program.
- The unencrypted packets of the handshake (fake encryption, init and clientek acks, the client's ack of id 1), init packet restarts and the ping bookkeeping.
- Sending.Resender.SendPacket: the order of first transmissions is kept only for labels that come in order; after id 65535 the queues are sound, and they agree again once the heap is rebuilt.
- Sending.Resender.AckPacket: increasing reports are shown for command types while labels come in order and the given next number is the one after the last label.
- Sending.Resender.PollResend: one poll has one time, where the program asks the clock in every round. That nothing is sent twice in one call is shown while labels came in order, and that the losses are the records sent before while heap and maps agree; an entry that is in the heap twice may be sent again.
- Transport.DeliveredIsPrefix: assumes that no packet number reaches 2^48 and that the run is orderly, which is shown of three kinds of runs (Transport.FreshRunIsOrderly, Reliability.QueuedOnceIsFresh, Reliability.FewPacketsAreFresh).
- Reliability.RunLosesNothing: assumes timely acks, besides an orderly run. Runs below number 65336 have them, and longer runs if the network delivers neither an ack nor a command datagram a whole turn of the ids late (Rounds.AtOnceIsTimely, for acks that are not late at all).
- Acks as packets: their own numbers, generations and encryption, by which the program drops many late acks; the system lets any ack ever made arrive. The constructed runs deliver each ack right after it was made.
- The acks implied by the commands initserver, initivexpand2 and clientek, which remove a record without an ack packet: for command packets they are ack steps of the system once the peer has accepted the packet (Reliability.AcceptedIsAcked), and that the peer answers only then is not part of this model; for init packets only the removal by the resender is.
- Ordering.ConsumedInOrderExactly: packet numbers stay a turn below 2^48.
- PacketNumbers.WindowFindsGeneration: the generation wraps around, as in release builds; where debug builds stop is stated separately.
- Receive.PacketCodec.HandleUdpPacket: datagrams of the peer's encrypted commands only; forged, damaged and unencrypted ones are not modelled.
- WindowThreshold.WideWindowLoses: a run of the system; that a resender with this window sends the lost packet is shown of its heap after it was rebuilt.
- The state of a receiver after a fatal error: a run goes on without deliveries.
- Acks, voice and ping packets with their windows, and the packet loss statistics.
- Iteration order of hash maps: any matching channel may be found first.
- Events about channels other than changed orders, and the generated bookkeeping code that sets the parent field of a moved channel.
- Audio.AudioQueue.constructor: the queue starts empty, and the first packet is added by a call of its own; the errors of an unreadable first packet, and whispering.
- Audio.AudioQueue.GetNextData: the samples themselves and the mixing of several queues.
- Audio.AudioQueue.AddPacket: the sample count of a packet is given, reading it from Opus data is not part of this model.
- Text is a sequence of characters, one for each byte; UTF-8 and the parsing of values into numbers.
- Voice.Parse: an unknown codec in a client packet of three or four bytes, for which the program indexes past the end while making the error.
- Packet headers: only the content of voice packets and the flags that matter for fragments.
- FloodBudget.CommandBudget.Refill: tokens and times are reals, without 32 bit floating point rounding.
- Licenses.Issuer: reading a property that is shorter than three bytes, or a number that reaches past its block, is required not to happen; the text is not decoded.
- Licenses.MaxClients: the same.
- Licenses.LicenseBuilder.AddProperty: count and lengths are cut to a byte, as in release builds; debug builds stop there.
- Licenses.BuildRoundTrip: for at most 255 properties in a block and issuers of at most 252 bytes among them; what the parser makes of blocks with a length or count that was cut off is stated for 256 properties only.
- License public and private keys and the expiry of a license after parsing.
- File transfer, the event loop, the resolver, the jitter buffer of the platform and all foreign function entry points.
