# A Dafny model of dimpl and p2p-core

`dimpl` is a Sans-IO implementation of DTLS 1.2 and 1.3; `p2p-core` is the ICE and SDP
logic beside it. This project models their deterministic cores in Dafny and proves what
those cores are for. `dafny verify dfyconfig.toml` checks all of it.

## What is modelled

- **DTLS 1.3 record layer and flights.** `ReplayWindow`, `RecordNumbers`, `Records`,
  `SendSide`, `ReceiveSide` and `Reassembly` hold the state and its transition functions;
  `Engine` and the classes in `ReplayWindow` and `Reassembly` are the mutable objects, with
  their loops, proved to do what those functions say. `Link` joins two endpoints by a
  network that loses, duplicates and reorders: any record ever sent may arrive at any
  moment, any number of times, or never; the queues are drained at any moment. `Lockstep`
  proves KeyUpdate over it, `Acknowledging` that what a side sends opens at the other and ends
  what it acknowledges, `KeyUpdateRun` gives whole runs, `Stranding` is about updates whose
  ACK is lost, `Unprotected` about records in the clear, `Fragmentation` and `Delivery` treat
  handshake messages and application data end to end, `Ordering` the order in which data is
  handed out, and `PartQueue` joins the queue of datagrams to that of fragments.
- **Datagrams as bytes.** `Framing` cuts a datagram into records and judges them by an
  engine that each of them may change; `Datagrams` joins that to the receiver of `Delivery`
  and to what the two senders pack.
- **DTLS 1.3 client** (`Client13`, `ClientMachine13`): every state function on top of the
  record layer, including HelloRetryRequest and the connected states. `Gate13` is about what
  it accepts, `Speaking13` about what it says, whatever arrives and fails; `Conversation13`
  about the whole transcript of a run without errors, `Serving13` about the connected states.
- **DTLS 1.2 client and server** (`Messages12`, `Client12`, `Server12`): every state
  function, as transition functions and as classes. `Agreement12` joins an honest pair by
  the same kind of network, `Completion12` shows that such a pair never gets stuck, and
  `Gate12` runs each side against arbitrary messages and errors. `Packing12` is the DTLS 1.2
  sender of records: packing, flights, fragmentation.
- **Key derivation** (`KeyDerivation`): the TLS 1.2 PRF, HKDF-Expand and the label encoding
  over an abstract HMAC.
- **ICE and SDP** (`CheckList`, `Text`, `CandidateLine`, `Sdp`).

## How the main results hang together

Record numbers never repeat under a key, as long as no key is installed twice and the
handshake counter is not reset after it has moved (`SendSide.RecordNumbersUnique`). The
client state machine sees to the first, and to the second except behind one failing
transition (`Gate13.ClientNumbersUnique`, `Gate13.NumbersUniqueExact`). So a number names one
record, and an ACK that lists it vouches for the entry it was sent with
(`Link.AckSoundness`). So the previous send keys are dropped only after the peer has
rotated, and the epochs of the two ends stay at most one apart
(`Lockstep.EpochsInLockstep`). The receiver keeps four consecutive epochs, which two wire
bits tell apart (`ReceiveSide.EpochWindow`), and with the reconstructed number
(`RecordNumbers.ReconstructionExact`) opens exactly the records it should
(`ReceiveSide.OpenExact`), each once (`Delivery.ExactlyOnce`), and hands application data
out by epoch and number (`Ordering.PolledInOrder`). An ACK goes out under an epoch the peer can open as soon as it
has reached it (`Acknowledging.SentOpens`), and ends the update it is about
(`Acknowledging.UpdateAcknowledged`), so that updates can follow one another
(`Acknowledging.UpdateCompletes`).

A class method whose contract equates the new state with a function of the old one is the
code of the source; the row of that method says what the function means, and the lemmas
about the function say why that is right. Byte layouts are stated by readers of their own,
which the writers do not use: nonces (`RecordNumbers.NonceExact`), ACKs (`Records.AckLayout`)
and HKDF labels (`KeyDerivation.LabelLayout`).

## Where the code does not meet the expected property

Each of these is stated as what the code does, with the exact condition where there is one.

- A HelloRetryRequest resets the handshake record counter whether or not its keys exist
  (`sdk/crates/dimpl/src/dtls13/engine.rs:1893-1902`); once the counter has moved, the next
  record repeats a number (`SendSide.ResetExact`, `SendSide.LateResetRepeats`). The client
  installs keys before it parses the records buffered for them, and passes the ServerHello's
  number only after that (`sdk/crates/dimpl/src/dtls13/client.rs:655-664`,
  `sdk/crates/dimpl/src/dtls13/engine.rs:2077-2104`): when such a record cannot be parsed, the
  client still awaits a ServerHello, with keys held, and accepts a HelloRetryRequest. Its
  numbers stay apart exactly when it accepts none after it has sealed records under those
  keys (`Gate13.NumbersUniqueExact`; `Gate13.LateResetRun` is a run in which it does).
- The answer to a peer's KeyUpdate is sent without looking at whether an own update is in
  flight, although starting one is guarded. Two updates then overlap, the first is no
  longer retransmitted, and the epochs are two apart (`Lockstep.UnguardedExact`,
  `Lockstep.UnguardedResponseLosesStep`; `KeyUpdateRun.UnguardedAnswerRun` is a run from two
  new engines). The guard is exactly what is missing: with it, and only with it, the sender
  keeps step with every receiver it may be facing (`Lockstep.GuardExact`). The lockstep
  results hold for runs in which the answer is guarded too.
- A KeyUpdate that is sent again after the peer has read it stays in flight for good: ACKs
  name the number it had before, and the peer does not track a copy of what it has read. No
  further update can then be started (`Stranding.ResendStrandsExact`,
  `Stranding.StrandedForever`; `Stranding.StrandedRun` is a run that ends so).
- A send that fails on a full transmit queue has already saved its flight entry, under a
  number the next record takes (`Link.FullQueueMisleads`, and `Link.FullQueueRun` as a run).
- ACKs and close_notify alerts are acted on in the clear, with keys installed or not
  (`Unprotected.ClearRecordExact`); such a close_notify shuts out every sealed record that
  follows (`Unprotected.ClearCloseSilences`).
- At exactly half a window, reconstruction decides by the low bits of the expected number.
- Fragments of a message are told apart by offset alone. With two different ones of the same
  offset the queue depends on arrival order, exactly unless one whole message is among them
  and no other (`Reassembly.OrderExact`; `Reassembly.MixedFragmentationsDependOnOrder` is an
  instance).
- Reassembly runs on into a following message, exactly when the item behind the message's own
  fragments has its type (`Reassembly.SwallowExact`; `Reassembly.NeighbourSwallowed` is an
  instance).
- Replacing a queued datagram by a better copy of its first fragment loses application
  records that were still pending in it (`Delivery.ReplacementLoses`), and so may a reset for
  a HelloRetryRequest; of the records that were queued, nothing else is lost
  (`Delivery.LosslessExact`). Records that open are not queued at all, and can never be
  received again, exactly when their datagram is refused, dropped or fails, or when they lie
  behind a close_notify (`Delivery.ShedExact`). A datagram that leads with a handshake
  message already read is always dropped: application data that shares one with a resent
  KeyUpdate is gone (`Delivery.LeadReadSheds`, `Delivery.ResentUpdateSheds`).
- A datagram that ends in too few bytes for a record fails after its records have moved the
  replay windows: none is delivered, and none can be received again
  (`Datagrams.TailLosesRecords`).
- A datagram led by a KeyUpdate goes in front of queued application data, whatever the
  numbers (`sdk/crates/dimpl/src/dtls13/engine.rs:397-455`); the searches behind it rely on an order that then no longer holds, exactly when
  older data is queued (`Ordering.UpdateGoesFirst`).
- A DTLS 1.3 resend starts fresh datagrams, so that no copy joins its original; a DTLS 1.2
  resend does not (`sdk/crates/dimpl/src/dtls12/engine.rs:491-506`), and joins a queued
  datagram exactly when that has room
  (`SendSide.ResendKeepsDatagrams`, `Packing12.ResendJoinsExact`).
- A DTLS 1.3 fragment takes its size from the last datagram even when that is sealed and the
  fragment then starts a new one, which it does not fill
  (`sdk/crates/dimpl/src/dtls13/engine.rs:1147-1171`; `Fragmentation.FragmentFills`).
- The senders pack as many records into a datagram as fit the MTU, the receivers refuse a
  datagram with more than 8 (DTLS 1.2) or 16 (DTLS 1.3): enough small writes without polling
  in between are lost (`Datagrams.SmallWritesRefused12`, `Datagrams.SmallWritesRefused13`).
- Pair priorities overflow 64 bits for one pair of 32-bit values (`CheckList.PriorityFits`).
  They follow the order of section 6.1.2.3 of RFC 8445, and tell pairs apart, exactly for
  candidate priorities up to 2^31 (`CheckList.OrderExact`, `CheckList.IdentityExact`;
  `CheckList.HighPrioritiesMisorder` is an instance above).
- A candidate whose related address is the word `raddr` is not read back
  (`CandidateLine.LineRoundTrip`).

## Assumptions

- Key derivation, AEAD, signatures, MACs and hashes are symbolic: they do not fail, and
  different inputs give different results. A sealed record opens under its own secret and
  number only; under another epoch's mask its number field reads as an arbitrary value.
- Panics are modelled as failures that stop the operation: a flight of more than twelve
  records (`FlightFull`), a 16-bit epoch or message counter that would overflow
  (`CounterOverflow`; for receive epochs the rotation does nothing). The replacing path of
  fragment insertion would panic at the thirty-third tracked record number; the model stops
  tracking there, as the inserting path does.
- A sealed record that arrives before the peer's encryption is enabled counts as still on
  its way.
- Resends may happen at any moment, which covers timers and resends triggered by
  duplicates. Whether the AEAD limit calls for a KeyUpdate is a free choice.
- In `Completion12` a client has a certificate when the server may ask for one; without one
  the client would panic on the request.
- After an error a side goes on from what the failed transition left: a message read stays
  read and in the transcript, one being written stays in the transcript, one whose body cannot
  be built leaves no trace, and any transition may fail for reasons the model does not look at.
- The two-endpoint ACK and KeyUpdate results exclude runs in which a send fails, and the
  KeyUpdate results start from two connected peers, both of which use the post-handshake
  code of the 1.3 client.
- In the engine classes a receive slot holds its replay window as the unbounded history
  that class `ReplayWindow` is proved to mirror. The fields of the engine are grouped into
  those used for sending and those used for receiving.

## Model

| member | source | states |
|---|---|---|
| `ReplayWindows.NeverTwice` | sdk/crates/dimpl/src/window.rs:19-53 | In any run of arrivals, each checked, decrypted and only then recorded, no number passes twice, nor a number that had passed before the run |
| `ReplayWindows.ForgeriesLeaveNoTrace` | sdk/crates/dimpl/src/window.rs:19-53 | A run lets through exactly what it would let through without the records that fail to decrypt, whatever numbers those name |
| `ReplayWindows.ReplayWindow.constructor` | sdk/crates/dimpl/src/window.rs:15-17 | A new window mirrors the empty history |
| `ReplayWindows.ReplayWindow.Check` | sdk/crates/dimpl/src/window.rs:21-32 | The bitmap test accepts a number exactly when it exceeds the maximum, or is within 63 of it and was never recorded in the unbounded history |
| `ReplayWindows.ReplayWindow.Update` | sdk/crates/dimpl/src/window.rs:36-53 | After shifting and setting bits, bit i is set iff maximum minus i was ever recorded; jumps over 63 leave no stale bit |
| `RecordNumbers.ReconstructionExact` | sdk/crates/dimpl/src/dtls13/engine.rs:2234-2253 | For every number, expected number and field width, the truncated field is read back as the sender's number iff the two are less than half a window apart, or exactly half a window apart on the one side the tie rule picks |
| `RecordNumbers.NonceXor` | sdk/crates/dimpl/src/crypto/dtls_aead.rs:126-134 | The in-place loop leaves the nonce of IV and number, which `NonceExact` pins byte by byte |
| `RecordNumbers.NonceInjective` | sdk/crates/dimpl/src/crypto/dtls_aead.rs:126-134 | Under one IV two different 64-bit numbers never give the same nonce |
| `RecordNumbers.NonceReads` | sdk/crates/dimpl/src/crypto/dtls_aead.rs:126-134 | For every 64-bit number the twelve bytes of nonce XOR IV, read most significant byte first, are that number |
| `RecordNumbers.NonceExact` | sdk/crates/dimpl/src/crypto/dtls_aead.rs:126-134 | Twelve bytes are the nonce of an IV and a 64-bit number iff XORed with the IV they read, most significant byte first, as that number |
| `Records.SecretsDiffer` | sdk/crates/dimpl/src/dtls13/engine.rs:1773-1819 | The chain of traffic secrets of one side gives every epoch its own secret |
| `Records.AckRoundTrip` | sdk/crates/dimpl/src/dtls13/engine.rs:1252-1305 | The ACK decoder reads back exactly the list of record numbers the encoder wrote |
| `Records.AckLayout` | sdk/crates/dimpl/src/dtls13/engine.rs:1252-1275 | An ACK body is a big-endian count of the bytes that follow, then for each record its epoch and its number, eight bytes each, most significant byte first |
| `Records.AckReads` | sdk/crates/dimpl/src/dtls13/engine.rs:1278-1305 | Of any bytes: a body at least as long as its big-endian count announces lists as many pairs of big-endian 64-bit numbers as the count has room for, those at their places; any other lists none |
| `Records.NumberAt` | sdk/crates/dimpl/src/dtls13/engine.rs:1288-1304 | The i-th number of the decoded list is read at byte 16 i, as the loop reads it |
| `Reassembly.InsertKeepsSorted` | sdk/crates/dimpl/src/dtls13/engine.rs:359-455 | Whatever an arriving fragment does (dropped, inserted, replacing), the queue stays strictly sorted by message number and offset |
| `Reassembly.InsertAllKeepsSorted` | sdk/crates/dimpl/src/dtls13/engine.rs:359-455 | The same over any run of arrivals |
| `Reassembly.InsertAllAdmits` | sdk/crates/dimpl/src/dtls13/engine.rs:359-396 | In any run of arrivals only fragments that have arrived, of messages not yet read, are queued, once data is released only KeyUpdates, and the queue never outgrows its bound |
| `Reassembly.OrderInsensitive` | sdk/crates/dimpl/src/dtls13/engine.rs:359-455 | Two runs bringing the same fragments, each in any order and any number of times, leave the same fragments in the same places if, wherever two different fragments share a message number and offset, exactly one whole message is among those that do |
| `Reassembly.OrderExact` | sdk/crates/dimpl/src/dtls13/engine.rs:359-455 | For any set of fragments of messages not yet read that fits the queue: all runs that bring it, in any order and with any repetitions, leave the same queue iff wherever two different fragments share a message number and offset, exactly one whole message is among those that do |
| `Reassembly.WalksAgree` | sdk/crates/dimpl/src/dtls13/engine.rs:728-777 | The three walks, each with its own early returns: with an unhandled head ACK help is needed iff the head message is not complete, a complete one has no gap, and a gap needs help; with no unhandled head all three are false |
| `Reassembly.CompleteIsCoverage` | sdk/crates/dimpl/src/dtls13/engine.rs:728-777 | Within the 50-record cap the head message is complete iff it has the wanted type and number and its queued fragments leave no byte of it uncovered |
| `Reassembly.GapIsHole` | sdk/crates/dimpl/src/dtls13/engine.rs:1400-1443 | Within the 50-record cap there is a gap iff the head is of another number or some byte of its message before a queued fragment of it is covered by none |
| `Reassembly.ReassemblyExact` | sdk/crates/dimpl/src/dtls13/message/handshake.rs:134-213 | A complete message made of pieces of a body, overlapping in any way, reassembles to that body |
| `Reassembly.MixedFragmentationsDependOnOrder` | sdk/crates/dimpl/src/dtls13/engine.rs:403-452 | A concrete instance of the failing case: fragments from two fragmentations in two orders, one ending complete, the other not |
| `Reassembly.NeighbourSwallowed` | sdk/crates/dimpl/src/dtls13/message/handshake.rs:134-213 | Reassembly stops at a change of type, not of number: of two adjacent KeyUpdates the second is consumed unread with the first |
| `Reassembly.SwallowExact` | sdk/crates/dimpl/src/dtls13/message/handshake.rs:134-213 | Reading a complete message marks exactly the run of its type at the front, whatever the message numbers; it takes a fragment of another message with it iff its own fragments, all of that type, are followed in the queue by an item of the same type |
| `Reassembly.HandshakeQueue.constructor` | sdk/crates/dimpl/src/dtls13/engine.rs:201-258 | A new queue is empty, expects message 0 and is not released |
| `Reassembly.HandshakeQueue.Search` | sdk/crates/dimpl/src/dtls13/engine.rs:397-404 | The binary search finds the one position where a fragment belongs, and whether its key is there already |
| `Reassembly.HandshakeQueue.InsertIncomingHandshake` | sdk/crates/dimpl/src/dtls13/engine.rs:342-455 | The update in place does what `Classify` and `Insert` say, and keeps the queue sorted |
| `Reassembly.HandshakeQueue.Head` | sdk/crates/dimpl/src/dtls13/engine.rs:728-743 | First unhandled fragment, and the window of at most 50 behind it |
| `Reassembly.HandshakeQueue.HasCompleteHandshakeWithSeq` | sdk/crates/dimpl/src/dtls13/engine.rs:728-777 | True iff the head has the wanted type and number and the loop, stopping with false at a gap, reaches the length |
| `Reassembly.HandshakeQueue.HandshakeAckHelpNeeded` | sdk/crates/dimpl/src/dtls13/engine.rs:1353-1396 | True iff the head is of another number, or the loop meets a gap or ends before the length is reached |
| `Reassembly.HandshakeQueue.HasGapInIncomingHandshake` | sdk/crates/dimpl/src/dtls13/engine.rs:1400-1443 | True iff the head is of another number, or the loop meets a gap before it reaches the length |
| `Reassembly.HandshakeQueue.NextHandshake` | sdk/crates/dimpl/src/dtls13/engine.rs:779-804 | Nothing changes unless the wanted message is complete; then its body is reassembled and exactly what was read is marked handled |
| `Reassembly.ReadMessage` | sdk/crates/dimpl/src/dtls13/message/handshake.rs:134-213 | The reassembly loop gathers the bytes beyond what it already has, and marks what it passes |
| `SendSide.RecordNumbersUnique` | sdk/crates/dimpl/src/dtls13/engine.rs:925-1107 | In every run of sends, resends, ACKs, key installs, KeyUpdates, failures, and HelloRetryRequest resets that come before keys or before their counter has moved, no two sealed records ever queued share key and number |
| `SendSide.NoncesUnique` | sdk/crates/dimpl/src/crypto/dtls_aead.rs:126-134 | In every such run no two sealed records under one key share a nonce, whatever the IV |
| `SendSide.EmitPlaintextKeeps` | sdk/crates/dimpl/src/dtls13/engine.rs:845-919 | Sending in the clear keeps the invariant behind number uniqueness, also when it fails half way |
| `SendSide.EmitCiphertextKeeps` | sdk/crates/dimpl/src/dtls13/engine.rs:925-1107 | Sending under any held epoch keeps that invariant, also when it fails half way |
| `SendSide.FlightResendKeeps` | sdk/crates/dimpl/src/dtls13/engine.rs:673-722 | Resending the unacknowledged entries under their own epochs keeps it |
| `SendSide.ProcessAckKeeps` | sdk/crates/dimpl/src/dtls13/engine.rs:1278-1338 | Any ACK body, well formed or not, keeps it |
| `SendSide.UpdateSendKeysKeeps` | sdk/crates/dimpl/src/dtls13/engine.rs:1794-1819 | Rotating the send keys keeps it when the flight holds no entry of the epoch before the current one |
| `SendSide.CreateKeyUpdateKeeps` | sdk/crates/dimpl/src/dtls13/engine.rs:1856-1889 | Sending a KeyUpdate and rotating keeps it |
| `SendSide.PerformKeeps` | sdk/crates/dimpl/src/dtls13/engine.rs:673-722 | Every operation allowed where it is taken keeps it |
| `SendSide.ResetExact` | sdk/crates/dimpl/src/dtls13/engine.rs:1893-1902 | With handshake keys installed, resetting their counter leaves the next record unrepeated iff the counter had not moved |
| `SendSide.ZeroUsedAlways` | sdk/crates/dimpl/src/dtls13/engine.rs:1893-1902 | Every state an allowed run reaches meets the assumption of `ResetExact`: a handshake counter that moved has used number 0 |
| `SendSide.LateResetRepeats` | sdk/crates/dimpl/src/dtls13/engine.rs:1893-1902 | A concrete run that resets after the keys exist, and repeats a number |
| `SendSide.DatagramsFit` | sdk/crates/dimpl/src/dtls13/engine.rs:925-1107 | In every run each queued datagram fits the MTU or holds exactly one record |
| `SendSide.AckClearsExact` | sdk/crates/dimpl/src/dtls13/engine.rs:1313-1325 | An ACK clears a flight with epoch-2 entries iff none of them is left neither acknowledged before nor listed now |
| `SendSide.AckRetiresExact` | sdk/crates/dimpl/src/dtls13/engine.rs:1327-1337 | With a KeyUpdate in flight, an ACK retires the previous keys iff it leaves no entry unacknowledged |
| `SendSide.ResendExact` | sdk/crates/dimpl/src/dtls13/engine.rs:673-722 | A resend sends exactly the unacknowledged entries, in order and once each, under their own epochs, and each then stands for the record that carries it; acknowledged entries are untouched |
| `SendSide.ResendKeepsDatagrams` | sdk/crates/dimpl/src/dtls13/engine.rs:673-722 | For every sender, whether or not the resend succeeds: each queued datagram stays as it was, and what is sent goes into fresh datagrams behind them |
| `SendSide.ResendInFreshDatagrams` | sdk/crates/dimpl/src/dtls13/engine.rs:673-722 | When it succeeds those datagrams hold the unacknowledged entries, in order and once each, and nothing else |
| `SendSide.LogLeavesInOrder` | sdk/crates/dimpl/src/dtls13/engine.rs:599-615 | In every run without an abort the records of the datagrams polled, and behind them those still queued, are all that was sent, in order |
| `SendSide.QueuesBounded` | sdk/crates/dimpl/src/dtls13/engine.rs:845-1107 | In every run neither the transmit queue nor the flight outgrows its bound |
| `SendSide.AckMarksExact` | sdk/crates/dimpl/src/dtls13/engine.rs:1278-1338 | An ACK that does not end the flight marks exactly the entries it lists, besides those marked before, and changes nothing else |
| `ReceiveSide.NewestMatchExact` | sdk/crates/dimpl/src/dtls13/engine.rs:2312-2337 | Among at most four consecutive epochs the newest-first search by two bits finds the one meant |
| `ReceiveSide.ResolutionExact` | sdk/crates/dimpl/src/dtls13/engine.rs:2312-2337 | All retained epochs are resolved from two bits iff the handshake keys are gone or no retained epoch has their two bits |
| `ReceiveSide.OpenExact` | sdk/crates/dimpl/src/dtls13/incoming.rs:179-307 | At any moment a genuine record of epoch 2 or an application epoch is opened under its full epoch and number iff the keys of its epoch are held, its two epoch bits do not lead to the handshake keys instead, its number is recoverable from the field, and the number is no replay |
| `ReceiveSide.OpenSound` | sdk/crates/dimpl/src/dtls13/incoming.rs:179-307 | Whatever is opened has the epoch, number and contents it was sealed with |
| `ReceiveSide.OpenedIsNew` | sdk/crates/dimpl/src/dtls13/engine.rs:2354-2390 | What is opened was never accepted before under the same epoch and number |
| `ReceiveSide.CommitKeeps` | sdk/crates/dimpl/src/dtls13/engine.rs:2366-2390 | Recording an opened record keeps the window of epochs valid, its expected number one past the highest recorded |
| `ReceiveSide.UpdateRecvKeysKeeps` | sdk/crates/dimpl/src/dtls13/engine.rs:1824-1849 | Deriving the next receive epoch, evicting the oldest of four, keeps the window valid |
| `ReceiveSide.EpochWindow` | sdk/crates/dimpl/src/dtls13/engine.rs:1824-1849 | After any arrivals and any number of rotations: at most four strictly consecutive epochs, no two with equal low bits, each resolved from its bits once the handshake keys are cleared |
| `ReceiveSide.RotationRetains` | sdk/crates/dimpl/src/dtls13/engine.rs:1824-1849 | After a rotation an epoch is retained iff it is the new one, or was retained and is not the oldest of four; retained epochs keep their keys and windows |
| `ReceiveSide.OpenedIsQueued` | sdk/crates/dimpl/src/dtls13/engine.rs:359-455 | A handshake record that opens, of a message not yet read, has its fragment in the queue afterwards; if it was put there now, the next ACK lists the record, up to 32 |
| `Link.NextKeeps` | sdk/crates/dimpl/src/dtls13/engine.rs:1252-1338 | Every step of two engines over a lossy, duplicating, reordering network, polling the transmit queue and purging the receive queue among them, keeps: accepted records were sent, tracked numbers were accepted, sealed ACKs list accepted records, marked entries were received |
| `Link.RunKeeps` | sdk/crates/dimpl/src/dtls13/engine.rs:1252-1338 | The same over whole runs |
| `Link.AckGenuine` | sdk/crates/dimpl/src/dtls13/engine.rs:1252-1275 | An ACK written from accepted numbers lists accepted numbers only |
| `Link.NumberNamesEntry` | sdk/crates/dimpl/src/dtls13/engine.rs:1303-1311 | If a number that an entry stands for was accepted by the peer, the record accepted carried exactly that entry |
| `Link.AckSoundness` | sdk/crates/dimpl/src/dtls13/engine.rs:1278-1338 | In every run from two new engines, without failed sends, an entry marked acked was received by the peer under the very number it was last sent with |
| `Link.ClearedFlightReceived` | sdk/crates/dimpl/src/dtls13/engine.rs:1313-1326 | A delivered ACK empties a flight with epoch-2 entries only if the peer received every one of them |
| `Link.FullQueueMisleads` | sdk/crates/dimpl/src/dtls13/engine.rs:938-1040 | For every sender: a save that fails on a full queue leaves an entry under a number the next record takes, and the ACK of that record marks both |
| `Link.FullQueueRun` | sdk/crates/dimpl/src/dtls13/engine.rs:938-1040 | A concrete run from a new sender whose queue holds one datagram: the second message is never sent, and the ACK of the third marks it |
| `Link.PurgedExact` | sdk/crates/dimpl/src/dtls13/engine.rs:584-597 | Purging takes exactly the consumed fragments at the front, up to the first that is not |
| `Lockstep.ReadyUpdate` | sdk/crates/dimpl/src/dtls13/client.rs:1075-1105 | A KeyUpdate ready to be read ends the receiver's newest epoch, and the sender has already moved on |
| `Lockstep.NextInLockstep` | sdk/crates/dimpl/src/dtls13/client.rs:1050-1112 | Each step taken with the guard on KeyUpdate responses, draining the queues included, keeps the two directions in step |
| `Lockstep.RunInLockstep` | sdk/crates/dimpl/src/dtls13/client.rs:1050-1112 | The same over whole runs |
| `Lockstep.EpochsInLockstep` | sdk/crates/dimpl/src/dtls13/engine.rs:1794-1889 | In every run from connected peers with guarded responses the sender's epoch equals the receiver's newest or exceeds it by one, equals it with no update in flight, and both sides derived the same secrets |
| `Lockstep.PreviousKeysKept` | sdk/crates/dimpl/src/dtls13/engine.rs:1327-1337 | The ACK that drops the previous keys arrives only after the receiver has rotated past their epoch |
| `Lockstep.ResendUsesOldKeys` | sdk/crates/dimpl/src/dtls13/engine.rs:673-722 | A resent KeyUpdate is one record, under the keys of the epoch it ends, with a number never used under them |
| `Lockstep.UnguardedExact` | sdk/crates/dimpl/src/dtls13/client.rs:1074-1081 | Creating a KeyUpdate while one is in flight keeps the direction in step iff the receiver has already rotated; otherwise the sender ends two epochs ahead and no longer repeats the update the receiver is missing |
| `Lockstep.UnguardedResponseLosesStep` | sdk/crates/dimpl/src/dtls13/client.rs:1050-1081 | Starting an update and then answering the peer's, nothing delivered between, always loses step |
| `Lockstep.GuardExact` | sdk/crates/dimpl/src/dtls13/client.rs:1050-1081 | In the sender's own terms: creating a KeyUpdate keeps step with every receiver the sender may be facing iff no KeyUpdate of its own is in flight, the guard the code puts on starting one and not on answering one |
| `Acknowledging.SentOpens` | sdk/crates/dimpl/src/dtls13/engine.rs:1252-1275 | Over every step of a connected pair in step, resends apart: whatever a side sends, its ACKs among that, opens at the peer with its contents iff the peer has reached the epoch the side was in and the number is recoverable and new there |
| `Acknowledging.UpdateAcknowledged` | sdk/crates/dimpl/src/dtls13/client.rs:1083-1109 | Reading the peer's KeyUpdate, its record tracked, sends one record; delivering that ends the update and its flight iff the peer has reached the epoch it is sent in and can complete its number, new there; otherwise it changes nothing |
| `Acknowledging.UpdateCompletes` | sdk/crates/dimpl/src/dtls13/engine.rs:1794-1889 | From any connected pair in step, when the peer can take in an update and answer it and the side can hear the answer: starting an update, delivering it, reading it and delivering the ACK are possible one after the other, and leave both ends one epoch on, nothing in flight |
| `Acknowledging.HandshakeAckClears` | sdk/crates/dimpl/src/dtls13/engine.rs:1477-1524 | During the handshake, with all of the peer's flight queued and room in the ACK, the ACK sent from the queue ends the flight iff the peer still holds the handshake keys and can complete its number, new there |
| `Acknowledging.AllListed` | sdk/crates/dimpl/src/dtls13/engine.rs:1477-1510 | With room for all, an ACK for the queue lists every epoch-2 record in it |
| `KeyUpdateRun.BothConnect` | sdk/crates/dimpl/src/dtls13/engine.rs:1639-1771 | Installing keys, enabling encryption and releasing data leads two new engines to the connected pair the KeyUpdate results start from |
| `KeyUpdateRun.UnguardedAnswerRun` | sdk/crates/dimpl/src/dtls13/client.rs:1050-1109 | A concrete run from two new engines, for every configuration with room for three datagrams: connect, the server updates, the client reads it, starts an update and answers; it ends out of step, two epochs apart, the missing update no longer repeated |
| `Stranding.StrandedForever` | sdk/crates/dimpl/src/dtls13/engine.rs:1278-1338 | In every continuation with guarded responses a KeyUpdate that the peer has read, and whose record no ACK lists or is to list, stays in flight, and no further update can be started |
| `Stranding.NextStranded` | sdk/crates/dimpl/src/dtls13/engine.rs:378-455 | Every step by either side keeps it so: a resend takes a number never listed, a copy of what has been read is not tracked, and no ACK on its way names the record |
| `Stranding.ResendStrandsExact` | sdk/crates/dimpl/src/dtls13/engine.rs:673-722 | Sending the KeyUpdate in flight again leaves it so iff the peer has already rotated past its epoch |
| `Stranding.StrandedRun` | sdk/crates/dimpl/src/dtls13/client.rs:1050-1109 | A concrete run from two new engines, for every configuration with room for three datagrams: connect, the server updates, the client reads it, the ACK does not come, the update is sent again; it ends so |
| `Unprotected.SettledAlways` | sdk/crates/dimpl/src/dtls13/engine.rs:1278-1338 | In every run of a sender no flight is left that an ACK would have cleared |
| `Unprotected.ClearRecordExact` | sdk/crates/dimpl/src/dtls13/engine.rs:2260-2306 | A record in the clear changes the flight or the close state iff it is not after a noted close_notify and is an ACK listing an unacknowledged entry or the first close_notify; no key has a part in it |
| `Unprotected.ForeignRecordInert` | sdk/crates/dimpl/src/dtls13/incoming.rs:179-307 | A sealed record changes nothing unless it is under a secret the peer's side derived |
| `Unprotected.ClearCloseSilences` | sdk/crates/dimpl/src/dtls13/engine.rs:2261-2267 | After a first close_notify in the clear no sealed record has an effect: no ACK is processed and nothing is queued |
| `Engines.SendingHalf.constructor` | sdk/crates/dimpl/src/dtls13/engine.rs:201-258 | A new sending half |
| `Engines.SendingHalf.CreatePlaintextRecord` | sdk/crates/dimpl/src/dtls13/engine.rs:845-919 | Fields and error end as `EmitPlaintext` says, in the order save, room, counter, queue |
| `Engines.SendingHalf.CreateCiphertextRecord` | sdk/crates/dimpl/src/dtls13/engine.rs:925-1107 | Fields and error end as `EmitCiphertext` says, on every error path |
| `Engines.SendingHalf.SendNumberAndKeys` | sdk/crates/dimpl/src/dtls13/engine.rs:938-980 | Handshake, previous or current counter and keys, by epoch |
| `Engines.SendingHalf.CountRecord` | sdk/crates/dimpl/src/dtls13/engine.rs:1053-1083 | Moves the counter of the epoch and no other, and refuses at 2^48 - 1 |
| `Engines.SendingHalf.HasRoom` | sdk/crates/dimpl/src/dtls13/engine.rs:1024-1031 | Whether the last datagram takes the record |
| `Engines.SendingHalf.Append` | sdk/crates/dimpl/src/dtls13/engine.rs:1085-1102 | The record joins the last datagram or starts a new one, which unseals it |
| `Engines.SendingHalf.CreateHandshake` | sdk/crates/dimpl/src/dtls13/engine.rs:1110-1211 | The fragmentation loop sends the fragments `Fragmentation.CreateHandshake` lists, and ends |
| `Engines.SendingHalf.NextFragment` | sdk/crates/dimpl/src/dtls13/engine.rs:1148-1189 | The fragment that fills the datagram being built, or a new one |
| `Engines.SendingHalf.CreateHandshakeRecord` | sdk/crates/dimpl/src/dtls13/engine.rs:1191-1199 | ClientHello and ServerHello go out in the clear, everything else under epoch 2 |
| `Engines.SendingHalf.PollPacketTx` | sdk/crates/dimpl/src/dtls13/engine.rs:599-615 | Hands out the oldest datagram |
| `Engines.SendingHalf.FlightBegin` | sdk/crates/dimpl/src/dtls13/engine.rs:654-659 | Clears the saved flight |
| `Engines.SendingHalf.FlightResend` | sdk/crates/dimpl/src/dtls13/engine.rs:673-722 | The loop resends the unacknowledged entries in order and puts the flight back with new numbers; a failed send loses it; datagrams queued before stay as they were (`SendSide.ResendKeepsDatagrams`) |
| `Engines.SendingHalf.ResendEntry` | sdk/crates/dimpl/src/dtls13/engine.rs:689-716 | One entry under its own epoch and that epoch's next number |
| `Engines.SendingHalf.CancelFlights` | sdk/crates/dimpl/src/dtls13/engine.rs:1232-1237 | Drops the flight |
| `Engines.SendingHalf.Abort` | sdk/crates/dimpl/src/dtls13/engine.rs:1241-1247 | Drops flight and queued datagrams |
| `Engines.SendingHalf.ProcessAck` | sdk/crates/dimpl/src/dtls13/engine.rs:1278-1338 | The byte loop ends as the ACK decoder and the marking function say; flight and previous keys are dropped only under the two conditions |
| `Engines.SendingHalf.MarkAllListed` | sdk/crates/dimpl/src/dtls13/engine.rs:1291-1311 | The loop over 16-byte groups marks exactly the entries whose numbers the decoded list holds |
| `Engines.SendingHalf.MarkListed` | sdk/crates/dimpl/src/dtls13/engine.rs:1305-1310 | One listed number marks the entries that stand for it |
| `Engines.SendingHalf.Tally` | sdk/crates/dimpl/src/dtls13/engine.rs:1313-1332 | Computes both conditions |
| `Engines.SendingHalf.UpdateSendKeys` | sdk/crates/dimpl/src/dtls13/engine.rs:1794-1819 | Current keys become previous ones; the next epoch starts at 0 |
| `Engines.SendingHalf.InstallHandshakeSendKeys` | sdk/crates/dimpl/src/dtls13/engine.rs:1639-1657 | Epoch-2 send keys, counter 0 |
| `Engines.SendingHalf.InstallApplicationSendKeys` | sdk/crates/dimpl/src/dtls13/engine.rs:1743-1768 | Epoch-3 send keys, counter 0 |
| `Engines.SendingHalf.ResetHandshakeSequence` | sdk/crates/dimpl/src/dtls13/engine.rs:1893-1902 | Resets the handshake counter and nothing else of the sending half |
| `Engines.SendingHalf.CreateKeyUpdate` | sdk/crates/dimpl/src/dtls13/engine.rs:1856-1889 | Clears the flight, sends the message under the old epoch, then rotates; stops at the first error |
| `Engines.ReceivingHalf.constructor` | sdk/crates/dimpl/src/dtls13/engine.rs:201-258 | A new receiving half |
| `Engines.ReceivingHalf.UpdateRecvKeys` | sdk/crates/dimpl/src/dtls13/engine.rs:1824-1849 | Appends the next epoch, evicting the oldest of four |
| `Engines.ReceivingHalf.ResolveEpochBits` | sdk/crates/dimpl/src/dtls13/engine.rs:2312-2337 | The newest-first loop computes the epoch resolution that `ResolutionExact` is about |
| `Engines.ReceivingHalf.FindSlot` | sdk/crates/dimpl/src/dtls13/engine.rs:2339-2352 | Linear search by epoch |
| `Engines.ReceivingHalf.ResolveSequence` | sdk/crates/dimpl/src/dtls13/engine.rs:2339-2352 | Reconstruction against the expected number of the epoch |
| `Engines.ReceivingHalf.ReplayPermits` | sdk/crates/dimpl/src/dtls13/engine.rs:2354-2364 | The replay check of the epoch; an unknown epoch permits nothing |
| `Engines.ReceivingHalf.ReplayUpdate` | sdk/crates/dimpl/src/dtls13/engine.rs:2366-2390 | Records the number and raises the expected one, in that epoch only |
| `Engines.ReceivingHalf.ParseRecord` | sdk/crates/dimpl/src/dtls13/incoming.rs:179-307 | Resolve, check, decrypt, and only after decryption record: nothing changes when the record does not open |
| `Engines.ReceivingHalf.InsertIncomingHandshake` | sdk/crates/dimpl/src/dtls13/engine.rs:359-455 | Queues the fragment and tracks its number for the next ACK |
| `Engines.Engine.constructor` | sdk/crates/dimpl/src/dtls13/engine.rs:201-258 | Two new halves facing the peer |
| `Engines.Engine.SendAck` | sdk/crates/dimpl/src/dtls13/engine.rs:1252-1275 | Sends one ACK for all tracked numbers, under keys the peer can open (`Acknowledging.SentOpens`), and forgets them even when the send fails |
| `Engines.Engine.FlushHandshakeAck` | sdk/crates/dimpl/src/dtls13/engine.rs:1477-1524 | Sends an epoch-2 ACK of the queued epoch-2 records, only during the handshake and only if there are any |
| `Engines.Engine.InstallHandshakeKeys` | sdk/crates/dimpl/src/dtls13/engine.rs:1639-1657 | Installs epoch 2 in both directions |
| `Engines.Engine.InstallApplicationKeys` | sdk/crates/dimpl/src/dtls13/engine.rs:1743-1768 | Installs epoch 3 in both directions |
| `Engines.Engine.ReleaseApplicationData` | sdk/crates/dimpl/src/dtls13/engine.rs:1219-1222 | Releases data and clears the handshake receive keys |
| `Engines.Engine.ResetForHelloRetry` | sdk/crates/dimpl/src/dtls13/engine.rs:1893-1902 | Resets the handshake counter and drops handled records from the receive queue |
| `Engines.Engine.ClassifyRecord` | sdk/crates/dimpl/src/dtls13/engine.rs:2260-2306 | After a close_notify later records are dropped; ACKs are processed, handshake fragments queued |
| `Engines.Engine.ParsePacket` | sdk/crates/dimpl/src/dtls13/engine.rs:332-357 | One arriving record has on the two halves the effect the two-endpoint system gives a delivery |
| `Fragmentation.MinimumMtuProgresses` | sdk/crates/dimpl/src/config.rs:508-514 | The smallest MTU accepted leaves room for a body byte in every handshake record, so fragmentation always ends |
| `Fragmentation.PartsSent` | sdk/crates/dimpl/src/dtls13/engine.rs:1147-1206 | A message sent in full adds flight entries whose fragments tile the body, each carried by one record within the MTU |
| `Fragmentation.TilesConcatenate` | sdk/crates/dimpl/src/dtls13/engine.rs:1147-1206 | Tiling fragments concatenate to the body |
| `Fragmentation.CreateHandshakeKeeps` | sdk/crates/dimpl/src/dtls13/engine.rs:1110-1211 | Sending a handshake message keeps the invariant behind number uniqueness |
| `Fragmentation.FragmentFills` | sdk/crates/dimpl/src/dtls13/engine.rs:1147-1171 | A fragment that does not end its message fills its datagram to the last byte, iff its size was not taken from the room left in a sealed datagram |
| `Fragmentation.HellosInClear` | sdk/crates/dimpl/src/dtls13/engine.rs:1124-1206 | ClientHello and ServerHello leave in the clear, every other handshake message under epoch 2, also when the message does not get out whole |
| `Fragmentation.FragmentsReassemble` | sdk/crates/dimpl/src/dtls13/engine.rs:728-804 | All fragments of a message, in any order and with any repetitions, make it complete and reassemble to its body |
| `Fragmentation.SentMessageIsRead` | sdk/crates/dimpl/src/dtls13/engine.rs:1110-1211 | What `CreateHandshake` sends is read back as sent, whatever order and repetition it arrives in |
| `Fragmentation.CutTiles` | sdk/crates/dimpl/src/dtls12/engine.rs:835-894 | At every MTU from 64 and AEAD overhead up to 24, the DTLS 1.2 loop ends, its fragments tile the body, and each fits the MTU with its headers |
| `Fragmentation.FragmentsReassembleStrictly` | sdk/crates/dimpl/src/dtls12/engine.rs:512-561 | The DTLS 1.2 walk, which demands exact contiguity, finds every tiled message complete, in any arrival order |
| `Packing12.DatagramsFit` | sdk/crates/dimpl/src/dtls12/engine.rs:627-779 | In every run of records, messages, resends, polls and failures the transmit queue keeps to its bound, each datagram fits the MTU or is one record too large by itself that is no handshake fragment, and each epoch's records are numbered from 0 without gap or repetition |
| `Packing12.PerformKeeps` | sdk/crates/dimpl/src/dtls12/engine.rs:627-779 | Every operation keeps that, also when it fails half way |
| `Packing12.PartsSent` | sdk/crates/dimpl/src/dtls12/engine.rs:834-895 | A message sent in full adds saved entries and records, one each, whose fragments tile the body and fit the MTU |
| `Packing12.SentMessageIsRead` | sdk/crates/dimpl/src/dtls12/engine.rs:782-900 | What it sends is found complete by the DTLS 1.2 walk and joined to the body, whatever order and repetition it arrives in |
| `Packing12.WritesCrowd` | sdk/crates/dimpl/src/dtls12/engine.rs:668-773 | Small writes without polling share one datagram while they fit |
| `Packing12.ResendExact` | sdk/crates/dimpl/src/dtls12/engine.rs:491-506 | A resend sends every saved record once more, in order and under its epoch, and nothing else, and keeps the flight |
| `Packing12.ResendJoinsExact` | sdk/crates/dimpl/src/dtls12/engine.rs:491-506 | The datagrams queued stay as they were iff the last has no room for the first record sent again |
| `Packing12.LogLeavesInOrder` | sdk/crates/dimpl/src/dtls12/engine.rs:431-445 | In every run that discards no queued datagram, the records polled, and behind them those still queued, are all that was sent, in order |
| `Packing12.FragmentFills` | sdk/crates/dimpl/src/dtls12/engine.rs:835-866 | A fragment that does not end its message fills its datagram to the last byte |
| `Packing12.FinishedIsSealed` | sdk/crates/dimpl/src/dtls12/engine.rs:782-834 | A Finished and a session ticket are sealed, every other handshake message leaves in the clear, also when the message does not get out whole |
| `Packing12.NothingSealedEarly` | sdk/crates/dimpl/src/dtls12/engine.rs:627-720 | In every run nothing is sealed before there are a cipher suite and write keys |
| `RecordWriters.RecordWriter.constructor` | sdk/crates/dimpl/src/dtls12/engine.rs:114-156 | A new writer |
| `RecordWriters.RecordWriter.CreateRecord` | sdk/crates/dimpl/src/dtls12/engine.rs:627-779 | The record is saved before there is known to be room, and joins the last datagram iff it fits; fields and failures end as `Packing12.CreateRecord` says |
| `RecordWriters.RecordWriter.HasRoom` | sdk/crates/dimpl/src/dtls12/engine.rs:672-677 | Whether the last datagram takes the record within the MTU |
| `RecordWriters.RecordWriter.Append` | sdk/crates/dimpl/src/dtls12/engine.rs:764-772 | Onto the last datagram, or as a new one |
| `RecordWriters.RecordWriter.CreateHandshake` | sdk/crates/dimpl/src/dtls12/engine.rs:782-900 | Numbers the message, sends its fragments, or fails |
| `RecordWriters.RecordWriter.CreateFragments` | sdk/crates/dimpl/src/dtls12/engine.rs:834-895 | The fragmentation loop sends what `Packing12.CreateParts` lists, and ends |
| `RecordWriters.RecordWriter.CreateFragment` | sdk/crates/dimpl/src/dtls12/engine.rs:836-887 | One fragment as one saved record |
| `RecordWriters.RecordWriter.NextFragment` | sdk/crates/dimpl/src/dtls12/engine.rs:836-866 | As much of the body as fits the datagram being built, or else a new one |
| `RecordWriters.RecordWriter.PollPacketTx` | sdk/crates/dimpl/src/dtls12/engine.rs:431-445 | Hands out the oldest datagram |
| `RecordWriters.RecordWriter.FlightResend` | sdk/crates/dimpl/src/dtls12/engine.rs:491-506 | Sends the saved records again in order; a failure forgets them |
| `Delivery.TakeTakesFirst` | sdk/crates/dimpl/src/dtls13/engine.rs:551-582 | What is handed out is the first unhandled application record in queue order, and only it stops pending |
| `Delivery.PurgeDropsHandledOnly` | sdk/crates/dimpl/src/dtls13/engine.rs:584-597 | Purging drops no unhandled record of any kind, and stops only at a datagram that has one |
| `Delivery.InsertAdds` | sdk/crates/dimpl/src/dtls13/engine.rs:457-475 | Queueing a datagram at any place adds its application records and leaves the rest |
| `Delivery.ReplaceExact` | sdk/crates/dimpl/src/dtls13/engine.rs:417-452 | Replacing a queued datagram loses no application record iff the old one had none pending |
| `Delivery.ReplaceTrades` | sdk/crates/dimpl/src/dtls13/engine.rs:417-452 | Replacing a queued datagram trades what was pending in the old one for what is pending in the new |
| `Delivery.ExactlyOnce` | sdk/crates/dimpl/src/dtls13/engine.rs:342-597 | In every run of arrivals queued, replacing, refused, dropped or failing half way, polls, purges, reads and HelloRetryRequest resets: the application records opened are listed once each, and are those accepted and those shed; delivered, pending and lost together are the accepted ones; no epoch and number is twice among the delivered, lost and shed; each delivery was opened under its own |
| `Delivery.LosslessExact` | sdk/crates/dimpl/src/dtls13/engine.rs:342-597 | Delivered and pending are all that was accepted iff no datagram that was replaced, under the guard of the source, or dropped for a HelloRetryRequest held a pending application record |
| `Delivery.ShedExact` | sdk/crates/dimpl/src/dtls13/engine.rs:342-475 | Every application record opened was accepted iff none came in a datagram that was refused, dropped or failed, or behind a close_notify noted by then |
| `Delivery.LeadReadSheds` | sdk/crates/dimpl/src/dtls13/engine.rs:378-386 | A datagram that leads with a message already read is not queued, and every application record opened from it is shed |
| `Delivery.ResentUpdateSheds` | sdk/crates/dimpl/src/dtls13/engine.rs:378-386 | A concrete run from a new inbox: a KeyUpdate is read, and sent again in one datagram with application data under the next keys; the data is opened and accepted by none |
| `Delivery.ReplacementLoses` | sdk/crates/dimpl/src/dtls13/engine.rs:417-452 | A concrete run from a new inbox: an application record behind a partial fragment is accepted, the whole message arrives, and the record is gone undelivered |
| `Delivery.CloseEndsAcceptance` | sdk/crates/dimpl/src/dtls13/engine.rs:2260-2306 | Once a close_notify is noted, sealed or in the clear, it stays noted, and in no continuation is an application record numbered after it accepted |
| `Delivery.DeliveryQueue.constructor` | sdk/crates/dimpl/src/dtls13/engine.rs:201-258 | An empty queue of the given bound, data not released |
| `Delivery.DeliveryQueue.InsertIncoming` | sdk/crates/dimpl/src/dtls13/engine.rs:342-357 | The datagram goes where the guards of the source allow, and is refused iff the queue is full or it renegotiates; one without a handshake part is dropped only if a queued one leads with its number, and keeps an ascending queue ascending; one with a part is dropped only as read before or as a copy, and keeps the parts in front, in order |
| `Delivery.DeliveryQueue.InsertIncomingHandshake` | sdk/crates/dimpl/src/dtls13/engine.rs:359-455 | It is inserted, takes the place of a queued one whose first record is handled or is the lesser copy, or is dropped as read before or as a copy; the datagrams led by a part stay in front, in strict order of message and offset |
| `Delivery.DeliveryQueue.ResetForHelloRetry` | sdk/crates/dimpl/src/dtls13/engine.rs:1893-1902 | Keeps the datagrams whose first record is not handled |
| `Delivery.DeliveryQueue.InsertIncomingNonHandshake` | sdk/crates/dimpl/src/dtls13/engine.rs:457-475 | The search puts the datagram at one place, or drops it because an entry leads with its number; a queue in strictly ascending order of leading (epoch, number) stays so, and then it is dropped iff its own is there |
| `Delivery.DeliveryQueue.PollAppData` | sdk/crates/dimpl/src/dtls13/engine.rs:551-582 | The nested search takes what `Take` takes, and nothing before release |
| `Delivery.DeliveryQueue.PurgeHandledQueueRx` | sdk/crates/dimpl/src/dtls13/engine.rs:584-597 | Drops the fully handled datagrams at the front, up to the first that is not |
| `Delivery.RetainedExact` | sdk/crates/dimpl/src/dtls13/engine.rs:1893-1902 | Of any queue exactly those datagrams are retained, in order, whose first record is not consumed |
| `Ordering.PolledInOrder` | sdk/crates/dimpl/src/dtls13/engine.rs:457-582 | In every run of application data from a new inbox, each datagram a stretch of the sender's records, arriving in any order, with polls and purges between: what a poll hands out is the earliest record pending, by (epoch, number) |
| `Ordering.SinglesStream` | sdk/crates/dimpl/src/dtls13/engine.rs:457-475 | With one record to a datagram every run of application data is such a run |
| `Ordering.TakesEarliest` | sdk/crates/dimpl/src/dtls13/engine.rs:551-582 | Of an ascending queue whose datagrams do not interleave, the first record pending is the earliest |
| `Ordering.InsertionExact` | sdk/crates/dimpl/src/dtls13/engine.rs:457-475 | An insertion at its place leaves the queue ascending iff it was |
| `Ordering.UpdateGoesFirst` | sdk/crates/dimpl/src/dtls13/engine.rs:397-455 | A datagram led by a KeyUpdate goes in front of all application data, and leaves the queue ascending iff no queued datagram leads with a smaller number |
| `PartQueue.OnePartRefines` | sdk/crates/dimpl/src/dtls13/engine.rs:359-455 | With one fragment to a datagram, what the queue of datagrams does with an arrival, wherever its search puts it, is what `Reassembly.Insert` does with the fragment |
| `KeyDerivation.PrfTls12` | sdk/crates/dimpl/src/crypto/prf_hkdf.rs:23-69 | For every HMAC of fixed length the buffer loop yields the first bytes of P_hash (section 5 of RFC 5246) over label and seed |
| `KeyDerivation.PrfPrefix` | sdk/crates/dimpl/src/crypto/prf_hkdf.rs:23-69 | A shorter PRF output is a prefix of a longer one |
| `KeyDerivation.PHashLength` | sdk/crates/dimpl/src/crypto/prf_hkdf.rs:23-69 | n blocks of P_hash are n hash lengths |
| `KeyDerivation.PHashBlocks` | sdk/crates/dimpl/src/crypto/prf_hkdf.rs:23-69 | Bytes are P_hash of n blocks iff they are n hash lengths and the i-th is the HMAC of A(i) and the seed (section 5 of RFC 5246) |
| `KeyDerivation.OkmBlocks` | sdk/crates/dimpl/src/crypto/prf_hkdf.rs:101-133 | Each block of output is the HMAC of the one before, the info and its number from 1 (section 2.3 of RFC 5869) |
| `KeyDerivation.HkdfExpand` | sdk/crates/dimpl/src/crypto/prf_hkdf.rs:101-133 | The loop yields the first bytes of T(1), T(2), ... (section 2.3 of RFC 5869), failing iff more than 255 blocks are asked for |
| `KeyDerivation.ExpandPrefix` | sdk/crates/dimpl/src/crypto/prf_hkdf.rs:101-133 | A shorter output is a prefix of a longer one |
| `KeyDerivation.LabelInjective` | sdk/crates/dimpl/src/crypto/prf_hkdf.rs:176-208 | Two infos are equal iff full label, context and output length are |
| `KeyDerivation.LabelLayout` | sdk/crates/dimpl/src/crypto/prf_hkdf.rs:176-208 | An info is built iff full label, context and length fit the bytes that count them, and is then laid out as an HkdfLabel (section 7.1 of RFC 8446) |
| `KeyDerivation.ProtocolsSeparate` | sdk/crates/dimpl/src/crypto/prf_hkdf.rs:138-165 | No info built with the DTLS 1.3 prefix equals one built with the TLS 1.3 prefix |
| `Messages12.HandshakeEngine.constructor` | sdk/crates/dimpl/src/dtls12/engine.rs:114-148 | A new engine |
| `Messages12.HandshakeEngine.Insert` | sdk/crates/dimpl/src/dtls12/engine.rs:231-288 | Read messages and copies of queued ones are dropped |
| `Messages12.HandshakeEngine.HasCompleteHandshake` | sdk/crates/dimpl/src/dtls12/engine.rs:508-561 | The next message is there and of the wanted kind |
| `Messages12.HandshakeEngine.NextHandshake` | sdk/crates/dimpl/src/dtls12/engine.rs:563-594 | The next message joins the transcript as it is read and its number is passed |
| `Messages12.HandshakeEngine.CreateHandshake` | sdk/crates/dimpl/src/dtls12/engine.rs:782-815 | A message is numbered and joins the transcript as it is written |
| `Messages12.HandshakeEngine.ResetForHelloVerifyRequest` | sdk/crates/dimpl/src/dtls12/engine.rs:979-1006 | Clears the transcript; on the server also the receive queue |
| `Messages12.HandshakeEngine.NextChangeCipherSpec` | sdk/crates/dimpl/src/dtls12/engine.rs:596-624 | Consumes a pending ChangeCipherSpec and enables the peer's encryption |
| `Messages12.ArriveExact` | sdk/crates/dimpl/src/dtls12/engine.rs:231-288 | What waits after an arrival is what did before, as it was, and the new message iff its number has neither been read nor come before |
| `Messages12.ReadExact` | sdk/crates/dimpl/src/dtls12/engine.rs:563-594 | What is read is the next message; it joins the transcript, its number is passed, no copy of it is queued again, and nothing else changes |
| `Agreement12.TranscriptsAgree` | sdk/crates/dimpl/src/dtls12/engine.rs:563-594 | In every run of honest peers, any loss, duplication and order, with or without cookie, plain or hybrid start: past the hellos one transcript is a prefix of the other, the two session hashes are over the same transcript, and two finished sides hold equal transcripts |
| `Agreement12.ServerChecksPass` | sdk/crates/dimpl/src/dtls12/server.rs:885-1035 | In every such run the Finished or CertificateVerify the server can read is over its own transcript and session hash, so its checks pass |
| `Agreement12.ClientChecksPass` | sdk/crates/dimpl/src/dtls12/client.rs:1092-1181 | In every such run the Finished the client can read is over its own transcript and session hash |
| `Agreement12.CookieExchangeAbsent` | sdk/crates/dimpl/src/dtls12/engine.rs:979-1006 | In every such run the transcripts hold exactly one ClientHello, the one with the cookie if one was asked for, and no HelloVerifyRequest |
| `Agreement12.RunAgrees` | sdk/crates/dimpl/src/dtls12/client.rs:316-420 | The invariant is kept over whole runs |
| `Agreement12.StartAgrees` | sdk/crates/dimpl/src/dtls12/client.rs:124-179 | It holds at the start, plain or hybrid |
| `Completion12.CompletionExact` | sdk/crates/dimpl/src/dtls12/client.rs:256-336 | From every state of every honest run there is a continuation in which both sides report the connection, iff the client has named no PSK identity the server does not know; the client is taken to have a certificate if the server may ask for one |
| `Completion12.SomeoneCan` | sdk/crates/dimpl/src/dtls12/server.rs:290-308 | In every such state, unless both sides are through, one of them can go on with what has been sent: the two never wait for each other |
| `Completion12.RunTalks` | sdk/crates/dimpl/src/dtls12/server.rs:480-683 | In every such run each side sends exactly the messages its configuration and the peer's call for, in order, and its state tells how many it has sent and read |
| `Client12.StepDescends` | sdk/crates/dimpl/src/dtls12/client.rs:316-336 | Every transition that changes state lowers the pair (retry left, states ahead) |
| `Client12.ClientConnection.constructor` | sdk/crates/dimpl/src/dtls12/client.rs:93-113 | A new client |
| `Client12.ClientConnection.FromHybrid` | sdk/crates/dimpl/src/dtls12/client.rs:124-179 | A client taking over after a hybrid ClientHello: it is in the transcript, numbering goes on behind it |
| `Client12.ClientConnection.MakeProgress` | sdk/crates/dimpl/src/dtls12/client.rs:256-269 | The loop ends, with the whole state and the error of the repeated transition |
| `Client12.ClientConnection.StateMakeProgress` | sdk/crates/dimpl/src/dtls12/client.rs:316-336 | Dispatch by state |
| `Client12.ClientConnection.DoSendClientHello` | sdk/crates/dimpl/src/dtls12/client.rs:338-368 | Sends the hello with the cookie known, and waits for a HelloVerifyRequest only without one; the object ends, in success and in error, as the transition relation says |
| `Client12.ClientConnection.DoAwaitHelloVerifyRequest` | sdk/crates/dimpl/src/dtls12/client.rs:370-420 | Takes a ServerHello as no cookie wanted; takes the cookie, clears the transcript and goes back once; the object ends, in success and in error, as the transition relation says |
| `Client12.ClientConnection.DoAwaitServerHello` | sdk/crates/dimpl/src/dtls12/client.rs:422-547 | Reads it, fails when unacceptable, branches on PSK; the object ends, in success and in error, as the transition relation says |
| `Client12.ClientConnection.DoAwaitCertificate` | sdk/crates/dimpl/src/dtls12/client.rs:549-591 | Fails on an empty certificate list; the object ends, in success and in error, as the transition relation says |
| `Client12.ClientConnection.DoAwaitServerKeyExchange` | sdk/crates/dimpl/src/dtls12/client.rs:593-784 | Fails unless the signature verifies; optional with PSK; the object ends, in success and in error, as the transition relation says |
| `Client12.ClientConnection.DoAwaitCertificateRequest` | sdk/crates/dimpl/src/dtls12/client.rs:786-834 | Optional; fails when its algorithms are not supported; the object ends, in success and in error, as the transition relation says |
| `Client12.ClientConnection.DoAwaitServerHelloDone` | sdk/crates/dimpl/src/dtls12/client.rs:836-879 | Reports the peer's certificate off the PSK path, which must have one; the object ends, in success and in error, as the transition relation says |
| `Client12.ClientConnection.DoSendClientKeyExchange` | sdk/crates/dimpl/src/dtls12/client.rs:895-929 | Captures the session hash right behind the message; the object ends, in success and in error, as the transition relation says |
| `Client12.ClientConnection.DoSendChangeCipherSpec` | sdk/crates/dimpl/src/dtls12/client.rs:943-1025 | Fails without a session hash; the object ends, in success and in error, as the transition relation says |
| `Client12.ClientConnection.DoSendFinished` | sdk/crates/dimpl/src/dtls12/client.rs:1027-1044 | MACs the transcript before the message; the object ends, in success and in error, as the transition relation says |
| `Client12.ClientConnection.DoAwaitChangeCipherSpec` | sdk/crates/dimpl/src/dtls12/client.rs:1046-1063 | Waits for the flag and enables the peer's encryption; the object ends, in success and in error, as the transition relation says |
| `Client12.ClientConnection.DoAwaitNewSessionTicket` | sdk/crates/dimpl/src/dtls12/client.rs:1065-1090 | Optional; the object ends, in success and in error, as the transition relation says |
| `Client12.ClientConnection.DoAwaitFinished` | sdk/crates/dimpl/src/dtls12/client.rs:1092-1181 | Connected is reported only when the MAC over the transcript before the message matches; the object ends, in success and in error, as the transition relation says |
| `Server12.StepDescends` | sdk/crates/dimpl/src/dtls12/server.rs:290-308 | Every transition that changes state lowers the number of states ahead |
| `Server12.ServerConnection.constructor` | sdk/crates/dimpl/src/dtls12/server.rs:156-180 | A new server |
| `Server12.ServerConnection.MakeProgress` | sdk/crates/dimpl/src/dtls12/server.rs:253-266 | The loop ends, with the whole state and the error of the repeated transition |
| `Server12.ServerConnection.StateMakeProgress` | sdk/crates/dimpl/src/dtls12/server.rs:290-308 | Dispatch by state |
| `Server12.ServerConnection.DoAwaitClientHello` | sdk/crates/dimpl/src/dtls12/server.rs:310-377 | Without a valid cookie, when one is wanted, answers with HelloVerifyRequest, clears transcript and queue, and stays; the object ends, in success and in error, as the transition relation says |
| `Server12.ServerConnection.DoSendServerHello` | sdk/crates/dimpl/src/dtls12/server.rs:480-517 | Branches on PSK; the object ends, in success and in error, as the transition relation says |
| `Server12.ServerConnection.DoSendServerKeyExchange` | sdk/crates/dimpl/src/dtls12/server.rs:529-640 | Left out with PSK and no hint; a certificate is requested only off the PSK path; the object ends, in success and in error, as the transition relation says |
| `Server12.ServerConnection.DoSendServerHelloDone` | sdk/crates/dimpl/src/dtls12/server.rs:661-683 | Waits for a certificate only if it asked for one; the object ends, in success and in error, as the transition relation says |
| `Server12.ServerConnection.DoAwaitCertificate` | sdk/crates/dimpl/src/dtls12/server.rs:685-730 | An empty certificate list means no CertificateVerify follows; the object ends, in success and in error, as the transition relation says |
| `Server12.ServerConnection.DoAwaitClientKeyExchange` | sdk/crates/dimpl/src/dtls12/server.rs:732-826 | Captures the session hash right behind the message, remembers whether the PSK identity is known; the object ends, in success and in error, as the transition relation says |
| `Server12.ServerConnection.DoAwaitCertificateVerify` | sdk/crates/dimpl/src/dtls12/server.rs:885-945 | Fails unless the signature is over the transcript before it; the object ends, in success and in error, as the transition relation says |
| `Server12.ServerConnection.DoAwaitChangeCipherSpec` | sdk/crates/dimpl/src/dtls12/server.rs:947-964 | Waits for the flag and enables the peer's encryption; the object ends, in success and in error, as the transition relation says |
| `Server12.ServerConnection.DoAwaitFinished` | sdk/crates/dimpl/src/dtls12/server.rs:966-1003 | Fails unless the MAC matches and the PSK identity was known; the object ends, in success and in error, as the transition relation says |
| `Server12.ServerConnection.DoSendFinished` | sdk/crates/dimpl/src/dtls12/server.rs:1053-1107 | Connected is reported here, after the server's own Finished; the object ends, in success and in error, as the transition relation says |
| `Gate12.ClientConnectedChecked` | sdk/crates/dimpl/src/dtls12/client.rs:1092-1181 | Whatever messages arrive and whatever transitions fail, in building a message or later, runs going on after errors, the client reports Connected at most once, after a Finished over its transcript was checked and, on certificate paths, a ServerKeyExchange whose signature verified |
| `Gate12.BackEdgeOnce` | sdk/crates/dimpl/src/dtls12/client.rs:370-420 | The edge back to SendClientHello is taken at most once per connection, errors or not |
| `Gate12.ServerConnectedChecked` | sdk/crates/dimpl/src/dtls12/server.rs:966-1107 | Whatever messages arrive and whatever transitions fail, runs going on after errors, the server reports Connected at most once, after the client's Finished over everything before it was checked, with nothing but its own Finished behind it, a known PSK identity, and a CertificateVerify over the transcript before it if the client sent certificates |
| `Client13.StepDescends` | sdk/crates/dimpl/src/dtls13/client.rs:346-362 | Every transition that changes state lowers the pair (retry left, states ahead) |
| `Client13.ProgressRound` | sdk/crates/dimpl/src/dtls13/client.rs:294-307 | One round of the loop: the rest of the loop from the new state gives the same end; an error ends it with what the failed transition left behind, the keys a ServerHello installed before it failed among that |
| `Gate13.ClientNumbersUnique` | sdk/crates/dimpl/src/dtls13/client.rs:433-665 | Whatever arrives and whatever fails, runs going on after errors: as long as no HelloRetryRequest is accepted after records have been sealed under the handshake key, no two sealed records share key and number, under the keys in use and under those replaced |
| `Gate13.NumbersUniqueExact` | sdk/crates/dimpl/src/dtls13/client.rs:433-665 | For every run from a new or a hybrid client: numbers stay apart from every moment of it on, whatever comes next without a further late reset, iff no HelloRetryRequest is accepted in it while the handshake key is held and its counter has moved |
| `Gate13.LateResetRun` | sdk/crates/dimpl/src/dtls13/client.rs:451-665 | A concrete run of a hybrid client: a record kept back for the keys cannot be parsed, so the ServerHello fails behind their installation; an ACK is sealed as number 0; a HelloRetryRequest of the same message number is accepted; the next ACK is number 0 again |
| `Gate13.RunInOrder` | sdk/crates/dimpl/src/dtls13/client.rs:433-665 | What that rests on holds throughout every such run: a valid sender, application keys only behind the server's Finished, and every log of a replaced key free of repetitions |
| `Gate13.ConnectedChecked` | sdk/crates/dimpl/src/dtls13/client.rs:740-932 | Whatever arrives and whatever fails, runs going on after errors, those behind key installation among them, the client reports PeerCert and then Connected, each at most once, and Connected only with, in this order in its transcript, a non-empty server certificate list, a CertificateVerify over the transcript before it and the server's Finished over the transcript before it under the handshake secret |
| `Gate13.BackEdgeOnce` | sdk/crates/dimpl/src/dtls13/client.rs:451-533 | The edge back to SendClientHello is taken at most once per connection, errors or not |
| `Speaking13.LastFlightExact` | sdk/crates/dimpl/src/dtls13/client.rs:934-1048 | Whatever arrives and whatever fails: when the client has reported Connected, its transcript behind the accepted server Finished is exactly its own flight: a Certificate iff one was requested, empty iff it has none, a CertificateVerify over all before it iff it was requested and has one, a Finished over all before it under the handshake secret; each once, and once more for each send of it that failed |
| `Conversation13.ConversationExact` | sdk/crates/dimpl/src/dtls13/client.rs:364-1048 | In every run without errors that reports Connected the whole transcript is the TLS 1.3 conversation and nothing else: hellos, with a retry or none, the server flight, with a CertificateRequest iff the client answers one, and its own, every signature, MAC and secret over the transcript before it |
| `Conversation13.FlightRead` | sdk/crates/dimpl/src/dtls13/client.rs:433-932 | A server flight that is as it should be, once all of it has come, is accepted in six transitions: keys installed, PeerCert reported, and the request for a certificate about to be answered if there was one |
| `Serving13.SendsInOrder` | sdk/crates/dimpl/src/dtls13/client.rs:1050-1081 | Sends without error are, in this order: a KeyUpdate asking for one iff due and none in flight, the queued data, and a KeyUpdate not asking for one iff an answer is pending; each under the epoch it belongs to, and each KeyUpdate moving it on by one |
| `Serving13.ServesInOrder` | sdk/crates/dimpl/src/dtls13/client.rs:1050-1109 | A round without error sends that, and behind it an ACK under the epoch reached iff a KeyUpdate was read and there is something to acknowledge; an answer is pending afterwards iff the update read asked for one |
| `Serving13.CloseSaysSo` | sdk/crates/dimpl/src/dtls13/client.rs:274-292 | Closing a connected client sends one close_notify under its current keys behind what is queued and ends its flight, or fails and leaves all as it was; before that it drops what is queued and sends nothing |
| `ClientMachine13.ClientConnection.constructor` | sdk/crates/dimpl/src/dtls13/client.rs:137-163 | A new client |
| `ClientMachine13.ClientConnection.MakeProgress` | sdk/crates/dimpl/src/dtls13/client.rs:294-307 | The loop ends, with the whole state and the error of the repeated transition |
| `ClientMachine13.ClientConnection.Close` | sdk/crates/dimpl/src/dtls13/client.rs:274-292 | The object ends as `Gate13.Closing` says, which `Serving13.CloseSaysSo` pins; it fails iff it stays connected |
| `ClientMachine13.ClientConnection.Round` | sdk/crates/dimpl/src/dtls13/client.rs:297-305 | One round keeps what the loop is to compute, and descends unless it is the last |
| `ClientMachine13.ClientConnection.StateMakeProgress` | sdk/crates/dimpl/src/dtls13/client.rs:346-362 | Dispatch by state |
| `ClientMachine13.ClientConnection.HasCompleteHandshake` | sdk/crates/dimpl/src/dtls13/engine.rs:724-777 | The next message is there and of the wanted type |
| `ClientMachine13.ClientConnection.NextHandshake` | sdk/crates/dimpl/src/dtls13/engine.rs:779-804 | The next message joins the transcript; its number is passed only once it has been accepted |
| `ClientMachine13.ClientConnection.CreateHandshake` | sdk/crates/dimpl/src/dtls13/engine.rs:1110-1211 | The message joins the transcript and goes out through the record layer; if that fails it stays in the transcript, and if its body cannot be built nothing changes |
| `ClientMachine13.ClientConnection.DoSendClientHello` | sdk/crates/dimpl/src/dtls13/client.rs:364-431 | A new flight with the hello; the object ends, in success and in error, as the transition relation says |
| `ClientMachine13.ClientConnection.DoAwaitServerHello` | sdk/crates/dimpl/src/dtls13/client.rs:433-665 | Reads the message, if it has come, and answers it; the object ends, in success and in error, as the transition relation says |
| `ClientMachine13.ClientConnection.DoAnswer` | sdk/crates/dimpl/src/dtls13/client.rs:451-613 | A second HelloRetryRequest is ignored, an unacceptable message refused; the object ends, in success and in error, as the transition relation says |
| `ClientMachine13.ClientConnection.DoRetry` | sdk/crates/dimpl/src/dtls13/client.rs:517-533 | The transcript is replaced by its hash, the handshake counter reset, the key share dropped; the object ends, in success and in error, as the transition relation says |
| `ClientMachine13.ClientConnection.DoExchange` | sdk/crates/dimpl/src/dtls13/client.rs:618-664 | Fails without a key share or on a failing exchange, and also behind the installed keys when a record buffered for them cannot be parsed; only after that is the message number passed; the object ends, in success and in error, as the transition relation says |
| `ClientMachine13.ClientConnection.InstallHandshakeKeys` | sdk/crates/dimpl/src/dtls13/client.rs:638-658 | Handshake keys derived from the transcript so far, in the place of any there were; the object ends, in success and in error, as the transition relation says |
| `ClientMachine13.ClientConnection.DoAwaitEncryptedExtensions` | sdk/crates/dimpl/src/dtls13/client.rs:667-699 | Reads it; the object ends, in success and in error, as the transition relation says |
| `ClientMachine13.ClientConnection.DoAwaitCertificateRequest` | sdk/crates/dimpl/src/dtls13/client.rs:701-738 | Optional: a Certificate that has come takes its place; the object ends, in success and in error, as the transition relation says |
| `ClientMachine13.ClientConnection.DoReadRequest` | sdk/crates/dimpl/src/dtls13/client.rs:711-737 | Fails when it does not parse; the object ends, in success and in error, as the transition relation says |
| `ClientMachine13.ClientConnection.DoAwaitCertificate` | sdk/crates/dimpl/src/dtls13/client.rs:740-793 | Fails on an empty certificate list; the object ends, in success and in error, as the transition relation says |
| `ClientMachine13.ClientConnection.DoAwaitCertificateVerify` | sdk/crates/dimpl/src/dtls13/client.rs:795-865 | Fails unless the signature is over the transcript before it; the object ends, in success and in error, as the transition relation says |
| `ClientMachine13.ClientConnection.DoAwaitFinished` | sdk/crates/dimpl/src/dtls13/client.rs:867-932 | Fails unless the MAC matches; installs the application keys; the object ends, in success and in error, as the transition relation says |
| `ClientMachine13.ClientConnection.DoSendCertificate` | sdk/crates/dimpl/src/dtls13/client.rs:934-976 | A new flight; an empty list without a certificate, and a CertificateVerify next with one (`Speaking13.LastFlightExact`); the object ends, in success and in error, as the transition relation says |
| `ClientMachine13.ClientConnection.DoSendCertificateVerify` | sdk/crates/dimpl/src/dtls13/client.rs:978-992 | Signs the transcript before it; the object ends, in success and in error, as the transition relation says |
| `ClientMachine13.ClientConnection.DoSendFinished` | sdk/crates/dimpl/src/dtls13/client.rs:994-1048 | The last flight, and its Finished; the object ends, in success and in error, as the transition relation says |
| `ClientMachine13.ClientConnection.BeginLastFlight` | sdk/crates/dimpl/src/dtls13/client.rs:994-1003 | A new flight unless the server has asked for the client's certificate, whose sending began one; the object ends, in success and in error, as the transition relation says |
| `ClientMachine13.ClientConnection.Conclude` | sdk/crates/dimpl/src/dtls13/client.rs:1005-1048 | MACs the transcript under the handshake secret and reports Connected after sending; the object ends, in success and in error, as the transition relation says |
| `ClientMachine13.ClientConnection.DoAwaitApplicationData` | sdk/crates/dimpl/src/dtls13/client.rs:1050-1112 | Own update when due and none in flight, queued data, the pending response, then one incoming KeyUpdate; the object ends, in success and in error, as the transition relation says |
| `ClientMachine13.ClientConnection.SendDue` | sdk/crates/dimpl/src/dtls13/client.rs:1050-1081 | The sends of that state, in that order, up to the first failure; the object ends, in success and in error, as the transition relation says |
| `ClientMachine13.ClientConnection.SendQueued` | sdk/crates/dimpl/src/dtls13/client.rs:1056-1072 | All queued data under the epoch current at the start; the object ends, in success and in error, as the transition relation says |
| `ClientMachine13.ClientConnection.ReadIncomingKeyUpdate` | sdk/crates/dimpl/src/dtls13/client.rs:1083-1109 | Rotates, acknowledges, and notes whether an answer is wanted; the object ends, in success and in error, as the transition relation says |
| `ClientMachine13.ClientConnection.DoHalfClosedLocal` | sdk/crates/dimpl/src/dtls13/client.rs:1114-1136 | Keeps reading KeyUpdates without answering; closes on the peer's close_notify; the object ends, in success and in error, as the transition relation says |
| `ClientMachine13.ClientConnection.SkipKeyUpdate` | sdk/crates/dimpl/src/dtls13/client.rs:1114-1130 | A KeyUpdate is read and left at that; the object ends, in success and in error, as the transition relation says |
| `CheckList.PriorityFits` | sdk/crates/p2p-core/src/ice/check_list.rs:41-48 | Of all pairs of 32-bit priorities only (2^32 - 1, 2^32 - 1) overflows 64 bits |
| `CheckList.PriorityOrders` | sdk/crates/p2p-core/src/ice/check_list.rs:41-48 | For priorities up to 2^31 and either role, one pair has the lower priority iff it is below by (min, max, G > D), G the controlling side's |
| `CheckList.PriorityIdentifies` | sdk/crates/p2p-core/src/ice/check_list.rs:41-48 | For priorities up to 2^31 and either role, two pairs have equal priority iff they are equal |
| `CheckList.OrderExact` | sdk/crates/p2p-core/src/ice/check_list.rs:41-48 | For either role and any bound on the priorities: all pairs within it are ordered by (min, max, G > D) iff the bound is at most 2^31 |
| `CheckList.IdentityExact` | sdk/crates/p2p-core/src/ice/check_list.rs:41-48 | For either role and any bound: pair priorities tell all pairs within it apart iff the bound is at most 2^31 |
| `CheckList.OwnPrioritiesOrder` | sdk/crates/p2p-core/src/ice/check_list.rs:28-48 | The priorities an agent gives its own candidates rank host above server reflexive above relayed, and pairs of them are ordered by (min, max, G > D) and told apart |
| `CheckList.HighPrioritiesMisorder` | sdk/crates/p2p-core/src/ice/check_list.rs:41-48 | Two pairs of 32-bit priorities ordered against (min, max, G > D), the smaller by a priority of 2^32 - 1 |
| `CheckList.AgentsAgreeOnPair` | sdk/crates/p2p-core/src/ice/check_list.rs:41-48 | Both agents give a pair the same priority |
| `CheckList.StableSortSorts` | sdk/crates/p2p-core/src/ice/check_list.rs:53-77 | The sort is a descending permutation |
| `CheckList.BuildCheckList` | sdk/crates/p2p-core/src/ice/check_list.rs:53-77 | The nested loops and the sort give a descending permutation of all local and remote pairs |
| `CheckList.SortByPriority` | sdk/crates/p2p-core/src/ice/check_list.rs:75 | The in-place sort gives the stable descending order |
| `CheckList.AgentsAgree` | sdk/crates/p2p-core/src/ice/check_list.rs:53-77 | For all candidate lists the two agents, roles and arguments swapped, have the same sequence of priorities |
| `CheckList.FindBestSucceeded` | sdk/crates/p2p-core/src/ice/check_list.rs:91-94 | Finds a succeeded pair iff there is one, and in a check list one of maximal priority |
| `CheckList.AllPairsFailed` | sdk/crates/p2p-core/src/ice/check_list.rs:97-106 | True iff there is a pair and all have failed |
| `Text.JoinedTokens` | sdk/crates/p2p-core/src/ice/candidate.rs:8-62 | Splitting at white space undoes joining tokens by blanks |
| `Text.DecimalParses` | sdk/crates/p2p-core/src/ice/candidate.rs:33-62 | Parsing undoes printing for every number the field type holds, and refuses every larger one |
| `Text.TerminatedLines` | sdk/crates/p2p-core/src/sdp.rs:13-68 | Splitting at CRLF undoes ending lines by CRLF |
| `Text.SplitLinesExact` | sdk/crates/p2p-core/src/sdp.rs:46-50 | The pieces of any text joined by its breaks are the text, and none holds a break |
| `Text.TrimExact` | sdk/crates/p2p-core/src/sdp.rs:50 | Trimming takes off white space at both ends, and all of it |
| `CandidateLine.FormatCandidateLine` | sdk/crates/p2p-core/src/ice/candidate.rs:47-62 | Writes the fields in order, related address and port only when there is an address |
| `CandidateLine.ParseCandidateLine` | sdk/crates/p2p-core/src/ice/candidate.rs:8-44 | The token loop computes the recursive reading |
| `CandidateLine.SplitWhitespace` | sdk/crates/p2p-core/src/ice/candidate.rs:9-10 | The maximal runs without white space |
| `CandidateLine.LineRoundTrip` | sdk/crates/p2p-core/src/ice/candidate.rs:8-62 | A formatted candidate is read back as itself iff its names are single words, the related address is not the word raddr, and the related port is 0 without one |
| `CandidateLine.ShortFormRead` | sdk/crates/p2p-core/src/ice/candidate.rs:8-44 | A candidate in the form without the word typ is read as itself too |
| `Sdp.GenerateSdpOffer` | sdk/crates/p2p-core/src/sdp.rs:13-43 | The lines of the offer in order, each ended by CRLF |
| `Sdp.ParseSdpAnswer` | sdk/crates/p2p-core/src/sdp.rs:46-68 | The line loop computes the fold over the lines |
| `Sdp.OfferRoundTrip` | sdk/crates/p2p-core/src/sdp.rs:13-68 | Parsing an offer gives back credentials and candidate lines, in order, and not lite |
| `Sdp.AnswerReads` | sdk/crates/p2p-core/src/sdp.rs:46-68 | Any answer, whatever surrounds it: lite iff a line says so, user fragment and password those of the last line that gives one, candidates those of the candidate lines, in order |
| `Sdp.OfferLineOrder` | sdk/crates/p2p-core/src/sdp.rs:13-43 | The lines of an offer come as version, origin, name, time, media, connection and attributes, each candidate as its own text |
| `Sdp.CandidatesRoundTrip` | sdk/crates/p2p-core/src/sdp.rs:13-68 | Well-formed candidates, formatted, offered, parsed and read, are the candidates they were |
| `Framing.ParseRecords` | sdk/crates/dimpl/src/dtls13/incoming.rs:69-158 | The slicing loop and the classifying loop behind it end with the engine as they leave it and the records kept or the error met first, each record judged by the state the ones before it left |
| `Framing.SplitExact` | sdk/crates/dimpl/src/dtls13/incoming.rs:69-158 | A datagram is cut into these records and this remainder iff it is the records and the remainder, the records are well framed, and the remainder is nothing, too short for a record, or a record with a connection id |
| `Framing.ParseIsSplit` | sdk/crates/dimpl/src/dtls12/incoming.rs:70-119 | Parsing any datagram, whatever the handler does, is judging its slices in turn, and then failing if it was cut short |
| `Framing.DatagramRoundTrip` | sdk/crates/dimpl/src/dtls13/incoming.rs:69-158 | Concatenating well-framed records and parsing judges and classifies exactly those records |
| `Framing.TailSpoils` | sdk/crates/dimpl/src/dtls13/incoming.rs:103-134 | A remainder too short for a record fails the datagram and keeps none of its records, while the engine has been changed as by all of them |
| `Framing.WrittenSplits` | sdk/crates/dimpl/src/dtls13/message/record.rs:207-234 | A datagram filled with records as the engines write them, in the clear or sealed, is cut into just those |
| `Framing.CrowdRefused` | sdk/crates/dimpl/src/dtls12/incoming.rs:63-100 | A datagram of records that are all good is refused whole iff there are more than 8 (DTLS 1.2) or 16 (DTLS 1.3) of them |
| `Datagrams.FramedIsBrought` | sdk/crates/dimpl/src/dtls13/incoming.rs:47-158 | The bytes of a datagram bring the receiver what opening and sorting out its records one by one brings, and are refused iff more than sixteen open |
| `Datagrams.TailLosesRecords` | sdk/crates/dimpl/src/dtls13/incoming.rs:103-307 | A datagram with a short remainder delivers nothing, and no sealed record it opened is ever opened again, in any later datagram and state |
| `Datagrams.SmallWritesRefused12` | sdk/crates/dimpl/src/dtls12/engine.rs:668-773 | Writes of one byte each without polling in between share one datagram as long as they fit the MTU, and a receiver to which all the records are good refuses it iff there are more than eight |
| `Datagrams.SmallWritesRefused13` | sdk/crates/dimpl/src/dtls13/engine.rs:925-1107 | The same for connected DTLS 1.3 peers and sixteen, with the receiver's epochs, numbers and windows worked out |
| `Framing.RecoverInnerContentType` | sdk/crates/dimpl/src/dtls13/incoming.rs:453-467 | The backward loop finds the last byte that is not zero |
| `Framing.InnerExact` | sdk/crates/dimpl/src/dtls13/incoming.rs:453-467 | A plaintext is read as (type, length) iff it is that much content, that type, which is not zero, and zeros |
| `Framing.InnerRoundTrip` | sdk/crates/dimpl/src/dtls13/incoming.rs:453-467 | Content, type and any padding give back type and content length |

## Left out

- Cryptographic primitives, providers, certificates and their validation.
- The byte layouts of handshake message bodies, extensions, cipher suite and group selection.
- The DTLS 1.3 server's handshake states; its records and post-handshake behaviour are those of the modelled engine.
- Timers, backoff, jitter, flight time-outs and buffer pooling; liveness under loss.
- AEAD usage counters and thresholds: they only make a KeyUpdate due, which is a free choice here.
- DTLS 1.2 session resumption, exported keying material and its events, and DTLS 1.2 explicit nonces.
- DTLS 1.2 replay protection and the re-reading of records queued before their keys; its handshake pair is modelled at the level of whole messages, which `Fragmentation.FragmentsReassembleStrictly` justifies fragment by fragment, and ChangeCipherSpec as a flag.
- The check-list lookups by transaction id and by remote address, the ICE agent, and the STUN and TURN codecs.
- Network, HTTP, WebSocket, thread, NAPI and C export code, demo applications and build scripts.
- 16-bit truncation of record lengths: lengths are unbounded here.
- Reassembly.OrderInsensitive: for queues of handshake fragments, one per datagram, because the source orders handshake and other datagrams by different keys; `PartQueue.OnePartRefines` joins it to the queue of datagrams, and queues that mix both kinds are covered by `Delivery`, which assumes no order.
- Link.AckSoundness: only for runs without a failed send, because a failed send breaks it, as `Link.FullQueueMisleads` and `Link.FullQueueRun` show; and every arrival is one record, as for `Link.NextKeeps`.
- Link.NextKeeps: every arrival is one record, while the source queues, drops and tracks a datagram by its first record. One led by an application record is never tracked, and one led by a handshake message already read or queued is dropped whole after all its records have moved the replay windows; `Delivery` treats datagrams of several records.
- Link.RunKeeps: every arrival is one record, as for `Link.NextKeeps`; and handshake keys are installed once, a HelloRetryRequest coming before them; outside such runs numbers repeat, as `Gate13.LateResetRun` shows.
- Link.ClearedFlightReceived: every arrival is one record, as for `Link.NextKeeps`.
- ReceiveSide.OpenedIsQueued: for a record that is the first of its datagram; behind a handshake message already read, or a copy of one queued, a record opens and is dropped with it.
- Engines.Engine.ParsePacket: takes one record, while the source parses and classifies a datagram of up to sixteen; `Framing.ParseRecords` has the loop over its records.
- Engines.ReceivingHalf.InsertIncomingHandshake: takes one fragment, while the source inserts, replaces or drops a datagram by its first record, as `Delivery.DeliveryQueue.InsertIncomingHandshake` does.
- Ordering.PolledInOrder: for runs of application data after the handshake, each datagram a stretch of its sender's records; with a KeyUpdate-led datagram in the queue the order may break, as `Ordering.UpdateGoesFirst` shows.
- Acknowledging.SentOpens: not for resends, which go out under the epoch of their entry; `Lockstep.ResendUsesOldKeys` has those.
- Acknowledging.UpdateCompletes: every arrival is one record, as for `Link.NextKeeps`.
- Stranding.StrandedForever: one record per arrival too; in the source a KeyUpdate packed behind application data is never tracked, so that it is stranded from the start.
- Lockstep.EpochsInLockstep: only for runs that guard the answer to a KeyUpdate, because the unguarded answer breaks it, as `Lockstep.UnguardedExact` and `KeyUpdateRun.UnguardedAnswerRun` show.
- Fragmentation.SentMessageIsRead: up to the receiver's own cap of 50 queued fragments, beyond which its walk does not look.
- Packing12.DatagramsFit: record numbers are unbounded, while the source writes their low 48 bits; sealing is only the length it adds.
- Gate12.ClientConnectedChecked: a message whose body does not parse counts as one read and refused, which in DTLS 1.2 also passes its number.
- Agreement12.TranscriptsAgree: a run ends for a side at its first error, and the sides do not close by themselves.
