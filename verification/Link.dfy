/** Two DTLS 1.3 engines joined by a network that may lose, duplicate and reorder: any
    record ever put on a transmit queue may arrive any number of times, at any moment, or
    never, whether its datagram has been polled or not. */
module Link {
  import opened Handshakes
  import opened RecordNumbers
  import opened Records
  import opened Reassembly
  import opened SendSide
  import opened ReceiveSide

  datatype Endpoint = Endpoint(snd: Sender, rcv: Receiver, closed: bool, pendingResponse: bool)

  datatype System = System(client: Endpoint, server: Endpoint) {

    function At(side: Side): Endpoint {
      if side == Client then client else server
    }

    function Put(side: Side, e: Endpoint): System {
      if side == Client then this.(client := e) else this.(server := e)
    }
  }

  function NewEndpoint(config: Config, side: Side, maxQueueRx: nat): Endpoint {
    Endpoint(NewSender(config, side), NewReceiver(side.Peer(), maxQueueRx), false, false)
  }

  function NewSystem(config: Config, maxQueueRx: nat): System {
    System(NewEndpoint(config, Client, maxQueueRx), NewEndpoint(config, Server, maxQueueRx))
  }

  datatype Action =
    | SendHello(part: Part)
    | SendHandshake(part: Part)
    | SendHandshakeAck
    | SendAck
    | SendData(bytes: seq<nat>)
    | BeginFlight
    | Resend
    | InstallHandshake
    | InstallApplication
    | EnableEncryption
    | Release
    | HelloRetry
    | Read(wanted: MessageType)
    | StartKeyUpdate
    | RespondKeyUpdate
    | ProcessKeyUpdate(requested: bool)
    | Close
    | PollPacket
    | PurgeHandled
    | Deliver(index: nat, garbage: nat)

  datatype Step = Step(who: Side, action: Action)

  // ----- What each action does to the endpoint that takes it -----

  /** Numbers of the queued epoch-2 handshake records, as many as an ACK holds. */
  function HandshakeNumbers(queue: seq<Item>): (numbers: seq<Number>)
    ensures |numbers| <= MAX_TRACKED
  {
    if queue == [] then []
    else
      var numbers := HandshakeNumbers(queue[..|queue| - 1]);
      var item := queue[|queue| - 1];
      if item.epoch == HANDSHAKE_EPOCH && |numbers| < MAX_TRACKED then numbers + [(item.epoch, item.number)]
      else numbers
  }

  predicate HandshakeInProgress(e: Endpoint) {
    e.snd.hsSecret.Some? && e.snd.appSecret.None? && !e.rcv.released
  }

  /** Send an ACK for everything tracked, and forget it; nothing to send is not a failure. */
  function AckOutcome(e: Endpoint): Outcome {
    if e.rcv.received == [] then Outcome(e.snd, None)
    else
      EmitCiphertext(e.snd, if e.snd.appSecret.Some? then e.snd.appEpoch else HANDSHAKE_EPOCH, false,
                     AckData(EncodeAck(e.rcv.received)))
  }

  /** The receiver after a KeyUpdate has been read and the next epoch's keys derived. */
  function Rotated(r: Receiver): Receiver {
    UpdateRecvKeys(Consume(r, KeyUpdate))
  }

  /** The sending half's part of an action. */
  function SendOutcome(e: Endpoint, a: Action): Outcome {
    match a
    case SendHello(part) => EmitPlaintext(e.snd, true, HandshakePart(part))
    case SendHandshake(part) => EmitCiphertext(e.snd, HANDSHAKE_EPOCH, true, HandshakePart(part))
    case SendHandshakeAck =>
      EmitCiphertext(e.snd, HANDSHAKE_EPOCH, false, AckData(EncodeAck(HandshakeNumbers(e.rcv.queue))))
    case SendAck => AckOutcome(e)
    case SendData(bytes) => EmitCiphertext(e.snd, e.snd.appEpoch, false, AppData(bytes))
    case Resend => FlightResend(e.snd)
    case StartKeyUpdate => CreateKeyUpdate(e.snd, 1)
    case RespondKeyUpdate => CreateKeyUpdate(e.snd, 0)
    case ProcessKeyUpdate(_) => if e.closed then Outcome(e.snd, None) else AckOutcome(e)
    case Close => EmitCiphertext(e.snd, e.snd.appEpoch, false, CloseNotify)
    case BeginFlight => Outcome(FlightBegin(e.snd), None)
    case InstallHandshake => Outcome(InstallHandshakeKeys(e.snd), None)
    case InstallApplication => Outcome(InstallApplicationKeys(e.snd), None)
    case HelloRetry => Outcome(ResetForHelloRetry(e.snd), None)
    case PollPacket => Outcome(Perform(e.snd, PopPacket), None)
    case _ => Outcome(e.snd, None)
  }

  /** When the state machines take an action.  Runs with a failed send are not considered:
      a flight entry saved by a send that then fails stands for a record nobody has sent. */
  predicate Enabled(sys: System, step: Step) {
    var e := sys.At(step.who);
    && SendOutcome(e, step.action).failure.None?
    && match step.action
       case SendHello(_) => !e.rcv.released
       case SendHandshake(part) => !e.rcv.released && part.msgType != KeyUpdate
       case SendHandshakeAck => HandshakeInProgress(e)
       case SendAck => !e.rcv.released
       case SendData(_) => e.rcv.released && !e.closed
       case BeginFlight => !e.rcv.released
       case Resend => true
       case InstallHandshake => e.snd.hsSecret.None? && !e.rcv.released
       case InstallApplication => e.snd.hsSecret.Some? && e.snd.appSecret.None?
       case EnableEncryption => true
       case Release => e.snd.appSecret.Some?
       case HelloRetry => e.snd.hsSecret.None?
       case Read(wanted) => !e.rcv.released && wanted != KeyUpdate
       case StartKeyUpdate => e.rcv.released && !e.closed && !KeyUpdateInFlight(e.snd)
       case RespondKeyUpdate => e.rcv.released && !e.closed && e.pendingResponse
       case ProcessKeyUpdate(_) => e.rcv.released && HasComplete(e.rcv.queue, KeyUpdate, e.rcv.peerMsgSeq)
       case Close => e.rcv.released && !e.closed
       case PollPacket => true
       case PurgeHandled => true
       case Deliver(index, _) => index < |sys.At(step.who.Peer()).snd.sent|
  }

  /** An ACK that opened, or came in the clear, is processed by the sending half. */
  function Acknowledged(s: Sender, r: Receiver, record: Record, garbage: nat): Sender {
    match record
    case Plaintext(number, payload) => AcknowledgedBy(s, r, Opened(0, number, payload))
    case Ciphertext(_, _, _, _, _) =>
      if !r.peerEncryption then s
      else
        match Open(r, record, garbage)
        case None => s
        case Some(o) => AcknowledgedBy(s, r, o)
  }

  function AcknowledgedBy(s: Sender, r: Receiver, o: Opened): Sender {
    if o.payload.AckData? && !AfterClose(r, o.epoch, o.number) then ProcessAck(s, o.payload.bytes) else s
  }

  /** The sending half after an action that is not a delivery; closing drops the flight. */
  function SendAfter(e: Endpoint, a: Action): Sender {
    if a.Close? then SendOutcome(e, a).sender.(flight := []) else SendOutcome(e, a).sender
  }

  /** The receiving half after an action that is not a delivery. */
  function RecvAfter(e: Endpoint, a: Action): Receiver {
    match a
    case SendAck => e.rcv.(received := [])
    case InstallHandshake => InstallHandshakeRecv(e.rcv)
    case InstallApplication => if e.rcv.slots == [] then InstallApplicationRecv(e.rcv) else e.rcv
    case EnableEncryption => e.rcv.(peerEncryption := true)
    case Release => ReceiveSide.Release(e.rcv)
    case HelloRetry => e.rcv.(queue := Unhandled(e.rcv.queue))
    case Read(wanted) => Consume(e.rcv, wanted)
    case ProcessKeyUpdate(_) => if e.closed then Rotated(e.rcv) else Rotated(e.rcv).(received := [])
    case PurgeHandled => e.rcv.(queue := Purged(e.rcv.queue))
    case _ => e.rcv
  }

  function Act(sys: System, step: Step): Endpoint
    requires Enabled(sys, step)
  {
    var e := sys.At(step.who);
    match step.action
    case Deliver(index, garbage) =>
      var record := sys.At(step.who.Peer()).snd.sent[index];
      e.(snd := Acknowledged(e.snd, e.rcv, record, garbage), rcv := Receive(e.rcv, record, garbage))
    case _ =>
      Endpoint(SendAfter(e, step.action), RecvAfter(e, step.action),
               e.closed || step.action.Close?,
               match step.action
               case RespondKeyUpdate => false
               case ProcessKeyUpdate(requested) => e.pendingResponse || (requested && !e.closed)
               case _ => e.pendingResponse)
  }

  function Unhandled(queue: seq<Item>): seq<Item> {
    if queue == [] then []
    else (if queue[0].handled then [] else [queue[0]]) + Unhandled(queue[1..])
  }

  /** Handled fragments leave from the front. */
  function Purged(queue: seq<Item>): seq<Item> {
    if queue != [] && queue[0].handled then Purged(queue[1..]) else queue
  }

  function Next(sys: System, step: Step): System
    requires Enabled(sys, step)
  {
    sys.Put(step.who, Act(sys, step))
  }

  predicate EnabledRun(sys: System, steps: seq<Step>)
    decreases |steps|
  {
    steps == [] || (Enabled(sys, steps[0]) && EnabledRun(Next(sys, steps[0]), steps[1..]))
  }

  function Run(sys: System, steps: seq<Step>): System
    requires EnabledRun(sys, steps)
    decreases |steps|
  {
    if steps == [] then sys else Run(Next(sys, steps[0]), steps[1..])
  }

  // ----- Invariants of one direction: sender `s`, receiver `r`, ACKs coming back from `back` -----

  /** The record an epoch, number and payload of `side` make. */
  function RecordOf(side: Side, epoch: nat, number: nat, payload: Payload): Record {
    if epoch < HANDSHAKE_EPOCH then Plaintext(number, payload)
    else Sealed(SecretOf(side, epoch), epoch, number, payload)
  }

  /** Everything accepted was sent. */
  ghost predicate Genuine(s: Sender, r: Receiver) {
    forall o :: o in r.accepted ==> RecordOf(s.side, o.epoch, o.number, o.payload) in s.sent
  }

  /** The number is that of an accepted handshake record. */
  ghost predicate AcceptedNumber(r: Receiver, n: Number) {
    exists o :: o in r.accepted && o.epoch == n.0 && o.number == n.1 && o.payload.HandshakePart?
  }

  /** The receiver tracks and queues accepted records only. */
  ghost predicate TrackedGenuine(r: Receiver) {
    && |r.received| <= MAX_TRACKED
    && (forall i :: 0 <= i < |r.received| ==> AcceptedNumber(r, r.received[i]))
    && (forall i :: 0 <= i < |r.queue| && r.queue[i].epoch >= HANDSHAKE_EPOCH ==>
          AcceptedNumber(r, (r.queue[i].epoch, r.queue[i].number)))
  }

  /** Every queued fragment was sent in the record it is queued for. */
  ghost predicate QueueSent(s: Sender, r: Receiver) {
    forall item :: item in r.queue ==> RecordOf(s.side, item.epoch, item.number, HandshakePart(item.part)) in s.sent
  }

  ghost predicate GenuineAck(r: Receiver, record: Record) {
    record.payload.AckData? ==>
      forall n :: n in DecodeAck(record.payload.bytes) ==> AcceptedNumber(r, n)
  }

  /** Every ACK on its way back lists accepted records only. */
  ghost predicate AcksGenuine(back: Sender, r: Receiver) {
    forall i :: 0 <= i < |back.sent| ==> GenuineAck(r, back.sent[i])
  }

  /** Every saved entry was sent under the number it stands for. */
  ghost predicate EntrySent(s: Sender, e: Entry) {
    && e.payload.HandshakePart?
    && (e.epoch == 0 || e.epoch >= HANDSHAKE_EPOCH)
    && RecordOf(s.side, e.epoch, e.sendSeq, e.payload) in s.sent
  }

  ghost predicate FlightSent(s: Sender) {
    forall i :: 0 <= i < |s.flight| ==> EntrySent(s, s.flight[i])
  }

  /** A saved entry is marked acknowledged only if the peer has received a record carrying
      exactly that entry. */
  ghost predicate EntryReceived(r: Receiver, e: Entry) {
    Opened(e.epoch, e.sendSeq, e.payload) in r.accepted
  }

  ghost predicate AckedReceived(s: Sender, r: Receiver) {
    forall i :: 0 <= i < |s.flight| && s.flight[i].acked ==> EntryReceived(r, s.flight[i])
  }

  /** Once application data is released, the handshake keys are gone, so that no epoch bits
      lead to them. */
  predicate HandshakeKeysGone(r: Receiver) {
    r.released ==> r.hsSecret.None?
  }

  ghost predicate Direction(s: Sender, r: Receiver, back: Sender) {
    && r.peer == s.side
    && SenderValid(s) && ReceiverValid(r) && HandshakeKeysGone(r)
    && Genuine(s, r) && TrackedGenuine(r) && QueueSent(s, r) && AcksGenuine(back, r)
    && FlightSent(s) && AckedReceived(s, r)
  }

  ghost predicate LinkValid(sys: System) {
    && sys.client.snd.side == Client && sys.server.snd.side == Server
    && Direction(sys.client.snd, sys.server.rcv, sys.server.snd)
    && Direction(sys.server.snd, sys.client.rcv, sys.client.snd)
  }

  // ----- Sending keeps its direction -----

  /** What sending does: the log grows, saved entries stay sent, nothing new is marked. */
  ghost predicate Extends(s: Sender, t: Sender) {
    && s.side == t.side && s.sent <= t.sent
    && SenderValid(t) && FlightSent(t)
    && (forall i :: 0 <= i < |t.flight| && t.flight[i].acked ==> t.flight[i] in s.flight)
  }

  lemma ExtendsKeepsForward(s: Sender, t: Sender, r: Receiver, back: Sender)
    requires Direction(s, r, back) && Extends(s, t)
    ensures Direction(t, r, back)
  {
    forall i | 0 <= i < |t.flight| && t.flight[i].acked
      ensures EntryReceived(r, t.flight[i])
    {
      assert t.flight[i] in s.flight;
    }
  }

  /** ACKs sent meanwhile list accepted records. */
  ghost predicate NewAcksGenuine(s: Sender, t: Sender, r: Receiver) {
    && s.sent <= t.sent
    && forall i :: |s.sent| <= i < |t.sent| ==> GenuineAck(r, t.sent[i])
  }

  lemma NewAcksKeepBackward(s: Sender, r: Receiver, back: Sender, back': Sender)
    requires Direction(s, r, back) && NewAcksGenuine(back, back', r)
    ensures Direction(s, r, back')
  {
    forall i | 0 <= i < |back'.sent|
      ensures GenuineAck(r, back'.sent[i])
    {
      if i < |back.sent| {
        assert back'.sent[i] == back.sent[i];
      }
    }
  }

  lemma EmitCiphertextExtends(s: Sender, epoch: nat, save: bool, payload: Payload)
    requires SenderValid(s) && FlightSent(s) && HeldEpoch(s, epoch)
    requires save ==> payload.HandshakePart?
    requires EmitCiphertext(s, epoch, save, payload).failure.None?
    ensures var t := EmitCiphertext(s, epoch, save, payload).sender;
            && Extends(s, t)
            && t.sent == s.sent + [RecordOf(s.side, epoch, NumberFor(s, epoch), payload)]
  {
    EmitCiphertextKeeps(s, epoch, save, payload);
    EmittedSender(s, epoch, save, payload);
    NextBehind(s, epoch, payload);
    var t := EmitCiphertext(s, epoch, save, payload).sender;
    var record := RecordOf(s.side, epoch, NumberFor(s, epoch), payload);
    assert t.sent == s.sent + [record];
    forall i | 0 <= i < |t.flight|
      ensures EntrySent(t, t.flight[i])
    {
      if i < |s.flight| {
        assert t.flight[i] == s.flight[i] && EntrySent(s, s.flight[i]);
      } else {
        assert t.sent[|s.sent|] == record;
      }
    }
  }

  lemma EmitPlaintextExtends(s: Sender, save: bool, payload: Payload)
    requires SenderValid(s) && FlightSent(s)
    requires save ==> payload.HandshakePart?
    requires EmitPlaintext(s, save, payload).failure.None?
    ensures var t := EmitPlaintext(s, save, payload).sender;
            && Extends(s, t)
            && t.sent == s.sent + [RecordOf(s.side, 0, s.plainSeq, payload)]
  {
    EmitPlaintextKeeps(s, save, payload);
    var t := EmitPlaintext(s, save, payload).sender;
    var record := RecordOf(s.side, 0, s.plainSeq, payload);
    assert t.sent == s.sent + [record];
    forall i | 0 <= i < |t.flight|
      ensures EntrySent(t, t.flight[i])
    {
      if i < |s.flight| {
        assert t.flight[i] == s.flight[i] && EntrySent(s, s.flight[i]);
      } else {
        assert t.sent[|s.sent|] == record;
      }
    }
  }

  ghost predicate OnlyHandshakes(s: Sender, t: Sender) {
    && s.sent <= t.sent
    && forall i :: |s.sent| <= i < |t.sent| ==> t.sent[i].payload.HandshakePart?
  }

  lemma EntrySentLater(s: Sender, t: Sender, e: Entry)
    requires EntrySent(s, e) && s.side == t.side && s.sent <= t.sent
    ensures EntrySent(t, e)
  {
    var record := RecordOf(s.side, e.epoch, e.sendSeq, e.payload);
    var i :| 0 <= i < |s.sent| && s.sent[i] == record;
    assert t.sent[i] == record;
  }

  lemma AgainSent(s: Sender, e: Entry)
    requires SenderValid(s) && s.flight == [] && EntrySent(s, e) && (e.epoch == 0 || HeldEpoch(s, e.epoch))
    requires EmitAgain(s, e).failure.None?
    ensures var t := EmitAgain(s, e).sender;
            && SenderValid(t) && t.flight == [] && SameKeys(s, t) && OnlyHandshakes(s, t)
            && EntrySent(t, e.(sendSeq := ResendNumber(s, e)))
  {
    EmitFrame(s, e.epoch, false, e.payload);
    if e.epoch == 0 {
      EmitPlaintextExtends(s, false, e.payload);
    } else {
      EmitCiphertextExtends(s, e.epoch, false, e.payload);
    }
    var t := EmitAgain(s, e).sender;
    assert t.sent[|s.sent|] == RecordOf(s.side, e.epoch, ResendNumber(s, e), e.payload);
  }

  /** The other entries can still be sent again. */
  lemma RestSent(s: Sender, t: Sender, entries: seq<Entry>)
    requires entries != [] && s.side == t.side && s.sent <= t.sent && SameKeys(s, t)
    requires forall i :: 0 <= i < |entries| ==>
               EntrySent(s, entries[i]) && (entries[i].epoch == 0 || HeldEpoch(s, entries[i].epoch))
    ensures forall i :: 0 <= i < |entries[1..]| ==>
              && EntrySent(t, entries[1..][i])
              && (entries[1..][i].epoch == 0 || HeldEpoch(t, entries[1..][i].epoch))
  {
    forall i | 0 <= i < |entries[1..]|
      ensures EntrySent(t, entries[1..][i]) && (entries[1..][i].epoch == 0 || HeldEpoch(t, entries[1..][i].epoch))
    {
      EntrySentLater(s, t, entries[i + 1]);
    }
  }

  lemma {:induction false} ResendSent(s: Sender, entries: seq<Entry>)
    requires SenderValid(s) && s.flight == []
    requires forall i :: 0 <= i < |entries| ==>
               EntrySent(s, entries[i]) && (entries[i].epoch == 0 || HeldEpoch(s, entries[i].epoch))
    requires ResendEntries(s, entries).0.failure.None?
    ensures var (o, rest) := ResendEntries(s, entries);
            && SenderValid(o.sender) && o.sender.flight == [] && SameKeys(s, o.sender)
            && OnlyHandshakes(s, o.sender)
            && SameEntries(entries, rest)
            && (forall i :: 0 <= i < |rest| ==> EntrySent(o.sender, rest[i]))
    decreases |entries|
  {
    if entries != [] {
      var t, head := FirstAgain(s, entries);
      if !entries[0].acked {
        AgainSent(s, entries[0]);
      }
      RestSent(s, t, entries);
      ResendSent(t, entries[1..]);
      var (o, rest) := ResendEntries(t, entries[1..]);
      EntrySentLater(t, o.sender, head);
      SameInFront(entries, head, rest);
    }
  }

  lemma ResendExtends(s: Sender)
    requires SenderValid(s) && FlightSent(s) && FlightResend(s).failure.None?
    ensures Extends(s, FlightResend(s).sender) && OnlyHandshakes(s, FlightResend(s).sender)
  {
    FlightResendKeeps(s);
    var s0 := s.(flight := [], datagramSealed := true);
    forall i | 0 <= i < |s.flight|
      ensures EntrySent(s0, s.flight[i]) && (s.flight[i].epoch == 0 || HeldEpoch(s0, s.flight[i].epoch))
    {
      assert EntrySent(s, s.flight[i]);
    }
    ResendSent(s0, s.flight);
    var (o, entries) := ResendEntries(s0, s.flight);
    var t := FlightResend(s).sender;
    assert t == o.sender.(flight := entries);
    forall i | 0 <= i < |t.flight|
      ensures EntrySent(t, t.flight[i])
      ensures t.flight[i].acked ==> t.flight[i] in s.flight
    {
      assert EntrySent(o.sender, entries[i]);
      if entries[i].acked {
        assert entries[i] == s.flight[i];
      }
    }
  }

  lemma KeyUpdateExtends(s: Sender, request: nat)
    requires SenderValid(s) && FlightSent(s) && CreateKeyUpdate(s, request).failure.None?
    ensures Extends(s, CreateKeyUpdate(s, request).sender) && OnlyHandshakes(s, CreateKeyUpdate(s, request).sender)
  {
    CreateKeyUpdateKeeps(s, request);
    NextMessageKeeps(s);
    EmitCiphertextExtends(NextMessage(s), s.appEpoch, true, HandshakePart(KeyUpdatePart(s.nextMsgSeq, request)));
    SendKeyUpdateKeeps(s, request);
    var mid := SendKeyUpdate(s, request).sender;
    var t := CreateKeyUpdate(s, request).sender;
    assert t.sent == mid.sent && t.flight == mid.flight;
    forall i | 0 <= i < |t.flight|
      ensures EntrySent(t, t.flight[i])
    {
      EntrySentLater(mid, t, mid.flight[i]);
    }
  }

  // ----- ACKs -----

  lemma AcceptedEncodable(s: Sender, r: Receiver, numbers: seq<Number>)
    requires SenderValid(s) && ReceiverValid(r) && Genuine(s, r) && r.peer == s.side && |numbers| <= MAX_TRACKED
    requires forall i :: 0 <= i < |numbers| ==> AcceptedNumber(r, numbers[i])
    ensures DecodeAck(EncodeAck(numbers)) == numbers
  {
    assert Power256(8) > 0xFFFF_FFFF_FFFF by {
      assert Power256(3) == 0x100_0000;
      assert Power256(6) == 0x1_0000_0000_0000;
    }
    forall i | 0 <= i < |numbers|
      ensures numbers[i].0 < Power256(8) && numbers[i].1 < Power256(8)
    {
      var o :| o in r.accepted && o.epoch == numbers[i].0 && o.number == numbers[i].1 && o.payload.HandshakePart?;
      AcceptedBounds(s, r, o);
    }
    AckRoundTrip(numbers);
  }

  /** An accepted record is one the sender sealed, under an epoch it has reached. */
  lemma AcceptedBounds(s: Sender, r: Receiver, o: Opened)
    requires SenderValid(s) && ReceiverValid(r) && Genuine(s, r) && r.peer == s.side && o in r.accepted
    ensures HANDSHAKE_EPOCH <= o.epoch <= MAX_EPOCH && o.number < MAX_SEQUENCE_NUMBER
    ensures Behind(s, RecordOf(s.side, o.epoch, o.number, o.payload))
    ensures o.epoch <= s.appEpoch || o.epoch == HANDSHAKE_EPOCH
  {
    var record := RecordOf(s.side, o.epoch, o.number, o.payload);
    var i :| 0 <= i < |s.sent| && s.sent[i] == record;
    assert Behind(s, s.sent[i]);
    EpochOfSecret(s.side, o.epoch);
  }

  ghost predicate Queued(queue: seq<Item>, n: Number) {
    exists j :: 0 <= j < |queue| && queue[j].epoch == HANDSHAKE_EPOCH && n == (queue[j].epoch, queue[j].number)
  }

  lemma {:induction false} HandshakeNumbersQueued(queue: seq<Item>)
    ensures forall n :: n in HandshakeNumbers(queue) ==> Queued(queue, n)
    decreases |queue|
  {
    if queue != [] {
      var rest, item := queue[..|queue| - 1], queue[|queue| - 1];
      HandshakeNumbersQueued(rest);
      forall n | n in HandshakeNumbers(queue)
        ensures Queued(queue, n)
      {
        if n in HandshakeNumbers(rest) {
          assert Queued(rest, n);
          var j :| 0 <= j < |rest| && rest[j].epoch == HANDSHAKE_EPOCH && n == (rest[j].epoch, rest[j].number);
          assert queue[j] == rest[j];
        } else {
          assert queue[|queue| - 1] == item && n == (item.epoch, item.number);
        }
      }
    }
  }

  /** An ACK listing accepted records reads back as accepted records. */
  lemma AckGenuine(s: Sender, r: Receiver, numbers: seq<Number>, record: Record)
    requires SenderValid(s) && ReceiverValid(r) && Genuine(s, r) && r.peer == s.side && |numbers| <= MAX_TRACKED
    requires forall i :: 0 <= i < |numbers| ==> AcceptedNumber(r, numbers[i])
    requires record.payload == AckData(EncodeAck(numbers))
    ensures GenuineAck(r, record)
  {
    AcceptedEncodable(s, r, numbers);
    forall n | n in DecodeAck(record.payload.bytes)
      ensures AcceptedNumber(r, n)
    {
      var i :| 0 <= i < |numbers| && numbers[i] == n;
    }
  }

  /** A number accepted by the peer that an entry stands for brought exactly that entry:
      the sender used the number once. */
  lemma NumberNamesEntry(s: Sender, r: Receiver, e: Entry)
    requires SenderValid(s) && ReceiverValid(r) && Genuine(s, r) && r.peer == s.side
    requires EntrySent(s, e) && AcceptedNumber(r, (e.epoch, e.sendSeq))
    ensures EntryReceived(r, e)
  {
    var o :| o in r.accepted && o.epoch == e.epoch && o.number == e.sendSeq && o.payload.HandshakePart?;
    var mine := RecordOf(s.side, e.epoch, e.sendSeq, e.payload);
    var theirs := RecordOf(s.side, o.epoch, o.number, o.payload);
    var i :| 0 <= i < |s.sent| && s.sent[i] == mine;
    var j :| 0 <= j < |s.sent| && s.sent[j] == theirs;
    assert SameSlot(s.sent[i], s.sent[j]);
    assert i == j;
  }

  lemma ProcessAckSound(s: Sender, r: Receiver, back: Sender, body: seq<nat>)
    requires Direction(s, r, back)
    requires forall n :: n in DecodeAck(body) ==> AcceptedNumber(r, n)
    ensures Direction(ProcessAck(s, body), r, back)
  {
    ProcessAckKeeps(s, body);
    var t := ProcessAck(s, body);
    var marked := MarkAcked(s.flight, DecodeAck(body));
    forall i | 0 <= i < |marked|
      ensures EntrySent(s, marked[i]) && (marked[i].acked ==> EntryReceived(r, marked[i]))
    {
      assert EntrySent(s, s.flight[i]);
      if (s.flight[i].epoch, s.flight[i].sendSeq) in DecodeAck(body) {
        NumberNamesEntry(s, r, s.flight[i]);
      }
    }
    assert t.flight == [] || t.flight == marked || t.flight == s.flight;
  }

  // ----- Receiving keeps its direction -----

  lemma AcceptedGrows(r: Receiver, t: Receiver, record: Record)
    requires r.accepted <= t.accepted && GenuineAck(r, record)
    ensures GenuineAck(t, record)
  {
    if record.payload.AckData? {
      forall n | n in DecodeAck(record.payload.bytes)
        ensures AcceptedNumber(t, n)
      {
        assert AcceptedNumber(r, n);
        var o :| o in r.accepted && o.epoch == n.0 && o.number == n.1 && o.payload.HandshakePart?;
        assert o in t.accepted;
      }
    }
  }

  /** A receiver that has accepted more keeps the direction, if it accepted and tracks
      genuine records only. */
  lemma ReceiverGrows(s: Sender, r: Receiver, t: Receiver, back: Sender)
    requires Direction(s, r, back) && r.accepted <= t.accepted && t.peer == r.peer
    requires ReceiverValid(t) && Genuine(s, t) && TrackedGenuine(t) && QueueSent(s, t) && HandshakeKeysGone(t)
    ensures Direction(s, t, back)
  {
    forall i | 0 <= i < |back.sent|
      ensures GenuineAck(t, back.sent[i])
    {
      assert GenuineAck(r, back.sent[i]);
      AcceptedGrows(r, t, back.sent[i]);
    }
    forall i | 0 <= i < |s.flight| && s.flight[i].acked
      ensures EntryReceived(t, s.flight[i])
    {
      assert EntryReceived(r, s.flight[i]);
    }
  }

  lemma TrackedGrows(r: Receiver, t: Receiver)
    requires TrackedGenuine(r) && r.accepted <= t.accepted && t.received == r.received && t.queue == r.queue
    ensures TrackedGenuine(t)
  {
    forall n | AcceptedNumber(r, n)
      ensures AcceptedNumber(t, n)
    {
      var o :| o in r.accepted && o.epoch == n.0 && o.number == n.1 && o.payload.HandshakePart?;
      assert o in t.accepted;
    }
  }

  lemma InsertPartTracked(r: Receiver, part: Part, epoch: nat, number: nat)
    requires TrackedGenuine(r) && (epoch >= HANDSHAKE_EPOCH ==> AcceptedNumber(r, (epoch, number)))
    ensures TrackedGenuine(InsertPart(r, part, epoch, number))
  {
    var t := InsertPart(r, part, epoch, number);
    var item := Item(part, epoch, number, false);
    forall i | 0 <= i < |t.queue|
      ensures t.queue[i] == item || t.queue[i] in r.queue
    {
    }
    forall n | AcceptedNumber(r, n)
      ensures AcceptedNumber(t, n)
    {
      assert t.accepted == r.accepted;
    }
  }

  lemma DispatchTracked(r: Receiver, o: Opened)
    requires TrackedGenuine(r) && (o in r.accepted || o.epoch == 0)
    ensures TrackedGenuine(Dispatch(r, o))
  {
    if o.payload.HandshakePart? && !AfterClose(r, o.epoch, o.number) {
      InsertPartTracked(r, o.payload.part, o.epoch, o.number);
    } else {
      TrackedGrows(r, Dispatch(r, o));
    }
  }

  lemma DispatchQueueSent(s: Sender, r: Receiver, o: Opened)
    requires QueueSent(s, r) && RecordOf(s.side, o.epoch, o.number, o.payload) in s.sent
    ensures QueueSent(s, Dispatch(r, o))
  {
    var t := Dispatch(r, o);
    if o.payload.HandshakePart? {
      forall item | item in t.queue
        ensures item == Item(o.payload.part, o.epoch, o.number, false) || item in r.queue
      {
      }
    }
  }

  /** What opens is a record of the peer's log. */
  lemma OpenedGenuine(s: Sender, r: Receiver, record: Record, garbage: nat)
    requires SenderValid(s) && ReceiverValid(r) && r.peer == s.side && record in s.sent && record.Ciphertext?
    requires Open(r, record, garbage).Some?
    ensures var o := Open(r, record, garbage).value;
            && RecordOf(s.side, o.epoch, o.number, o.payload) == record && o.payload == record.payload
            && o.epoch >= HANDSHAKE_EPOCH && o.epoch == EpochOf(record.secret)
  {
    var i :| 0 <= i < |s.sent| && s.sent[i] == record;
    assert Behind(s, s.sent[i]);
    OpenSound(r, EpochOf(record.secret), record.number, record.payload, garbage);
  }

  lemma CommitDirection(s: Sender, r: Receiver, back: Sender, record: Record, garbage: nat)
    requires Direction(s, r, back) && record in s.sent && record.Ciphertext? && Open(r, record, garbage).Some?
    ensures Direction(s, Commit(r, Open(r, record, garbage).value), back)
  {
    var o := Open(r, record, garbage).value;
    OpenedGenuine(s, r, record, garbage);
    CommitKeeps(r, record, garbage);
    TrackedGrows(r, Commit(r, o));
    ReceiverGrows(s, r, Commit(r, o), back);
  }

  lemma DispatchDirection(s: Sender, r: Receiver, back: Sender, o: Opened)
    requires Direction(s, r, back) && (o in r.accepted || o.epoch == 0)
    requires RecordOf(s.side, o.epoch, o.number, o.payload) in s.sent
    ensures Direction(s, Dispatch(r, o), back)
  {
    DispatchKeeps(r, o);
    DispatchTracked(r, o);
    DispatchQueueSent(s, r, o);
    ReceiverGrows(s, r, Dispatch(r, o), back);
  }

  lemma ReceiveDirection(s: Sender, r: Receiver, back: Sender, record: Record, garbage: nat)
    requires Direction(s, r, back) && record in s.sent
    ensures Direction(s, Receive(r, record, garbage), back)
  {
    match record
    case Plaintext(number, payload) => DispatchDirection(s, r, back, Opened(0, number, payload));
    case Ciphertext(_, _, _, _, _) =>
      if r.peerEncryption && Open(r, record, garbage).Some? {
        var o := Open(r, record, garbage).value;
        OpenedGenuine(s, r, record, garbage);
        CommitDirection(s, r, back, record, garbage);
        DispatchDirection(s, Commit(r, o), back, o);
      }
  }

  // ----- Every step keeps both directions -----

  lemma HandshakesAreNoAcks(s: Sender, t: Sender, r: Receiver)
    requires OnlyHandshakes(s, t)
    ensures NewAcksGenuine(s, t, r)
  {
  }

  /** Sending an ACK that lists `numbers`, all accepted from the peer `p`. */
  lemma AckSent(s: Sender, r: Receiver, p: Sender, epoch: nat, numbers: seq<Number>)
    requires SenderValid(s) && FlightSent(s) && HeldEpoch(s, epoch)
    requires SenderValid(p) && ReceiverValid(r) && Genuine(p, r) && r.peer == p.side
    requires |numbers| <= MAX_TRACKED && forall i :: 0 <= i < |numbers| ==> AcceptedNumber(r, numbers[i])
    requires EmitCiphertext(s, epoch, false, AckData(EncodeAck(numbers))).failure.None?
    ensures var t := EmitCiphertext(s, epoch, false, AckData(EncodeAck(numbers))).sender;
            Extends(s, t) && NewAcksGenuine(s, t, r)
  {
    var payload := AckData(EncodeAck(numbers));
    EmitCiphertextExtends(s, epoch, false, payload);
    AckGenuine(p, r, numbers, RecordOf(s.side, epoch, NumberFor(s, epoch), payload));
  }

  lemma DataSent(s: Sender, r: Receiver, payload: Payload)
    requires SenderValid(s) && FlightSent(s) && !payload.AckData?
    requires EmitCiphertext(s, s.appEpoch, false, payload).failure.None?
    ensures var t := EmitCiphertext(s, s.appEpoch, false, payload).sender;
            Extends(s, t) && NewAcksGenuine(s, t, r)
  {
    EmitCiphertextExtends(s, s.appEpoch, false, payload);
  }

  lemma HandshakeSent(s: Sender, part: Part)
    requires SenderValid(s) && FlightSent(s)
    ensures EmitPlaintext(s, true, HandshakePart(part)).failure.None? ==>
              var t := EmitPlaintext(s, true, HandshakePart(part)).sender; Extends(s, t) && OnlyHandshakes(s, t)
    ensures EmitCiphertext(s, HANDSHAKE_EPOCH, true, HandshakePart(part)).failure.None? ==>
              var t := EmitCiphertext(s, HANDSHAKE_EPOCH, true, HandshakePart(part)).sender;
              Extends(s, t) && OnlyHandshakes(s, t)
  {
    if EmitPlaintext(s, true, HandshakePart(part)).failure.None? {
      EmitPlaintextExtends(s, true, HandshakePart(part));
    }
    if EmitCiphertext(s, HANDSHAKE_EPOCH, true, HandshakePart(part)).failure.None? {
      EmitCiphertextExtends(s, HANDSHAKE_EPOCH, true, HandshakePart(part));
    }
  }

  lemma TrackedAckSent(e: Endpoint, p: Sender)
    requires SenderValid(e.snd) && FlightSent(e.snd) && TrackedGenuine(e.rcv)
    requires SenderValid(p) && ReceiverValid(e.rcv) && Genuine(p, e.rcv) && e.rcv.peer == p.side
    requires AckOutcome(e).failure.None?
    ensures Extends(e.snd, AckOutcome(e).sender) && NewAcksGenuine(e.snd, AckOutcome(e).sender, e.rcv)
  {
    if e.rcv.received != [] {
      AckSent(e.snd, e.rcv, p, if e.snd.appSecret.Some? then e.snd.appEpoch else HANDSHAKE_EPOCH, e.rcv.received);
    }
  }

  lemma QueuedAckSent(e: Endpoint, p: Sender)
    requires SenderValid(e.snd) && FlightSent(e.snd) && TrackedGenuine(e.rcv)
    requires SenderValid(p) && ReceiverValid(e.rcv) && Genuine(p, e.rcv) && e.rcv.peer == p.side
    requires SendOutcome(e, Action.SendHandshakeAck).failure.None?
    ensures var t := SendOutcome(e, Action.SendHandshakeAck).sender;
            Extends(e.snd, t) && NewAcksGenuine(e.snd, t, e.rcv)
  {
    var numbers := HandshakeNumbers(e.rcv.queue);
    HandshakeNumbersQueued(e.rcv.queue);
    forall i | 0 <= i < |numbers|
      ensures AcceptedNumber(e.rcv, numbers[i])
    {
      assert Queued(e.rcv.queue, numbers[i]);
    }
    AckSent(e.snd, e.rcv, p, HANDSHAKE_EPOCH, numbers);
  }

  lemma CloseSent(s: Sender, r: Receiver)
    requires SenderValid(s) && FlightSent(s)
    requires EmitCiphertext(s, s.appEpoch, false, CloseNotify).failure.None?
    ensures var t := EmitCiphertext(s, s.appEpoch, false, CloseNotify).sender.(flight := []);
            Extends(s, t) && NewAcksGenuine(s, t, r)
  {
    DataSent(s, r, CloseNotify);
  }

  /** The endpoint's own half of a valid link: its sender, and its receiver fed by `p`. */
  ghost predicate EndpointValid(e: Endpoint, p: Sender) {
    && SenderValid(e.snd) && FlightSent(e.snd)
    && SenderValid(p) && ReceiverValid(e.rcv) && Genuine(p, e.rcv) && TrackedGenuine(e.rcv) && e.rcv.peer == p.side
  }

  ghost predicate SendsWell(e: Endpoint, a: Action) {
    Extends(e.snd, SendAfter(e, a)) && NewAcksGenuine(e.snd, SendAfter(e, a), e.rcv)
  }

  lemma HandshakeSendsWell(e: Endpoint, a: Action)
    requires SenderValid(e.snd) && FlightSent(e.snd) && SendOutcome(e, a).failure.None?
    requires a.SendHello? || a.SendHandshake? || a.Resend? || a.StartKeyUpdate? || a.RespondKeyUpdate?
    ensures SendsWell(e, a)
  {
    match a
    case SendHello(part) => HandshakeSent(e.snd, part);
    case SendHandshake(part) => HandshakeSent(e.snd, part);
    case Resend => ResendExtends(e.snd);
    case StartKeyUpdate => KeyUpdateExtends(e.snd, 1);
    case RespondKeyUpdate => KeyUpdateExtends(e.snd, 0);
  }

  lemma AckSendsWell(e: Endpoint, p: Sender, a: Action)
    requires EndpointValid(e, p) && SendOutcome(e, a).failure.None?
    requires a.SendHandshakeAck? || a.SendAck? || a.ProcessKeyUpdate?
    ensures SendsWell(e, a)
  {
    match a
    case SendHandshakeAck => QueuedAckSent(e, p);
    case SendAck => TrackedAckSent(e, p);
    case ProcessKeyUpdate(_) => if !e.closed { TrackedAckSent(e, p); }
  }

  lemma OtherSendsWell(e: Endpoint, a: Action)
    requires SenderValid(e.snd) && FlightSent(e.snd) && SendOutcome(e, a).failure.None?
    requires a.SendData? || a.Close? || a.BeginFlight? || a.Release? || a.EnableEncryption? || a.Read?
             || a.PollPacket? || a.PurgeHandled?
             || ((a.InstallHandshake? || a.HelloRetry?) && e.snd.hsSecret.None?)
             || (a.InstallApplication? && e.snd.appSecret.None?)
    ensures SendsWell(e, a)
  {
    match a
    case SendData(bytes) => DataSent(e.snd, e.rcv, AppData(bytes));
    case Close => CloseSent(e.snd, e.rcv);
    case InstallHandshake => KeysInstalled(e.snd);
    case InstallApplication => KeysInstalled(e.snd);
    case HelloRetry => KeysInstalled(e.snd);
    case PollPacket => PollExtends(e.snd);
    case _ =>
  }

  /** Polling takes a datagram off the queue and nothing off the log. */
  lemma PollExtends(s: Sender)
    requires SenderValid(s) && FlightSent(s)
    ensures Extends(s, Perform(s, PopPacket))
  {
    PerformKeeps(s, PopPacket);
  }

  lemma KeysInstalled(s: Sender)
    requires SenderValid(s) && FlightSent(s)
    ensures s.hsSecret.None? ==> Extends(s, InstallHandshakeKeys(s)) && Extends(s, ResetForHelloRetry(s))
    ensures s.appSecret.None? ==> Extends(s, InstallApplicationKeys(s))
  {
    if s.hsSecret.None? {
      PerformKeeps(s, SendSide.InstallHandshake);
      PerformKeeps(s, SendSide.HelloRetry);
    }
    if s.appSecret.None? {
      PerformKeeps(s, SendSide.InstallApplication);
    }
  }

  lemma {:induction false} ConsumedItems(w: seq<Item>, t: MessageType)
    ensures |Consumed(w, t)| == |w|
    ensures forall i :: 0 <= i < |w| ==>
              && Consumed(w, t)[i].part == w[i].part
              && Consumed(w, t)[i].epoch == w[i].epoch && Consumed(w, t)[i].number == w[i].number
  {
    if w != [] && w[0].part.msgType == t {
      ConsumedItems(w[1..], t);
    }
  }

  /** Reading moves no record to another place in the queue. */
  lemma ConsumeKeepsNumbers(r: Receiver, wanted: MessageType)
    ensures var t := Consume(r, wanted);
            |t.queue| == |r.queue| && forall i :: 0 <= i < |t.queue| ==>
              && t.queue[i].part == r.queue[i].part
              && t.queue[i].epoch == r.queue[i].epoch && t.queue[i].number == r.queue[i].number
  {
    ConsumedItems(r.queue[FirstUnhandled(r.queue)..], wanted);
  }

  lemma ConsumeTracked(r: Receiver, wanted: MessageType)
    requires TrackedGenuine(r)
    ensures TrackedGenuine(Consume(r, wanted))
  {
    ConsumeKeepsNumbers(r, wanted);
    RequeuedTracked(r, Consume(r, wanted));
  }

  lemma RequeuedTracked(r: Receiver, t: Receiver)
    requires TrackedGenuine(r) && t.accepted == r.accepted && t.received == r.received
    requires |t.queue| == |r.queue|
    requires forall i :: 0 <= i < |t.queue| ==>
               t.queue[i].epoch == r.queue[i].epoch && t.queue[i].number == r.queue[i].number
    ensures TrackedGenuine(t)
  {
    forall n | AcceptedNumber(r, n)
      ensures AcceptedNumber(t, n)
    {
    }
  }

  lemma {:induction false} UnhandledSubset(queue: seq<Item>)
    ensures forall item :: item in Unhandled(queue) ==> item in queue
  {
    if queue != [] {
      UnhandledSubset(queue[1..]);
    }
  }

  lemma {:induction false} PurgedSubset(queue: seq<Item>)
    ensures forall item :: item in Purged(queue) ==> item in queue
  {
    if queue != [] && queue[0].handled {
      PurgedSubset(queue[1..]);
    }
  }

  /** Purging takes the consumed fragments off the front and stops at the first that is not. */
  lemma {:induction false} PurgedExact(queue: seq<Item>, n: nat)
    requires n <= |queue| && (forall i :: 0 <= i < n ==> queue[i].handled) && (n < |queue| ==> !queue[n].handled)
    ensures Purged(queue) == queue[n..]
    decreases n
  {
    if n > 0 {
      PurgedExact(queue[1..], n - 1);
      assert queue[1..][n - 1..] == queue[n..];
    }
  }

  /** Same place, same fragment, whatever has become of it. */
  predicate SameItem(a: Item, b: Item) {
    a.part == b.part && a.epoch == b.epoch && a.number == b.number
  }

  ghost predicate ReceivesWell(r: Receiver, t: Receiver) {
    && ReceiverValid(t) && TrackedGenuine(t) && t.accepted == r.accepted && t.peer == r.peer
    && forall item :: item in t.queue ==> exists was :: was in r.queue && SameItem(item, was)
  }

  lemma WellQueueSent(s: Sender, r: Receiver, t: Receiver)
    requires ReceivesWell(r, t) && QueueSent(s, r)
    ensures QueueSent(s, t)
  {
    forall item | item in t.queue
      ensures RecordOf(s.side, item.epoch, item.number, HandshakePart(item.part)) in s.sent
    {
      var was :| was in r.queue && SameItem(item, was);
    }
  }

  lemma SameQueue(r: Receiver, t: Receiver)
    requires r.queue == t.queue
    ensures forall item :: item in t.queue ==> exists was :: was in r.queue && SameItem(item, was)
  {
    forall item | item in t.queue
      ensures exists was :: was in r.queue && SameItem(item, was)
    {
      assert SameItem(item, item);
    }
  }

  lemma ConsumeWell(r: Receiver, wanted: MessageType)
    requires ReceiverValid(r) && TrackedGenuine(r)
    ensures ReceivesWell(r, Consume(r, wanted))
  {
    ConsumeTracked(r, wanted);
    ConsumeKeepsNumbers(r, wanted);
    var t := Consume(r, wanted);
    forall item | item in t.queue
      ensures exists was :: was in r.queue && SameItem(item, was)
    {
      var i :| 0 <= i < |t.queue| && t.queue[i] == item;
      assert SameItem(item, r.queue[i]);
    }
  }

  lemma WellTransitive(r: Receiver, t: Receiver, u: Receiver)
    requires ReceivesWell(r, t) && ReceivesWell(t, u)
    ensures ReceivesWell(r, u)
  {
    forall item | item in u.queue
      ensures exists was :: was in r.queue && SameItem(item, was)
    {
      var mid :| mid in t.queue && SameItem(item, mid);
      var was :| was in r.queue && SameItem(mid, was);
      assert SameItem(item, was);
    }
  }

  lemma UpdateWell(r: Receiver)
    requires ReceiverValid(r) && TrackedGenuine(r)
    ensures ReceivesWell(r, UpdateRecvKeys(r))
  {
    UpdateRecvKeysKeeps(r);
    TrackedGrows(r, UpdateRecvKeys(r));
    SameQueue(r, UpdateRecvKeys(r));
  }

  lemma ForgetWell(r: Receiver)
    requires ReceiverValid(r) && TrackedGenuine(r)
    ensures ReceivesWell(r, r.(received := []))
  {
    FewerTracked(r, r.queue);
    SameQueue(r, r.(received := []));
  }

  lemma RotatedWell(r: Receiver)
    requires ReceiverValid(r) && TrackedGenuine(r)
    ensures ReceivesWell(r, Rotated(r)) && ReceivesWell(r, Rotated(r).(received := []))
  {
    ConsumeWell(r, KeyUpdate);
    UpdateWell(Consume(r, KeyUpdate));
    WellTransitive(r, Consume(r, KeyUpdate), Rotated(r));
    ForgetWell(Rotated(r));
    WellTransitive(r, Rotated(r), Rotated(r).(received := []));
  }

  lemma RetryWell(r: Receiver)
    requires ReceiverValid(r) && TrackedGenuine(r)
    ensures ReceivesWell(r, r.(queue := Unhandled(r.queue)))
  {
    UnhandledSubset(r.queue);
    QueueSubset(r, Unhandled(r.queue));
    forall item | item in Unhandled(r.queue)
      ensures exists was :: was in r.queue && SameItem(item, was)
    {
      assert SameItem(item, item);
    }
  }

  lemma PurgeWell(r: Receiver)
    requires ReceiverValid(r) && TrackedGenuine(r)
    ensures ReceivesWell(r, r.(queue := Purged(r.queue)))
  {
    PurgedSubset(r.queue);
    QueueSubset(r, Purged(r.queue));
    forall item | item in Purged(r.queue)
      ensures exists was :: was in r.queue && SameItem(item, was)
    {
      assert SameItem(item, item);
    }
  }

  /** Installing keys and opening up leave queue and accepted records alone. */
  lemma InstallWell(r: Receiver)
    requires ReceiverValid(r) && TrackedGenuine(r)
    ensures ReceivesWell(r, InstallHandshakeRecv(r))
    ensures r.slots == [] ==> ReceivesWell(r, InstallApplicationRecv(r))
  {
    TrackedGrows(r, InstallHandshakeRecv(r));
    SameQueue(r, InstallHandshakeRecv(r));
    TrackedGrows(r, InstallApplicationRecv(r));
    SameQueue(r, InstallApplicationRecv(r));
  }

  lemma OpenUpWell(r: Receiver)
    requires ReceiverValid(r) && TrackedGenuine(r)
    ensures ReceivesWell(r, r) && ReceivesWell(r, r.(peerEncryption := true)) && ReceivesWell(r, ReceiveSide.Release(r))
  {
    SameQueue(r, r);
    TrackedGrows(r, r.(peerEncryption := true));
    SameQueue(r, r.(peerEncryption := true));
    TrackedGrows(r, ReceiveSide.Release(r));
    SameQueue(r, ReceiveSide.Release(r));
  }

  lemma ReadingWell(e: Endpoint, a: Action)
    requires ReceiverValid(e.rcv) && TrackedGenuine(e.rcv)
    requires a.Read? || a.ProcessKeyUpdate? || a.HelloRetry? || a.SendAck? || a.PurgeHandled?
    ensures ReceivesWell(e.rcv, RecvAfter(e, a))
  {
    if a.Read? {
      ConsumeWell(e.rcv, a.wanted);
    } else if a.ProcessKeyUpdate? {
      var t := RotatingIs(e, a);
    } else {
      var t := TidyingIs(e, a);
    }
  }

  lemma RotatingIs(e: Endpoint, a: Action) returns (t: Receiver)
    requires ReceiverValid(e.rcv) && TrackedGenuine(e.rcv) && a.ProcessKeyUpdate?
    ensures t == RecvAfter(e, a) && ReceivesWell(e.rcv, t)
  {
    var after, forgotten := RotatedIs(e.rcv);
    t := if e.closed then after else forgotten;
  }

  lemma RotatedIs(r: Receiver) returns (after: Receiver, forgotten: Receiver)
    requires ReceiverValid(r) && TrackedGenuine(r)
    ensures after == Rotated(r) && forgotten == after.(received := [])
    ensures ReceivesWell(r, after) && ReceivesWell(r, forgotten)
  {
    RotatedWell(r);
    after, forgotten := Rotated(r), Rotated(r).(received := []);
  }

  lemma TidyingIs(e: Endpoint, a: Action) returns (t: Receiver)
    requires ReceiverValid(e.rcv) && TrackedGenuine(e.rcv) && (a.HelloRetry? || a.SendAck? || a.PurgeHandled?)
    ensures t == RecvAfter(e, a) && ReceivesWell(e.rcv, t)
  {
    match a
    case HelloRetry =>
      RetryWell(e.rcv);
      t := e.rcv.(queue := Unhandled(e.rcv.queue));
    case SendAck =>
      ForgetWell(e.rcv);
      t := e.rcv.(received := []);
    case PurgeHandled =>
      PurgeWell(e.rcv);
      t := e.rcv.(queue := Purged(e.rcv.queue));
  }

  /** The receiving half of every action but a delivery. */
  lemma RecvAfterWell(e: Endpoint, a: Action)
    requires ReceiverValid(e.rcv) && TrackedGenuine(e.rcv)
    ensures ReceivesWell(e.rcv, RecvAfter(e, a))
  {
    if a.Read? || a.ProcessKeyUpdate? || a.HelloRetry? || a.SendAck? || a.PurgeHandled? {
      ReadingWell(e, a);
    } else {
      InstallWell(e.rcv);
      OpenUpWell(e.rcv);
    }
  }

  lemma FewerTracked(r: Receiver, queue: seq<Item>)
    requires TrackedGenuine(r) && queue == r.queue
    ensures TrackedGenuine(r.(received := []))
  {
    var t := r.(received := []);
    forall n | AcceptedNumber(r, n)
      ensures AcceptedNumber(t, n)
    {
      assert t.accepted == r.accepted;
    }
  }

  lemma QueueSubset(r: Receiver, queue: seq<Item>)
    requires TrackedGenuine(r) && forall item :: item in queue ==> item in r.queue
    ensures TrackedGenuine(r.(queue := queue))
  {
    var t := r.(queue := queue);
    forall n | AcceptedNumber(r, n)
      ensures AcceptedNumber(t, n)
    {
      assert t.accepted == r.accepted;
    }
    forall i | 0 <= i < |queue|
      ensures queue[i] in r.queue
    {
    }
  }

  lemma AcknowledgedIs(s: Sender, r: Receiver, record: Record, garbage: nat)
    ensures var t := Acknowledged(s, r, record, garbage);
            t == s || (record.payload.AckData? && t == ProcessAck(s, record.payload.bytes))
  {
  }

  lemma DeliverKeeps(e: Endpoint, p: Endpoint, index: nat, garbage: nat)
    requires Direction(e.snd, p.rcv, p.snd) && Direction(p.snd, e.rcv, e.snd) && index < |p.snd.sent|
    ensures var record := p.snd.sent[index];
            && Direction(Acknowledged(e.snd, e.rcv, record, garbage), p.rcv, p.snd)
            && Direction(p.snd, Receive(e.rcv, record, garbage), Acknowledged(e.snd, e.rcv, record, garbage))
            && Acknowledged(e.snd, e.rcv, record, garbage).side == e.snd.side
  {
    var record := p.snd.sent[index];
    ReceiveDirection(p.snd, e.rcv, e.snd, record, garbage);
    var s := Acknowledged(e.snd, e.rcv, record, garbage);
    AcknowledgedIs(e.snd, e.rcv, record, garbage);
    if s != e.snd {
      assert GenuineAck(p.rcv, record);
      ProcessAckSound(e.snd, p.rcv, p.snd, record.payload.bytes);
    }
    AckSendsNothing(e.snd, record.payload);
    NewAcksKeepBackward(p.snd, Receive(e.rcv, record, garbage), e.snd, s);
  }

  lemma AckSendsNothing(s: Sender, payload: Payload)
    ensures payload.AckData? ==>
              ProcessAck(s, payload.bytes).sent == s.sent && ProcessAck(s, payload.bytes).side == s.side
  {
  }

  /** Releasing drops the handshake keys, and nothing brings them back. */
  lemma RecvAfterReleased(e: Endpoint, a: Action)
    requires HandshakeKeysGone(e.rcv) && (a.InstallHandshake? ==> !e.rcv.released)
    ensures HandshakeKeysGone(RecvAfter(e, a))
  {
  }

  lemma ActKeeps(e: Endpoint, p: Endpoint, a: Action)
    requires Direction(e.snd, p.rcv, p.snd) && Direction(p.snd, e.rcv, e.snd)
    requires !a.Deliver? && SendOutcome(e, a).failure.None?
    requires (a.InstallHandshake? || a.HelloRetry?) ==> e.snd.hsSecret.None?
    requires a.InstallApplication? ==> e.snd.appSecret.None?
    requires a.InstallHandshake? ==> !e.rcv.released
    ensures Direction(SendAfter(e, a), p.rcv, p.snd)
    ensures Direction(p.snd, RecvAfter(e, a), SendAfter(e, a))
    ensures SendAfter(e, a).side == e.snd.side
  {
    if a.SendHello? || a.SendHandshake? || a.Resend? || a.StartKeyUpdate? || a.RespondKeyUpdate? {
      HandshakeSendsWell(e, a);
    } else if a.SendHandshakeAck? || a.SendAck? || a.ProcessKeyUpdate? {
      AckSendsWell(e, p.snd, a);
    } else {
      OtherSendsWell(e, a);
    }
    RecvAfterWell(e, a);
    RecvAfterReleased(e, a);
    WellQueueSent(p.snd, e.rcv, RecvAfter(e, a));
    ExtendsKeepsForward(e.snd, SendAfter(e, a), p.rcv, p.snd);
    NewAcksKeepBackward(p.snd, e.rcv, e.snd, SendAfter(e, a));
    ReceiverGrows(p.snd, e.rcv, RecvAfter(e, a), SendAfter(e, a));
  }

  /** What an action does to the endpoint that takes it, delivery or not. */
  lemma ActHalves(sys: System, step: Step)
    requires Enabled(sys, step)
    ensures var e, p := sys.At(step.who), sys.At(step.who.Peer());
            if step.action.Deliver? then
              var record := p.snd.sent[step.action.index];
              && Act(sys, step).snd == Acknowledged(e.snd, e.rcv, record, step.action.garbage)
              && Act(sys, step).rcv == Receive(e.rcv, record, step.action.garbage)
            else
              Act(sys, step).snd == SendAfter(e, step.action) && Act(sys, step).rcv == RecvAfter(e, step.action)
  {
  }

  lemma NextKeeps(sys: System, step: Step)
    requires LinkValid(sys) && Enabled(sys, step)
    ensures LinkValid(Next(sys, step))
  {
    var e, p := sys.At(step.who), sys.At(step.who.Peer());
    ActHalves(sys, step);
    if step.action.Deliver? {
      DeliverKeeps(e, p, step.action.index, step.action.garbage);
    } else {
      ActKeeps(e, p, step.action);
    }
    PutKeeps(sys, step.who, Act(sys, step));
  }

  lemma PutKeeps(sys: System, who: Side, e: Endpoint)
    requires LinkValid(sys) && e.snd.side == who
    requires var p := sys.At(who.Peer()); Direction(e.snd, p.rcv, p.snd) && Direction(p.snd, e.rcv, e.snd)
    ensures LinkValid(sys.Put(who, e))
  {
  }

  lemma {:induction false} RunKeeps(sys: System, steps: seq<Step>)
    requires LinkValid(sys) && EnabledRun(sys, steps)
    ensures LinkValid(Run(sys, steps))
    decreases |steps|
  {
    if steps != [] {
      NextKeeps(sys, steps[0]);
      RunKeeps(Next(sys, steps[0]), steps[1..]);
    }
  }

  // ----- What the peers may conclude -----

  lemma NewSystemValid(config: Config, maxQueueRx: nat)
    ensures LinkValid(NewSystem(config, maxQueueRx))
  {
  }

  /** In every run over the network, an entry of a saved flight is marked acknowledged only
      if the peer has received a record carrying exactly that entry, under the number the
      entry was last sent with. */
  lemma AckSoundness(config: Config, maxQueueRx: nat, steps: seq<Step>, who: Side, e: Entry)
    requires EnabledRun(NewSystem(config, maxQueueRx), steps)
    requires var sys := Run(NewSystem(config, maxQueueRx), steps);
             e in sys.At(who).snd.flight && e.acked
    ensures var sys := Run(NewSystem(config, maxQueueRx), steps);
            Opened(e.epoch, e.sendSeq, e.payload) in sys.At(who.Peer()).rcv.accepted
  {
    NewSystemValid(config, maxQueueRx);
    RunKeeps(NewSystem(config, maxQueueRx), steps);
    var sys := Run(NewSystem(config, maxQueueRx), steps);
    assert Direction(sys.At(who).snd, sys.At(who.Peer()).rcv, sys.At(who.Peer()).snd);
  }

  /** A delivered ACK clears a flight with epoch-2 entries only when the peer has received
      every one of them. */
  lemma ClearedFlightReceived(sys: System, step: Step, e: Entry)
    requires LinkValid(sys) && Enabled(sys, step) && step.action.Deliver?
    requires e in sys.At(step.who).snd.flight && e.epoch == HANDSHAKE_EPOCH
    requires Next(sys, step).At(step.who).snd.flight == []
    ensures Opened(e.epoch, e.sendSeq, e.payload) in sys.At(step.who.Peer()).rcv.accepted
  {
    var end, p := sys.At(step.who), sys.At(step.who.Peer());
    assert Direction(end.snd, p.rcv, p.snd);
    var record := p.snd.sent[step.action.index];
    assert GenuineAck(p.rcv, record);
    ActHalves(sys, step);
    AcknowledgedIs(end.snd, end.rcv, record, step.action.garbage);
    ClearedMeansAcked(end.snd, record.payload.bytes, e);
    assert EntrySent(end.snd, e);
    if e.acked {
      assert EntryReceived(p.rcv, e);
    } else {
      NumberNamesEntry(end.snd, p.rcv, e);
    }
  }

  /** An ACK that clears the flight lists every epoch-2 entry not yet marked. */
  lemma ClearedMeansAcked(s: Sender, body: seq<nat>, e: Entry)
    requires e in s.flight && e.epoch == HANDSHAKE_EPOCH && ProcessAck(s, body).flight == []
    ensures e.acked || (e.epoch, e.sendSeq) in DecodeAck(body)
  {
    var i :| 0 <= i < |s.flight| && s.flight[i] == e;
    var marked := MarkAcked(s.flight, DecodeAck(body));
    assert marked[i].acked ==> e.acked || (e.epoch, e.sendSeq) in DecodeAck(body);
    assert marked[i].epoch == HANDSHAKE_EPOCH;
  }

  /** The failing send that breaks this: the full transmit queue is noticed after the entry
      is saved, and the next record takes the number the entry stands for.  An ACK for that
      record then marks both entries, though the first was never sent. */
  lemma FullQueueMisleads(s: Sender, lost: Payload, next: Payload)
    requires SenderValid(s)
    requires EmitCiphertext(s, HANDSHAKE_EPOCH, true, lost).failure == Some(TransmitQueueFull)
    requires EmitCiphertext(Perform(EmitCiphertext(s, HANDSHAKE_EPOCH, true, lost).sender, PopPacket),
                            HANDSHAKE_EPOCH, true, next).failure.None?
    requires lost != next && s.hsSeq < MAX_SEQUENCE_NUMBER
    ensures var drained := Perform(EmitCiphertext(s, HANDSHAKE_EPOCH, true, lost).sender, PopPacket);
            var t := EmitCiphertext(drained, HANDSHAKE_EPOCH, true, next).sender;
            var marked := MarkAcked(t.flight, DecodeAck(EncodeAck([(HANDSHAKE_EPOCH, s.hsSeq)])));
            var n := |s.flight|;
            && |marked| == n + 2
            && marked[n].acked && marked[n + 1].acked
            && marked[n].payload == lost
            && RecordOf(s.side, HANDSHAKE_EPOCH, s.hsSeq, lost) !in t.sent
  {
    var drained := Perform(EmitCiphertext(s, HANDSHAKE_EPOCH, true, lost).sender, PopPacket);
    var t := EmitCiphertext(drained, HANDSHAKE_EPOCH, true, next).sender;
    SavedFlight(drained, HANDSHAKE_EPOCH, next);
    assert drained.flight == s.flight + [Entry(HANDSHAKE_EPOCH, s.hsSeq, lost, false)];
    EmittedSender(drained, HANDSHAKE_EPOCH, true, next);
    OneNumber(s.hsSeq);
    var record := RecordOf(s.side, HANDSHAKE_EPOCH, s.hsSeq, lost);
    forall i | 0 <= i < |t.sent|
      ensures t.sent[i] != record
    {
      if i < |s.sent| {
        assert Behind(s, s.sent[i]);
      }
    }
    assert t.flight == s.flight
                       + [Entry(HANDSHAKE_EPOCH, s.hsSeq, lost, false), Entry(HANDSHAKE_EPOCH, s.hsSeq, next, false)];
  }

  lemma OneNumber(n: nat)
    requires n < MAX_SEQUENCE_NUMBER
    ensures DecodeAck(EncodeAck([(HANDSHAKE_EPOCH, n)])) == [(HANDSHAKE_EPOCH, n)]
  {
    assert Power256(8) > 0xFFFF_FFFF_FFFF by {
      assert Power256(3) == 0x100_0000;
      assert Power256(6) == 0x1_0000_0000_0000;
    }
    AckRoundTrip([(HANDSHAKE_EPOCH, n)]);
  }

  // ----- A run in which that happens -----

  /** A fragment that fills a datagram of 64 bytes by itself. */
  function Filling(seqNo: nat): Payload {
    HandshakePart(Part(Certificate, seqNo, 30, 0, seq(30, i => 0)))
  }

  const NARROW := Config(64, 1, 16)

  lemma FillsDatagram(r: Record, secret: Secret, number: nat, seqNo: nat)
    requires r == Sealed(secret, HANDSHAKE_EPOCH, number, Filling(seqNo))
    ensures DatagramLen([r], 16) == WireLen(r, 16) == 64
  {
    assert [r][..0] == [];
  }

  /** A new engine whose queue holds one datagram, after it has filled it. */
  lemma FirstFills()
    ensures var s := Perform(NewSender(NARROW, Client), SendSide.InstallHandshake);
            var t := Perform(s, SendSide.SendHandshake(Filling(0)));
            && SenderValid(t) && t.hsSeq == 1 && t.config == NARROW && t.hsSecret.Some? && !t.datagramSealed
            && |t.queueTx| == 1 && DatagramLen(t.queueTx[0], 16) == 64 && |t.flight| == 1 && t.side == Client
  {
    var engine := NewSender(NARROW, Client);
    var s := Perform(engine, SendSide.InstallHandshake);
    PerformKeeps(engine, SendSide.InstallHandshake);
    PerformKeeps(s, SendSide.SendHandshake(Filling(0)));
    EmittedSender(s, HANDSHAKE_EPOCH, true, Filling(0));
    FillsDatagram(Sealed(HandshakeTraffic(Client), HANDSHAKE_EPOCH, 0, Filling(0)), HandshakeTraffic(Client), 0, 0);
  }

  /** The second message finds the queue full, the third takes its number once the queue has
      been polled, and an ACK of the third marks the second, which no record ever carried. */
  lemma FullQueueRun()
    ensures var s := Perform(NewSender(NARROW, Client), SendSide.InstallHandshake);
            var first := Perform(s, SendSide.SendHandshake(Filling(0)));
            var full := Perform(first, SendSide.SendHandshake(Filling(1)));
            var third := Perform(Perform(full, PopPacket), SendSide.SendHandshake(Filling(2)));
            var end := Perform(third, SendSide.ReceiveAck(EncodeAck([(HANDSHAKE_EPOCH, 1)])));
            && full.sent == first.sent
            && |end.flight| == 3 && end.flight[1].acked && end.flight[1].payload == Filling(1)
            && RecordOf(Client, HANDSHAKE_EPOCH, 1, Filling(1)) !in end.sent
  {
    FirstFills();
    var s := Perform(NewSender(NARROW, Client), SendSide.InstallHandshake);
    var first := Perform(s, SendSide.SendHandshake(Filling(0)));
    var full := Perform(first, SendSide.SendHandshake(Filling(1)));
    var polled := Perform(full, PopPacket);
    var third := Perform(polled, SendSide.SendHandshake(Filling(2)));
    assert Filling(1) != Filling(2) by {
      assert Filling(1).part.seqNo != Filling(2).part.seqNo;
    }
    FullQueueMisleads(first, Filling(1), Filling(2));
    AckOfThird(third);
  }

  lemma AckOfThird(s: Sender)
    requires |s.flight| == 3 && s.flight[0].epoch == HANDSHAKE_EPOCH && !s.flight[0].acked && s.flight[0].sendSeq == 0
    ensures var t := ProcessAck(s, EncodeAck([(HANDSHAKE_EPOCH, 1)]));
            t.flight == MarkAcked(s.flight, DecodeAck(EncodeAck([(HANDSHAKE_EPOCH, 1)]))) && t.sent == s.sent
  {
    OneNumber(1);
    var marked := MarkAcked(s.flight, [(HANDSHAKE_EPOCH, 1)]);
    assert !marked[0].acked;
    assert !HandshakeAcked(marked) && !AllAcked(marked);
    AckIsRead([(HANDSHAKE_EPOCH, 1)]) by {
      assert Power256(8) > 0xFFFF_FFFF_FFFF by {
        assert Power256(3) == 0x100_0000;
        assert Power256(6) == 0x1_0000_0000_0000;
      }
    }
  }
}
