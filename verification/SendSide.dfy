/** The sending half of a DTLS 1.3 engine: counters and keys per epoch, the saved flight,
    and the datagrams records are packed into. */
module SendSide {
  import opened Queues
  import opened Handshakes
  import opened RecordNumbers
  import opened Records

  const MAX_FLIGHT := 12

  datatype Config = Config(mtu: nat, maxQueueTx: nat, tagLen: nat)

  /** A saved record of the current flight. */
  datatype Entry = Entry(epoch: nat, sendSeq: nat, payload: Payload, acked: bool)

  datatype Failure = TransmitQueueFull | NoKeys | SequenceExhausted | FlightFull | CounterOverflow

  /** `sent` lists every record ever put on the transmit queue, oldest first; the other
      fields are the engine's own. */
  datatype Sender = Sender(
    config: Config,
    side: Side,
    plainSeq: nat,
    hsSecret: Option<Secret>,
    hsSeq: nat,
    appSecret: Option<Secret>,
    appEpoch: nat,
    appSeq: nat,
    prevSecret: Option<Secret>,
    prevEpoch: nat,
    prevSeq: nat,
    flight: seq<Entry>,
    nextMsgSeq: nat,
    datagramSealed: bool,
    queueTx: seq<seq<Record>>,
    sent: seq<Record>)

  datatype Outcome = Outcome(sender: Sender, failure: Option<Failure>)

  function NewSender(config: Config, side: Side): Sender {
    Sender(config, side, 0, None, 0, None, FIRST_APP_EPOCH, 0, None, 0, 0, [], 0, false, [], [])
  }

  // ----- Packing -----

  function DatagramLen(d: seq<Record>, tagLen: nat): nat {
    if d == [] then 0 else DatagramLen(d[..|d| - 1], tagLen) + WireLen(d[|d| - 1], tagLen)
  }

  predicate CanAppend(s: Sender, r: Record) {
    && !s.datagramSealed
    && s.queueTx != []
    && DatagramLen(s.queueTx[|s.queueTx| - 1], s.config.tagLen) + WireLen(r, s.config.tagLen) <= s.config.mtu
  }

  predicate NoRoom(s: Sender, r: Record) {
    !CanAppend(s, r) && |s.queueTx| >= s.config.maxQueueTx
  }

  function Enqueue(s: Sender, r: Record): Sender {
    if CanAppend(s, r) then
      var last := |s.queueTx| - 1;
      s.(queueTx := s.queueTx[last := s.queueTx[last] + [r]], sent := s.sent + [r])
    else
      s.(datagramSealed := false, queueTx := s.queueTx + [[r]], sent := s.sent + [r])
  }

  // ----- Emitting records -----

  function Saved(s: Sender, save: bool, epoch: nat, number: nat, payload: Payload): Sender {
    if save then s.(flight := s.flight + [Entry(epoch, number, payload, false)]) else s
  }

  function EmitPlaintext(s0: Sender, save: bool, payload: Payload): Outcome {
    if save && |s0.flight| >= MAX_FLIGHT then Outcome(s0, Some(FlightFull))
    else
      var s := Saved(s0, save, 0, s0.plainSeq, payload);
      var r := Plaintext(s.plainSeq, payload);
      if NoRoom(s, r) then Outcome(s, Some(TransmitQueueFull))
      else if s.plainSeq >= MAX_SEQUENCE_NUMBER then Outcome(s, Some(SequenceExhausted))
      else Outcome(Enqueue(s.(plainSeq := s.plainSeq + 1), r), None)
  }

  predicate UsesPrevious(s: Sender, epoch: nat) {
    s.prevSecret.Some? && epoch == s.prevEpoch
  }

  function NumberFor(s: Sender, epoch: nat): nat {
    if epoch == HANDSHAKE_EPOCH then s.hsSeq
    else if UsesPrevious(s, epoch) then s.prevSeq
    else s.appSeq
  }

  function SecretFor(s: Sender, epoch: nat): Option<Secret> {
    if epoch == HANDSHAKE_EPOCH then s.hsSecret
    else if UsesPrevious(s, epoch) then s.prevSecret
    else s.appSecret
  }

  function Counted(s: Sender, epoch: nat): Sender {
    if epoch == HANDSHAKE_EPOCH then s.(hsSeq := s.hsSeq + 1)
    else if UsesPrevious(s, epoch) then s.(prevSeq := s.prevSeq + 1)
    else s.(appSeq := s.appSeq + 1)
  }

  /** The record that carries `payload` as number `number` of epoch `epoch`. */
  function Sealed(secret: Secret, epoch: nat, number: nat, payload: Payload): Record {
    Ciphertext(secret, number, epoch % 4, number % 0x1_0000, payload)
  }

  function EmitCiphertext(s0: Sender, epoch: nat, save: bool, payload: Payload): Outcome {
    if save && |s0.flight| >= MAX_FLIGHT then Outcome(s0, Some(FlightFull))
    else
      var number := NumberFor(s0, epoch);
      var s := Saved(s0, save, epoch, number, payload);
      match SecretFor(s, epoch)
      case None => Outcome(s, Some(NoKeys))
      case Some(secret) =>
        var r := Sealed(secret, epoch, number, payload);
        if NoRoom(s, r) then Outcome(s, Some(TransmitQueueFull))
        else if number >= MAX_SEQUENCE_NUMBER then Outcome(s, Some(SequenceExhausted))
        else Outcome(Enqueue(Counted(s, epoch), r), None)
  }

  // ----- Flights -----

  function EmitAgain(s: Sender, e: Entry): Outcome {
    if e.epoch == 0 then EmitPlaintext(s, false, e.payload) else EmitCiphertext(s, e.epoch, false, e.payload)
  }

  function ResendNumber(s: Sender, e: Entry): nat {
    if e.epoch == 0 then s.plainSeq else NumberFor(s, e.epoch)
  }

  /** Send the unacknowledged entries again, each under its own epoch and a new number,
      and return the entries with the numbers they now stand for. */
  function ResendEntries(s: Sender, entries: seq<Entry>): (Outcome, seq<Entry>)
    decreases |entries|
  {
    if entries == [] then (Outcome(s, None), [])
    else if entries[0].acked then
      var (o, rest) := ResendEntries(s, entries[1..]);
      (o, [entries[0]] + rest)
    else
      var o := EmitAgain(s, entries[0]);
      if o.failure.Some? then (o, [])
      else
        var (o', rest) := ResendEntries(o.sender, entries[1..]);
        (o', [entries[0].(sendSeq := ResendNumber(s, entries[0]))] + rest)
  }

  /** A failed resend loses the flight: its entries were taken out beforehand. */
  function FlightResend(s: Sender): Outcome {
    var (o, entries) := ResendEntries(s.(flight := [], datagramSealed := true), s.flight);
    if o.failure.Some? then o else o.(sender := o.sender.(flight := entries))
  }

  function FlightBegin(s: Sender): Sender {
    s.(flight := [])
  }

  function MarkAcked(entries: seq<Entry>, acks: seq<Number>): seq<Entry> {
    seq(|entries|, i requires 0 <= i < |entries| =>
      var e := entries[i];
      if (e.epoch, e.sendSeq) in acks then e.(acked := true) else e)
  }

  predicate AllAcked(entries: seq<Entry>) {
    forall i :: 0 <= i < |entries| ==> entries[i].acked
  }

  predicate HandshakeAcked(entries: seq<Entry>) {
    && (exists i :: 0 <= i < |entries| && entries[i].epoch == HANDSHAKE_EPOCH)
    && (forall i :: 0 <= i < |entries| && entries[i].epoch == HANDSHAKE_EPOCH ==> entries[i].acked)
  }

  function ProcessAck(s: Sender, body: seq<nat>): Sender {
    if |body| < 2 || |body| - 2 < FromBytes(body[..2]) then s
    else
      var marked := s.(flight := MarkAcked(s.flight, DecodeAck(body)));
      var stopped := if HandshakeAcked(marked.flight) then marked.(flight := []) else marked;
      if stopped.prevSecret.Some? && stopped.flight != [] && AllAcked(stopped.flight)
      then stopped.(prevSecret := None, flight := [])
      else stopped
  }

  // ----- What acknowledging and resending achieve -----

  predicate Listed(e: Entry, numbers: seq<Number>) {
    e.acked || (e.epoch, e.sendSeq) in numbers
  }

  /** An ACK clears a flight with epoch-2 entries exactly when none of these is left that
      was neither acknowledged before nor is listed now. */
  lemma AckClearsExact(s: Sender, numbers: seq<Number>)
    requires Encodable(numbers) && exists i :: 0 <= i < |s.flight| && s.flight[i].epoch == HANDSHAKE_EPOCH
    ensures ProcessAck(s, EncodeAck(numbers)).flight == []
            <==> forall i :: 0 <= i < |s.flight| && s.flight[i].epoch == HANDSHAKE_EPOCH ==>
                   Listed(s.flight[i], numbers)
  {
    AckRoundTrip(numbers);
    var marked := MarkAcked(s.flight, numbers);
    assert forall i :: 0 <= i < |s.flight| ==>
        marked[i].epoch == s.flight[i].epoch && (marked[i].acked <==> Listed(s.flight[i], numbers));
    AckIsRead(numbers);
  }

  /** With a KeyUpdate in flight, an ACK retires the previous keys exactly when it leaves no
      entry unacknowledged. */
  lemma AckRetiresExact(s: Sender, numbers: seq<Number>)
    requires Encodable(numbers) && s.prevSecret.Some? && s.flight != []
    requires forall i :: 0 <= i < |s.flight| ==> s.flight[i].epoch != HANDSHAKE_EPOCH
    ensures ProcessAck(s, EncodeAck(numbers)).prevSecret.None?
            <==> forall i :: 0 <= i < |s.flight| ==> Listed(s.flight[i], numbers)
  {
    AckRoundTrip(numbers);
    var marked := MarkAcked(s.flight, numbers);
    assert forall i :: 0 <= i < |s.flight| ==>
        marked[i].epoch == s.flight[i].epoch && (marked[i].acked <==> Listed(s.flight[i], numbers));
    AckIsRead(numbers);
  }

  /** An ACK that does not end the flight marks just the entries it lists, besides those that
      were marked before. */
  lemma AckMarksExact(s: Sender, numbers: seq<Number>)
    requires Encodable(numbers) && ProcessAck(s, EncodeAck(numbers)).flight != []
    ensures var t := ProcessAck(s, EncodeAck(numbers));
            && |t.flight| == |s.flight| && t == s.(flight := t.flight)
            && forall i :: 0 <= i < |s.flight| ==>
                 && (t.flight[i].acked <==> Listed(s.flight[i], numbers))
                 && t.flight[i] == s.flight[i].(acked := t.flight[i].acked)
  {
    AckRoundTrip(numbers);
    AckIsRead(numbers);
  }

  /** An ACK as written is not one that is too short to be read. */
  lemma AckIsRead(numbers: seq<Number>)
    requires Encodable(numbers)
    ensures var body := EncodeAck(numbers); |body| >= 2 && |body| - 2 >= FromBytes(body[..2])
  {
    assert Power256(2) == 0x1_0000 by { assert Power256(1) == 256; }
    BytesRoundTrip(16 * |numbers|, 2);
    assert EncodeAck(numbers)[..2] == ToBytes(16 * |numbers|, 2);
  }

  function Unacked(entries: seq<Entry>): seq<Entry> {
    if entries == [] then [] else (if entries[0].acked then [] else [entries[0]]) + Unacked(entries[1..])
  }

  /** The record carries the entry, under the entry's epoch and the number it stands for. */
  predicate Carries(r: Record, e: Entry, side: Side) {
    && r.payload == e.payload && r.number == e.sendSeq
    && if e.epoch == 0 then r.Plaintext?
       else e.epoch >= HANDSHAKE_EPOCH && r.Ciphertext? && r.secret == SecretOf(side, e.epoch)
  }

  ghost predicate CarriedBy(entries: seq<Entry>, records: seq<Record>, side: Side) {
    |entries| == |records| && forall i :: 0 <= i < |entries| ==> Carries(records[i], entries[i], side)
  }

  // ----- Keys -----

  function InstallHandshakeKeys(s: Sender): Sender {
    s.(hsSecret := Some(HandshakeTraffic(s.side)), hsSeq := 0)
  }

  function InstallApplicationKeys(s: Sender): Sender {
    s.(appSecret := Some(ApplicationTraffic(s.side)), appEpoch := FIRST_APP_EPOCH, appSeq := 0)
  }

  function UpdateSendKeys(s: Sender): Outcome {
    match s.appSecret
    case None => Outcome(s, Some(NoKeys))
    case Some(current) =>
      if s.appEpoch >= MAX_EPOCH then Outcome(s, Some(CounterOverflow))
      else
        Outcome(
          s.(prevSecret := Some(current), prevEpoch := s.appEpoch, prevSeq := s.appSeq,
             appSecret := Some(NextTraffic(current)), appEpoch := s.appEpoch + 1, appSeq := 0),
          None)
  }

  function KeyUpdatePart(seqNo: nat, request: nat): Part {
    Part(KeyUpdate, seqNo, 1, 0, [request])
  }

  /** The KeyUpdate message itself, under the epoch it ends. */
  function SendKeyUpdate(s: Sender, request: nat): Outcome {
    EmitCiphertext(NextMessage(s), s.appEpoch, true, HandshakePart(KeyUpdatePart(s.nextMsgSeq, request)))
  }

  /** A cleared flight, and the next handshake message counted. */
  function NextMessage(s: Sender): Sender {
    s.(flight := [], nextMsgSeq := s.nextMsgSeq + 1)
  }

  function CreateKeyUpdate(s: Sender, request: nat): Outcome {
    if s.nextMsgSeq >= MAX_EPOCH then Outcome(FlightBegin(s), Some(CounterOverflow))
    else
      var o := SendKeyUpdate(s, request);
      if o.failure.Some? then o else UpdateSendKeys(o.sender)
  }

  function ResetForHelloRetry(s: Sender): Sender {
    s.(hsSeq := 0)
  }

  predicate KeyUpdateInFlight(s: Sender) {
    s.prevSecret.Some?
  }

  // ----- Record numbers are never used twice -----

  predicate SameSlot(r: Record, t: Record) {
    r.Ciphertext? && t.Ciphertext? && r.secret == t.secret && r.number == t.number
  }

  /** No two sealed records of the log share a key and a number. */
  ghost predicate Unrepeated(log: seq<Record>) {
    forall i, j :: 0 <= i < j < |log| ==> !SameSlot(log[i], log[j])
  }

  function EpochOf(secret: Secret): nat {
    match secret
    case HandshakeTraffic(_) => HANDSHAKE_EPOCH
    case ApplicationTraffic(_) => FIRST_APP_EPOCH
    case NextTraffic(current) => EpochOf(current) + 1
  }

  lemma {:induction false} EpochOfSecret(side: Side, epoch: nat)
    requires epoch >= HANDSHAKE_EPOCH
    ensures EpochOf(SecretOf(side, epoch)) == epoch
  {
    if epoch > FIRST_APP_EPOCH {
      EpochOfSecret(side, epoch - 1);
    }
  }

  /** The keys the sender holds are those of its epochs. */
  ghost predicate KeysValid(s: Sender) {
    && s.appEpoch >= FIRST_APP_EPOCH && s.appEpoch <= MAX_EPOCH
    && (s.hsSecret.Some? ==> s.hsSecret.value == HandshakeTraffic(s.side))
    && (s.appSecret.None? ==> s.appEpoch == FIRST_APP_EPOCH)
    && (s.appSecret.Some? ==> s.appSecret.value == SecretOf(s.side, s.appEpoch))
    && (s.prevSecret.Some? ==>
          && s.appSecret.Some?
          && s.prevEpoch >= FIRST_APP_EPOCH && s.prevEpoch + 1 == s.appEpoch
          && s.prevSecret.value == SecretOf(s.side, s.prevEpoch))
    && s.hsSeq <= MAX_SEQUENCE_NUMBER && s.appSeq <= MAX_SEQUENCE_NUMBER && s.prevSeq <= MAX_SEQUENCE_NUMBER
    && s.plainSeq <= MAX_SEQUENCE_NUMBER
  }

  /** A sent record lies behind the counter of its epoch, and its header tells its epoch
      and number. */
  ghost predicate Behind(s: Sender, r: Record) {
    match r
    case Plaintext(number, _) => number < s.plainSeq
    case Ciphertext(secret, number, bits, field, _) =>
      var e := EpochOf(secret);
      && e >= HANDSHAKE_EPOCH && secret == SecretOf(s.side, e)
      && number < MAX_SEQUENCE_NUMBER && bits == e % 4 && field == number % 0x1_0000
      && (e == HANDSHAKE_EPOCH ==> s.hsSecret.Some? && number < s.hsSeq)
      && (e > HANDSHAKE_EPOCH ==> s.appSecret.Some? && e <= s.appEpoch)
      && (e == s.appEpoch ==> number < s.appSeq)
      && (e > HANDSHAKE_EPOCH && UsesPrevious(s, e) ==> number < s.prevSeq)
  }

  ghost predicate AllBehind(s: Sender) {
    forall i :: 0 <= i < |s.sent| ==> Behind(s, s.sent[i])
  }

  /** Saved entries belong to epochs the sender still has keys for. */
  ghost predicate FlightKnown(s: Sender) {
    forall i :: 0 <= i < |s.flight| ==>
      s.flight[i].epoch in {0, HANDSHAKE_EPOCH, s.appEpoch} || UsesPrevious(s, s.flight[i].epoch)
  }

  ghost predicate SenderValid(s: Sender) {
    KeysValid(s) && AllBehind(s) && Unrepeated(s.sent) && FlightKnown(s)
  }

  /** Enqueueing under the next number of a held epoch keeps the log free of repetitions. */
  lemma EnqueueKeeps(s: Sender, s': Sender, r: Record)
    requires KeysValid(s) && AllBehind(s) && Unrepeated(s.sent)
    requires KeysValid(s') && s'.side == s.side && s'.sent == s.sent + [r] && Behind(s', r)
    requires forall t :: Behind(s, t) ==> Behind(s', t) && !SameSlot(t, r)
    ensures AllBehind(s') && Unrepeated(s'.sent)
  {
  }

  lemma EmitPlaintextKeeps(s: Sender, save: bool, payload: Payload)
    requires SenderValid(s)
    ensures SenderValid(EmitPlaintext(s, save, payload).sender)
  {
    SavedKeeps(s, save, 0, s.plainSeq, payload);
    var o := EmitPlaintext(s, save, payload);
    if o.failure.None? {
      var saved := Saved(s, save, 0, s.plainSeq, payload);
      assert o.sender == saved.(plainSeq := s.plainSeq + 1, sent := s.sent + [Plaintext(s.plainSeq, payload)],
                                queueTx := o.sender.queueTx, datagramSealed := o.sender.datagramSealed);
      EnqueueKeeps(saved, o.sender, Plaintext(s.plainSeq, payload));
    }
  }

  predicate HeldEpoch(s: Sender, epoch: nat) {
    epoch in {HANDSHAKE_EPOCH, s.appEpoch} || UsesPrevious(s, epoch)
  }

  /** What emitting a record leaves alone. */
  lemma EmitFrame(s: Sender, epoch: nat, save: bool, payload: Payload)
    ensures SameKeys(s, EmitPlaintext(s, save, payload).sender)
    ensures SameKeys(s, EmitCiphertext(s, epoch, save, payload).sender)
    ensures !save ==> EmitPlaintext(s, save, payload).sender.flight == s.flight
    ensures !save ==> EmitCiphertext(s, epoch, save, payload).sender.flight == s.flight
  {
    PlaintextFrame(s, save, payload);
    CiphertextFrame(s, epoch, save, payload);
  }

  lemma PlaintextFrame(s: Sender, save: bool, payload: Payload)
    ensures SameKeys(s, EmitPlaintext(s, save, payload).sender)
    ensures !save ==> EmitPlaintext(s, save, payload).sender.flight == s.flight
  {
  }

  lemma CiphertextFrame(s: Sender, epoch: nat, save: bool, payload: Payload)
    ensures SameKeys(s, EmitCiphertext(s, epoch, save, payload).sender)
    ensures !save ==> EmitCiphertext(s, epoch, save, payload).sender.flight == s.flight
  {
    if EmitCiphertext(s, epoch, save, payload).failure.None? {
      EmittedSender(s, epoch, save, payload);
    } else {
      FailedEmit(s, epoch, save, payload);
    }
  }

  lemma FailedEmit(s: Sender, epoch: nat, save: bool, payload: Payload)
    requires EmitCiphertext(s, epoch, save, payload).failure.Some?
    ensures var t := EmitCiphertext(s, epoch, save, payload).sender;
            t.(flight := s.flight) == s && (!save ==> t == s)
  {
  }

  /** Counting one record of `epoch` leaves the log behind the counters, and the new number
      unused. */
  lemma CountedBehind(s: Sender, epoch: nat, t: Record, payload: Payload)
    requires KeysValid(s) && HeldEpoch(s, epoch) && SecretFor(s, epoch).Some? && Behind(s, t)
    requires NumberFor(s, epoch) < MAX_SEQUENCE_NUMBER
    ensures Behind(Counted(s, epoch), t)
    ensures !SameSlot(t, Sealed(SecretFor(s, epoch).value, epoch, NumberFor(s, epoch), payload))
  {
    EpochOfSecret(s.side, epoch);
  }

  lemma NextBehind(s: Sender, epoch: nat, payload: Payload)
    requires KeysValid(s) && HeldEpoch(s, epoch) && SecretFor(s, epoch).Some?
    requires NumberFor(s, epoch) < MAX_SEQUENCE_NUMBER
    ensures SecretFor(s, epoch).value == SecretOf(s.side, epoch)
    ensures Behind(Counted(s, epoch), Sealed(SecretFor(s, epoch).value, epoch, NumberFor(s, epoch), payload))
    ensures KeysValid(Counted(s, epoch))
  {
    EpochOfSecret(s.side, epoch);
  }

  /** Emitting a sealed record: the log grows by it, and one counter moves. */
  lemma EmittedSender(s0: Sender, epoch: nat, save: bool, payload: Payload)
    requires EmitCiphertext(s0, epoch, save, payload).failure.None?
    ensures SecretFor(s0, epoch).Some? && NumberFor(s0, epoch) < MAX_SEQUENCE_NUMBER
    ensures var s' := EmitCiphertext(s0, epoch, save, payload).sender;
            var r := Sealed(SecretFor(s0, epoch).value, epoch, NumberFor(s0, epoch), payload);
            && s' == Counted(Saved(s0, save, epoch, NumberFor(s0, epoch), payload), epoch)
                     .(sent := s0.sent + [r], queueTx := s'.queueTx, datagramSealed := s'.datagramSealed)
  {
  }

  lemma SavedKeeps(s: Sender, save: bool, epoch: nat, number: nat, payload: Payload)
    requires SenderValid(s) && (epoch == 0 || HeldEpoch(s, epoch))
    ensures SenderValid(Saved(s, save, epoch, number, payload))
  {
  }

  lemma CountedKeeps(s: Sender, s': Sender, epoch: nat, payload: Payload)
    requires SenderValid(s) && HeldEpoch(s, epoch) && SecretFor(s, epoch).Some?
    requires NumberFor(s, epoch) < MAX_SEQUENCE_NUMBER
    requires s' == Counted(s, epoch).(
                     sent := s.sent + [Sealed(SecretFor(s, epoch).value, epoch, NumberFor(s, epoch), payload)],
                     queueTx := s'.queueTx, datagramSealed := s'.datagramSealed)
    ensures SenderValid(s')
  {
    NextBehind(s, epoch, payload);
    var r := Sealed(SecretFor(s, epoch).value, epoch, NumberFor(s, epoch), payload);
    forall t | Behind(s, t)
      ensures Behind(s', t) && !SameSlot(t, r)
    {
      CountedBehind(s, epoch, t, payload);
    }
    EnqueueKeeps(s, s', r);
  }

  lemma EmitCiphertextKeeps(s: Sender, epoch: nat, save: bool, payload: Payload)
    requires SenderValid(s) && HeldEpoch(s, epoch)
    ensures SenderValid(EmitCiphertext(s, epoch, save, payload).sender)
  {
    SavedKeeps(s, save, epoch, NumberFor(s, epoch), payload);
    var o := EmitCiphertext(s, epoch, save, payload);
    if o.failure.None? {
      EmittedSender(s, epoch, save, payload);
      CountedKeeps(Saved(s, save, epoch, NumberFor(s, epoch), payload), o.sender, epoch, payload);
    }
  }

  lemma AgainKeeps(s: Sender, e: Entry)
    requires SenderValid(s) && (e.epoch == 0 || HeldEpoch(s, e.epoch))
    ensures var t := EmitAgain(s, e).sender; SenderValid(t) && SameKeys(s, t) && t.flight == s.flight
  {
    EmitFrame(s, e.epoch, false, e.payload);
    if e.epoch == 0 {
      EmitPlaintextKeeps(s, false, e.payload);
    } else {
      EmitCiphertextKeeps(s, e.epoch, false, e.payload);
    }
  }

  lemma {:induction false} ResendEntriesKeeps(s: Sender, entries: seq<Entry>)
    requires SenderValid(s)
    requires forall i :: 0 <= i < |entries| ==> entries[i].epoch == 0 || HeldEpoch(s, entries[i].epoch)
    ensures var (o, rest) := ResendEntries(s, entries);
            && SenderValid(o.sender)
            && SameKeys(s, o.sender) && o.sender.flight == s.flight
            && (o.failure.None? ==> SameEntries(entries, rest))
    decreases |entries|
  {
    if entries != [] {
      var others := entries[1..];
      assert forall i :: 0 <= i < |others| ==> others[i] == entries[i + 1];
      if entries[0].acked {
        ResendEntriesKeeps(s, others);
      } else {
        AgainKeeps(s, entries[0]);
        if EmitAgain(s, entries[0]).failure.None? {
          ResendEntriesKeeps(EmitAgain(s, entries[0]).sender, others);
        }
      }
    }
  }

  predicate SameKeys(s: Sender, t: Sender) {
    && s.side == t.side && s.config == t.config && s.nextMsgSeq == t.nextMsgSeq
    && s.hsSecret == t.hsSecret && s.appSecret == t.appSecret && s.appEpoch == t.appEpoch
    && s.prevSecret == t.prevSecret && s.prevEpoch == t.prevEpoch
  }

  /** The same entries, but for the numbers they were last sent under. */
  ghost predicate SameEntries(entries: seq<Entry>, others: seq<Entry>) {
    |entries| == |others|
    && forall i :: 0 <= i < |entries| ==>
      && entries[i].epoch == others[i].epoch && entries[i].payload == others[i].payload
      && entries[i].acked == others[i].acked
      && (entries[i].acked ==> entries[i].sendSeq == others[i].sendSeq)
  }

  lemma FlightResendKeeps(s: Sender)
    requires SenderValid(s)
    ensures SenderValid(FlightResend(s).sender)
  {
    ResendEntriesKeeps(s.(flight := [], datagramSealed := true), s.flight);
  }

  lemma ProcessAckKeeps(s: Sender, body: seq<nat>)
    requires SenderValid(s)
    ensures SenderValid(ProcessAck(s, body))
  {
  }

  lemma UpdateSendKeysKeeps(s: Sender)
    requires SenderValid(s)
    requires forall i :: 0 <= i < |s.flight| ==> s.flight[i].epoch in {0, HANDSHAKE_EPOCH, s.appEpoch}
    ensures SenderValid(UpdateSendKeys(s).sender)
  {
  }

  lemma NextMessageKeeps(s: Sender)
    requires SenderValid(s)
    ensures SenderValid(NextMessage(s)) && NumberFor(NextMessage(s), s.appEpoch) == NumberFor(s, s.appEpoch)
  {
  }

  lemma SendKeyUpdateKeeps(s: Sender, request: nat)
    requires SenderValid(s)
    ensures SenderValid(SendKeyUpdate(s, request).sender)
    ensures SendKeyUpdate(s, request).failure.None? ==>
              && SendKeyUpdate(s, request).sender.flight
                 == [Entry(s.appEpoch, NumberFor(s, s.appEpoch),
                           HandshakePart(KeyUpdatePart(s.nextMsgSeq, request)), false)]
              && SameKeys(NextMessage(s), SendKeyUpdate(s, request).sender)
  {
    NextMessageKeeps(s);
    var part := HandshakePart(KeyUpdatePart(s.nextMsgSeq, request));
    EmitCiphertextKeeps(NextMessage(s), s.appEpoch, true, part);
    if SendKeyUpdate(s, request).failure.None? {
      SavedFlight(NextMessage(s), s.appEpoch, part);
    }
  }

  lemma CreateKeyUpdateKeeps(s: Sender, request: nat)
    requires SenderValid(s)
    ensures SenderValid(CreateKeyUpdate(s, request).sender)
  {
    SendKeyUpdateKeeps(s, request);
    var o := SendKeyUpdate(s, request);
    if o.failure.None? {
      UpdateSendKeysKeeps(o.sender);
    }
  }

  lemma SavedFlight(s: Sender, epoch: nat, payload: Payload)
    requires EmitCiphertext(s, epoch, true, payload).failure.None?
    ensures EmitCiphertext(s, epoch, true, payload).sender.flight
            == s.flight + [Entry(epoch, NumberFor(s, epoch), payload, false)]
    ensures SameKeys(s, EmitCiphertext(s, epoch, true, payload).sender)
  {
    EmittedSender(s, epoch, true, payload);
  }

  /** Everything the engine does to its sending half, in the order a caller chooses. */
  datatype Op =
    | SendHello(payload: Payload)
    | SendHandshake(payload: Payload)
    | SendHandshakeAck(numbers: seq<Number>)
    | SendApplication(payload: Payload)
    | BeginFlight
    | Resend
    | ReceiveAck(body: seq<nat>)
    | InstallHandshake
    | InstallApplication
    | UpdateKeys(request: nat)
    | HelloRetry
    | PopPacket
    | CancelFlights
    | Abort

  function Perform(s: Sender, op: Op): Sender {
    match op
    case SendHello(p) => EmitPlaintext(s, true, p).sender
    case SendHandshake(p) => EmitCiphertext(s, HANDSHAKE_EPOCH, true, p).sender
    case SendHandshakeAck(numbers) => EmitCiphertext(s, HANDSHAKE_EPOCH, false, AckData(EncodeAck(numbers))).sender
    case SendApplication(p) => EmitCiphertext(s, s.appEpoch, false, p).sender
    case BeginFlight => FlightBegin(s)
    case Resend => FlightResend(s).sender
    case ReceiveAck(body) => ProcessAck(s, body)
    case InstallHandshake => InstallHandshakeKeys(s)
    case InstallApplication => InstallApplicationKeys(s)
    case UpdateKeys(request) => CreateKeyUpdate(s, request).sender
    case HelloRetry => ResetForHelloRetry(s)
    case PopPacket => if s.queueTx == [] then s else s.(queueTx := s.queueTx[1..])
    case CancelFlights => s.(flight := [])
    case Abort => s.(queueTx := [], flight := [])
  }

  /** What a caller has to see to: keys are installed once, and the handshake counter is reset
      only before it has moved. */
  predicate Allowed(s: Sender, op: Op) {
    match op
    case InstallHandshake => s.hsSecret.None?
    case InstallApplication => s.appSecret.None?
    case HelloRetry => s.hsSecret.None? || s.hsSeq == 0
    case _ => true
  }

  predicate AllowedRun(s: Sender, ops: seq<Op>)
    decreases |ops|
  {
    ops == [] || (Allowed(s, ops[0]) && AllowedRun(Perform(s, ops[0]), ops[1..]))
  }

  function PerformAll(s: Sender, ops: seq<Op>): Sender
    decreases |ops|
  {
    if ops == [] then s else PerformAll(Perform(s, ops[0]), ops[1..])
  }

  lemma PerformKeeps(s: Sender, op: Op)
    requires SenderValid(s) && Allowed(s, op)
    ensures SenderValid(Perform(s, op))
  {
    match op
    case SendHello(p) => EmitPlaintextKeeps(s, true, p);
    case SendHandshake(p) => EmitCiphertextKeeps(s, HANDSHAKE_EPOCH, true, p);
    case SendHandshakeAck(numbers) =>
      EmitCiphertextKeeps(s, HANDSHAKE_EPOCH, false, AckData(EncodeAck(numbers)));
    case SendApplication(p) => EmitCiphertextKeeps(s, s.appEpoch, false, p);
    case Resend => FlightResendKeeps(s);
    case ReceiveAck(body) => ProcessAckKeeps(s, body);
    case UpdateKeys(request) => CreateKeyUpdateKeeps(s, request);
    case _ =>
  }

  lemma {:induction false} PerformAllKeeps(s: Sender, ops: seq<Op>)
    requires SenderValid(s) && AllowedRun(s, ops)
    ensures SenderValid(PerformAll(s, ops))
    decreases |ops|
  {
    if ops != [] {
      PerformKeeps(s, ops[0]);
      PerformAllKeeps(Perform(s, ops[0]), ops[1..]);
    }
  }

  /** In every allowed run from a new engine, whatever fails on the way, no two sealed
      records put on the transmit queue share key and number. */
  lemma RecordNumbersUnique(config: Config, side: Side, ops: seq<Op>)
    requires AllowedRun(NewSender(config, side), ops)
    ensures Unrepeated(PerformAll(NewSender(config, side), ops).sent)
  {
    PerformAllKeeps(NewSender(config, side), ops);
  }

  /** So no two share a nonce: under any IV of their common key the nonces differ. */
  lemma NoncesUnique(config: Config, side: Side, ops: seq<Op>, iv: seq<Octet>, i: nat, j: nat)
    requires AllowedRun(NewSender(config, side), ops) && |iv| == 12
    requires var sent := PerformAll(NewSender(config, side), ops).sent;
             && i < j < |sent| && sent[i].Ciphertext? && sent[j].Ciphertext? && sent[i].secret == sent[j].secret
    ensures var sent := PerformAll(NewSender(config, side), ops).sent;
            Nonce(iv, sent[i].number) != Nonce(iv, sent[j].number)
  {
    PerformAllKeeps(NewSender(config, side), ops);
    var s := PerformAll(NewSender(config, side), ops);
    NumbersFit();
    assert Behind(s, s.sent[i]) && Behind(s, s.sent[j]) && !SameSlot(s.sent[i], s.sent[j]);
    if Nonce(iv, s.sent[i].number) == Nonce(iv, s.sent[j].number) {
      NonceInjective(iv, s.sent[i].number, s.sent[j].number);
    }
  }

  lemma {:induction false} Pow2Adds(a: nat, b: nat)
    ensures Pow2(a + b) == Pow2(a) * Pow2(b)
  {
    if a > 0 {
      Pow2Adds(a - 1, b);
      assert 2 * (Pow2(a - 1) * Pow2(b)) == 2 * Pow2(a - 1) * Pow2(b);
    }
  }

  lemma NumbersFit()
    ensures MAX_SEQUENCE_NUMBER < Pow2(64)
  {
    assert Pow2(4) == 16 by { assert Pow2(2) == 4; }
    Pow2Adds(4, 4);
    Pow2Adds(8, 8);
    Pow2Adds(16, 16);
    Pow2Adds(32, 32);
  }

  lemma AgainCarries(s: Sender, e: Entry)
    requires SenderValid(s) && (e.epoch == 0 || HeldEpoch(s, e.epoch)) && EmitAgain(s, e).failure.None?
    ensures var t := EmitAgain(s, e).sender;
            && SenderValid(t) && SameKeys(s, t)
            && |t.sent| == |s.sent| + 1 && s.sent <= t.sent
            && Carries(t.sent[|s.sent|], e.(sendSeq := ResendNumber(s, e)), s.side)
  {
    AgainKeeps(s, e);
    if e.epoch != 0 {
      EmittedSender(s, e.epoch, false, e.payload);
      NextBehind(s, e.epoch, e.payload);
    }
  }

  /** The first entry of a resend, and the sender the others go out from. */
  lemma {:induction false} FirstAgain(s: Sender, entries: seq<Entry>) returns (t: Sender, head: Entry)
    requires entries != [] && ResendEntries(s, entries).0.failure.None?
    ensures t == (if entries[0].acked then s else EmitAgain(s, entries[0]).sender)
    ensures head == if entries[0].acked then entries[0] else entries[0].(sendSeq := ResendNumber(s, entries[0]))
    ensures entries[0].acked || EmitAgain(s, entries[0]).failure.None?
    ensures var (o, rest) := ResendEntries(t, entries[1..]);
            o.failure.None? && ResendEntries(s, entries) == (o, [head] + rest)
  {
    t := if entries[0].acked then s else EmitAgain(s, entries[0]).sender;
    head := if entries[0].acked then entries[0] else entries[0].(sendSeq := ResendNumber(s, entries[0]));
  }

  lemma SameInFront(entries: seq<Entry>, head: Entry, rest: seq<Entry>)
    requires entries != [] && SameEntries(entries[1..], rest)
    requires head == entries[0].(sendSeq := head.sendSeq) && (entries[0].acked ==> head == entries[0])
    ensures SameEntries(entries, [head] + rest)
  {
    assert entries == [entries[0]] + entries[1..];
  }

  /** A resend sends the unacknowledged entries and no others, in order and once each, and
      each then stands for the record that carries it now. */
  lemma {:induction false} ResendEntriesExact(s: Sender, entries: seq<Entry>)
    requires SenderValid(s) && ResendEntries(s, entries).0.failure.None?
    requires forall i :: 0 <= i < |entries| ==> entries[i].epoch == 0 || HeldEpoch(s, entries[i].epoch)
    ensures var (o, rest) := ResendEntries(s, entries);
            && SameEntries(entries, rest) && s.sent <= o.sender.sent
            && CarriedBy(Unacked(rest), o.sender.sent[|s.sent|..], s.side)
    decreases |entries|
  {
    if entries != [] {
      var e, others := entries[0], entries[1..];
      assert forall i :: 0 <= i < |others| ==> others[i] == entries[i + 1];
      var t, head := FirstAgain(s, entries);
      if e.acked {
        ResendEntriesExact(s, others);
        UnackedFirst(e, ResendEntries(s, others).1);
      } else {
        AgainCarries(s, e);
        ResendEntriesExact(t, others);
        var (o, rest) := ResendEntries(t, others);
        assert o.sender.sent[|s.sent|] == t.sent[|s.sent|];
        CarriedInFront(head, rest, o.sender.sent, |s.sent|, s.side);
      }
      SameInFront(entries, head, ResendEntries(t, others).1);
    }
  }

  lemma CarriedInFront(head: Entry, rest: seq<Entry>, sent: seq<Record>, n: nat, side: Side)
    requires n < |sent| && !head.acked && Carries(sent[n], head, side)
    requires CarriedBy(Unacked(rest), sent[n + 1..], side)
    ensures CarriedBy(Unacked([head] + rest), sent[n..], side)
  {
    UnackedFirst(head, rest);
    assert sent[n..] == [sent[n]] + sent[n + 1..];
  }

  lemma UnackedFirst(head: Entry, rest: seq<Entry>)
    ensures Unacked([head] + rest) == if head.acked then Unacked(rest) else [head] + Unacked(rest)
  {
    assert ([head] + rest)[1..] == rest;
  }

  lemma ResendExact(s: Sender)
    requires SenderValid(s) && FlightResend(s).failure.None?
    ensures var t := FlightResend(s).sender;
            && SameEntries(s.flight, t.flight) && s.sent <= t.sent
            && CarriedBy(Unacked(t.flight), t.sent[|s.sent|..], s.side)
  {
    ResendEntriesExact(s.(flight := [], datagramSealed := true), s.flight);
  }

  // ----- The one unsafe reset -----

  /** Once the handshake counter has moved, number 0 of its epoch is in the log. */
  ghost predicate ZeroUsed(s: Sender) {
    s.hsSecret.Some? && s.hsSeq > 0 ==> exists i :: 0 <= i < |s.sent| && IsHandshakeZero(s, s.sent[i])
  }

  predicate IsHandshakeZero(s: Sender, r: Record) {
    r.Ciphertext? && Some(r.secret) == s.hsSecret && r.number == 0
  }

  /** Resetting the handshake counter while its key is installed is safe for the next
      handshake record exactly when the counter had not moved. */
  lemma ResetExact(s: Sender, payload: Payload)
    requires SenderValid(s) && ZeroUsed(s) && s.hsSecret.Some?
    requires EmitCiphertext(ResetForHelloRetry(s), HANDSHAKE_EPOCH, false, payload).failure.None?
    ensures Unrepeated(EmitCiphertext(ResetForHelloRetry(s), HANDSHAKE_EPOCH, false, payload).sender.sent)
            <==> s.hsSeq == 0
  {
    var t := ResetForHelloRetry(s);
    EmittedSender(t, HANDSHAKE_EPOCH, false, payload);
    var sent := EmitCiphertext(t, HANDSHAKE_EPOCH, false, payload).sender.sent;
    if s.hsSeq == 0 {
      assert t == s;
      EmitCiphertextKeeps(s, HANDSHAKE_EPOCH, false, payload);
    } else {
      var i :| 0 <= i < |s.sent| && IsHandshakeZero(s, s.sent[i]);
      assert sent[i] == s.sent[i] && SameSlot(sent[i], sent[|s.sent|]);
    }
  }

  /** What a run may do to the handshake counter: it moves only by sending, and that takes
      a queue with room. */
  ghost predicate Advances(s: Sender, t: Sender) {
    && s.sent <= t.sent && s.hsSecret == t.hsSecret && s.config == t.config
    && (s.config.maxQueueTx == 0 && Untouched(s) ==> Untouched(t))
    && (s.hsSeq == 0 && t.hsSeq > 0 ==> exists i :: 0 <= i < |t.sent| && IsHandshakeZero(t, t.sent[i]))
    && (s.hsSeq > 0 ==> t.hsSeq > 0)
  }

  predicate Untouched(s: Sender) {
    s.queueTx == [] && s.hsSeq == 0
  }

  lemma EmitAdvances(s: Sender, epoch: nat, save: bool, payload: Payload)
    ensures Advances(s, EmitPlaintext(s, save, payload).sender)
    ensures Advances(s, EmitCiphertext(s, epoch, save, payload).sender)
  {
    EmitPlaintextAdvances(s, save, payload);
    EmitCiphertextAdvances(s, epoch, save, payload);
  }

  lemma EmitPlaintextAdvances(s: Sender, save: bool, payload: Payload)
    ensures Advances(s, EmitPlaintext(s, save, payload).sender)
  {
    if save && |s.flight| >= MAX_FLIGHT {
    } else if NoRoom(s, Plaintext(s.plainSeq, payload)) {
    } else if s.plainSeq >= MAX_SEQUENCE_NUMBER {
    }
  }

  lemma EmitCiphertextAdvances(s: Sender, epoch: nat, save: bool, payload: Payload)
    ensures Advances(s, EmitCiphertext(s, epoch, save, payload).sender)
  {
    var o := EmitCiphertext(s, epoch, save, payload);
    if o.failure.None? {
      EmittedSender(s, epoch, save, payload);
      EmittedHasRoom(s, epoch, save, payload);
      if epoch == HANDSHAKE_EPOCH && s.hsSeq == 0 {
        assert IsHandshakeZero(o.sender, o.sender.sent[|s.sent|]);
      }
    } else {
      FailedEmit(s, epoch, save, payload);
    }
  }

  lemma EmittedHasRoom(s: Sender, epoch: nat, save: bool, payload: Payload)
    requires EmitCiphertext(s, epoch, save, payload).failure.None?
    ensures s.queueTx != [] || s.config.maxQueueTx > 0
  {
  }

  lemma AdvancesTransitive(s: Sender, t: Sender, u: Sender)
    requires Advances(s, t) && Advances(t, u)
    ensures Advances(s, u)
  {
    if s.hsSeq == 0 && t.hsSeq > 0 {
      var i :| 0 <= i < |t.sent| && IsHandshakeZero(t, t.sent[i]);
      assert u.sent[i] == t.sent[i] && IsHandshakeZero(u, u.sent[i]);
    }
  }

  lemma {:induction false} ResendAdvances(s: Sender, entries: seq<Entry>)
    ensures Advances(s, ResendEntries(s, entries).0.sender)
    decreases |entries|
  {
    if entries != [] {
      if entries[0].acked {
        ResendAdvances(s, entries[1..]);
      } else {
        EmitAdvances(s, entries[0].epoch, false, entries[0].payload);
        var o := EmitAgain(s, entries[0]);
        ResendAdvances(o.sender, entries[1..]);
        AdvancesTransitive(s, o.sender, ResendEntries(o.sender, entries[1..]).0.sender);
      }
    }
  }

  lemma AdvancesKeepsZeroUsed(s: Sender, t: Sender)
    requires ZeroUsed(s) && Advances(s, t)
    ensures ZeroUsed(t)
  {
    if s.hsSecret.Some? && s.hsSeq > 0 {
      var i :| 0 <= i < |s.sent| && IsHandshakeZero(s, s.sent[i]);
      assert t.sent[i] == s.sent[i] && IsHandshakeZero(t, t.sent[i]);
    }
  }

  lemma PerformKeepsZeroUsed(s: Sender, op: Op)
    requires ZeroUsed(s) && Allowed(s, op)
    ensures ZeroUsed(Perform(s, op))
  {
    if !op.InstallHandshake? && !op.HelloRetry? {
      PerformAdvances(s, op);
      AdvancesKeepsZeroUsed(s, Perform(s, op));
    }
  }

  lemma PerformAdvances(s: Sender, op: Op)
    requires !op.InstallHandshake? && !op.HelloRetry?
    ensures Advances(s, Perform(s, op))
  {
    match op
    case SendHello(p) => EmitPlaintextAdvances(s, true, p);
    case SendHandshake(p) => EmitCiphertextAdvances(s, HANDSHAKE_EPOCH, true, p);
    case SendHandshakeAck(numbers) =>
      EmitCiphertextAdvances(s, HANDSHAKE_EPOCH, false, AckData(EncodeAck(numbers)));
    case SendApplication(p) => EmitCiphertextAdvances(s, s.appEpoch, false, p);
    case Resend => ResendAdvances(s.(flight := [], datagramSealed := true), s.flight);
    case UpdateKeys(request) => KeyUpdateAdvances(s, request);
    case _ =>
  }

  lemma KeyUpdateAdvances(s: Sender, request: nat)
    ensures Advances(s, CreateKeyUpdate(s, request).sender)
  {
    EmitCiphertextAdvances(NextMessage(s), s.appEpoch, true, HandshakePart(KeyUpdatePart(s.nextMsgSeq, request)));
    if s.nextMsgSeq >= MAX_EPOCH {
    } else if SendKeyUpdate(s, request).failure.Some? {
    } else {
      RotationAdvances(SendKeyUpdate(s, request).sender);
    }
  }

  lemma RotationAdvances(s: Sender)
    ensures Advances(s, UpdateSendKeys(s).sender)
  {
  }

  /** `ResetExact` applies to every state an allowed run reaches. */
  lemma {:induction false} ZeroUsedAlways(s: Sender, ops: seq<Op>)
    requires ZeroUsed(s) && AllowedRun(s, ops)
    ensures ZeroUsed(PerformAll(s, ops))
    decreases |ops|
  {
    if ops != [] {
      PerformKeepsZeroUsed(s, ops[0]);
      ZeroUsedAlways(Perform(s, ops[0]), ops[1..]);
    }
  }

  lemma FourOps(s: Sender, a: Op, b: Op, c: Op, d: Op)
    ensures PerformAll(s, [a, b, c, d]) == Perform(Perform(Perform(Perform(s, a), b), c), d)
  {
    assert [a, b, c, d][1..] == [b, c, d] && [b, c, d][1..] == [c, d] && [c, d][1..] == [d] && [d][1..] == [];
    var t := Perform(Perform(s, a), b);
    assert PerformAll(t, [c, d]) == PerformAll(Perform(t, c), [d]);
    assert PerformAll(Perform(t, c), [d]) == Perform(Perform(t, c), d);
  }

  /** Room in the queue and a counter at zero: an ACK goes out as number 0. */
  lemma AckAsZero(s: Sender)
    requires s.hsSecret.Some? && s.hsSeq == 0 && |s.queueTx| < s.config.maxQueueTx
    ensures var t := Perform(s, SendHandshakeAck([]));
            && t.sent == s.sent + [Sealed(s.hsSecret.value, HANDSHAKE_EPOCH, 0, AckData(EncodeAck([])))]
            && t.hsSecret == s.hsSecret && t.config == s.config && |t.queueTx| <= |s.queueTx| + 1
  {
    EmittedSender(s, HANDSHAKE_EPOCH, false, AckData(EncodeAck([])));
  }

  /** A run that resets after the keys exist, and repeats a number. */
  lemma LateResetRepeats()
    ensures var s := NewSender(Config(1200, 10, 16), Client);
            var ops := [InstallHandshake, SendHandshakeAck([]), HelloRetry, SendHandshakeAck([])];
            !Unrepeated(PerformAll(s, ops).sent)
  {
    var s := NewSender(Config(1200, 10, 16), Client);
    var s1 := Perform(s, InstallHandshake);
    AckAsZero(s1);
    var s3 := Perform(Perform(s1, SendHandshakeAck([])), HelloRetry);
    AckAsZero(s3);
    FourOps(s, InstallHandshake, SendHandshakeAck([]), HelloRetry, SendHandshakeAck([]));
    var sent := Perform(s3, SendHandshakeAck([])).sent;
    assert SameSlot(sent[0], sent[1]);
  }

  // ----- Datagrams -----

  /** Every queued datagram fits the MTU or holds exactly one record. */
  ghost predicate WellPacked(s: Sender) {
    forall i :: 0 <= i < |s.queueTx| ==>
      |s.queueTx[i]| == 1 || (|s.queueTx[i]| > 1 && DatagramLen(s.queueTx[i], s.config.tagLen) <= s.config.mtu)
  }

  lemma EnqueuePacks(s: Sender, r: Record)
    requires WellPacked(s)
    ensures WellPacked(Enqueue(s, r))
  {
    if CanAppend(s, r) {
      var d := s.queueTx[|s.queueTx| - 1];
      assert (d + [r])[..|d + [r]| - 1] == d;
    }
  }

  lemma EmitPlaintextPacks(s: Sender, save: bool, payload: Payload)
    requires WellPacked(s)
    ensures WellPacked(EmitPlaintext(s, save, payload).sender)
  {
    EnqueuePacks(Saved(s, save, 0, s.plainSeq, payload).(plainSeq := s.plainSeq + 1), Plaintext(s.plainSeq, payload));
  }

  lemma EmitCiphertextPacks(s: Sender, epoch: nat, save: bool, payload: Payload)
    requires WellPacked(s)
    ensures WellPacked(EmitCiphertext(s, epoch, save, payload).sender)
  {
    var c := Saved(s, save, epoch, NumberFor(s, epoch), payload);
    if SecretFor(c, epoch).Some? {
      var r := Sealed(SecretFor(c, epoch).value, epoch, NumberFor(s, epoch), payload);
      assert WellPacked(Counted(c, epoch));
      EnqueuePacks(Counted(c, epoch), r);
    }
  }

  lemma {:induction false} ResendPacks(s: Sender, entries: seq<Entry>)
    requires WellPacked(s)
    ensures WellPacked(ResendEntries(s, entries).0.sender)
    decreases |entries|
  {
    if entries != [] {
      if entries[0].acked {
        ResendPacks(s, entries[1..]);
      } else {
        EmitPlaintextPacks(s, false, entries[0].payload);
        EmitCiphertextPacks(s, entries[0].epoch, false, entries[0].payload);
        ResendPacks(EmitAgain(s, entries[0]).sender, entries[1..]);
      }
    }
  }

  lemma PerformPacks(s: Sender, op: Op)
    requires WellPacked(s)
    ensures WellPacked(Perform(s, op))
  {
    match op
    case SendHello(p) => EmitPlaintextPacks(s, true, p);
    case SendHandshake(p) => EmitCiphertextPacks(s, HANDSHAKE_EPOCH, true, p);
    case SendHandshakeAck(numbers) => EmitCiphertextPacks(s, HANDSHAKE_EPOCH, false, AckData(EncodeAck(numbers)));
    case SendApplication(p) => EmitCiphertextPacks(s, s.appEpoch, false, p);
    case Resend => ResendPacks(s.(flight := [], datagramSealed := true), s.flight);
    case UpdateKeys(request) => KeyUpdatePacks(s, request);
    case _ =>
  }

  lemma KeyUpdatePacks(s: Sender, request: nat)
    requires WellPacked(s)
    ensures WellPacked(CreateKeyUpdate(s, request).sender)
  {
    EmitCiphertextPacks(NextMessage(s), s.appEpoch, true, HandshakePart(KeyUpdatePart(s.nextMsgSeq, request)));
    if s.nextMsgSeq >= MAX_EPOCH {
    } else if SendKeyUpdate(s, request).failure.Some? {
    } else {
      KeysPack(SendKeyUpdate(s, request).sender);
    }
  }

  lemma KeysPack(s: Sender)
    requires WellPacked(s)
    ensures WellPacked(UpdateSendKeys(s).sender)
  {
  }

  lemma {:induction false} DatagramsFit(s: Sender, ops: seq<Op>)
    requires WellPacked(s)
    ensures WellPacked(PerformAll(s, ops))
    decreases |ops|
  {
    if ops != [] {
      PerformPacks(s, ops[0]);
      DatagramsFit(Perform(s, ops[0]), ops[1..]);
    }
  }

  // ----- From the log to the wire -----

  /** Behind the datagrams of `base`, which are left as they are, the queue holds what the log
      has gained on `log`; and the next record does not join the last of them. */
  ghost predicate Beyond(base: seq<seq<Record>>, log: seq<Record>, s: Sender) {
    && base <= s.queueTx && log <= s.sent
    && (|s.queueTx| == |base| ==> s.datagramSealed)
    && Flat(s.queueTx[|base|..]) == s.sent[|log|..]
  }

  lemma {:induction false} EnqueueBeyond(base: seq<seq<Record>>, log: seq<Record>, s: Sender, r: Record)
    requires Beyond(base, log, s)
    ensures Beyond(base, log, Enqueue(s, r))
  {
    assert (s.sent + [r])[|log|..] == s.sent[|log|..] + [r];
    if CanAppend(s, r) {
      FlatJoined(s.queueTx, r, |base|);
    } else {
      FlatStarted(s.queueTx, r, |base|);
    }
  }

  lemma {:induction false} CountedBeyond(base: seq<seq<Record>>, log: seq<Record>, s: Sender, epoch: nat)
    requires Beyond(base, log, s)
    ensures Beyond(base, log, Counted(s, epoch))
  {
  }

  lemma {:induction false} AgainBeyond(base: seq<seq<Record>>, log: seq<Record>, s: Sender, e: Entry)
    requires Beyond(base, log, s)
    ensures Beyond(base, log, EmitAgain(s, e).sender)
  {
    if e.epoch == 0 {
      EnqueueBeyond(base, log, s.(plainSeq := s.plainSeq + 1), Plaintext(s.plainSeq, e.payload));
    } else if SecretFor(s, e.epoch).Some? {
      var r := Sealed(SecretFor(s, e.epoch).value, e.epoch, NumberFor(s, e.epoch), e.payload);
      CountedBeyond(base, log, s, e.epoch);
      EnqueueBeyond(base, log, Counted(s, e.epoch), r);
    }
  }

  lemma {:induction false} ResendEntriesBeyond(
      base: seq<seq<Record>>, log: seq<Record>, s: Sender, entries: seq<Entry>)
    requires Beyond(base, log, s)
    ensures Beyond(base, log, ResendEntries(s, entries).0.sender)
    decreases |entries|
  {
    if entries != [] {
      if entries[0].acked {
        ResendEntriesBeyond(base, log, s, entries[1..]);
      } else {
        AgainBeyond(base, log, s, entries[0]);
        ResendEntriesBeyond(base, log, EmitAgain(s, entries[0]).sender, entries[1..]);
      }
    }
  }

  /** A resend, whether or not it succeeds, leaves every queued datagram as it was and puts what
      it sends into fresh ones behind them. */
  lemma ResendKeepsDatagrams(s: Sender)
    ensures var t, n := FlightResend(s).sender, |s.queueTx|;
            && s.queueTx <= t.queueTx && s.sent <= t.sent
            && Flat(t.queueTx[n..]) == t.sent[|s.sent|..]
  {
    var s0 := s.(flight := [], datagramSealed := true);
    assert s0.queueTx[|s.queueTx|..] == [] && s0.sent[|s.sent|..] == [];
    ResendEntriesBeyond(s.queueTx, s.sent, s0, s.flight);
  }

  /** And when it succeeds, those datagrams hold the unacknowledged entries and nothing else. */
  lemma ResendInFreshDatagrams(s: Sender)
    requires SenderValid(s) && FlightResend(s).failure.None?
    ensures var t, n := FlightResend(s).sender, |s.queueTx|;
            && s.queueTx <= t.queueTx && SameEntries(s.flight, t.flight)
            && CarriedBy(Unacked(t.flight), Flat(t.queueTx[n..]), s.side)
  {
    ResendKeepsDatagrams(s);
    ResendExact(s);
  }

  /** Between `s` and `t` the datagrams `polled` have left, and the log has only grown: what
      left and what is queued is what was queued and what the log has gained, in order. */
  ghost predicate Flows(s: Sender, polled: seq<seq<Record>>, t: Sender) {
    && s.sent <= t.sent
    && Flat(polled) + Flat(t.queueTx) == Flat(s.queueTx) + t.sent[|s.sent|..]
  }

  lemma FlowsOn(s: Sender, a: seq<seq<Record>>, t: Sender, b: seq<seq<Record>>, u: Sender)
    requires Flows(s, a, t) && Flows(t, b, u)
    ensures Flows(s, a + b, u)
  {
    FlatConcat(a, b);
    var first, second := t.sent[|s.sent|..], u.sent[|t.sent|..];
    Chained(Flat(a), Flat(b), Flat(s.queueTx), Flat(t.queueTx), Flat(u.queueTx), first, second);
    assert u.sent[|s.sent|..] == t.sent[|s.sent|..] + u.sent[|t.sent|..];
  }

  lemma NothingFlows(s: Sender, t: Sender)
    requires t.sent == s.sent && t.queueTx == s.queueTx
    ensures Flows(s, [], t)
  {
    assert t.sent[|s.sent|..] == [];
  }

  lemma EnqueueFlat(s: Sender, r: Record)
    ensures Flat(Enqueue(s, r).queueTx) == Flat(s.queueTx) + [r]
  {
    var q := Enqueue(s, r).queueTx;
    assert s.queueTx[0..] == s.queueTx && q[0..] == q;
    if CanAppend(s, r) {
      FlatJoined(s.queueTx, r, 0);
    } else {
      FlatStarted(s.queueTx, r, 0);
    }
  }

  lemma EnqueueFlows(s: Sender, t: Sender, r: Record)
    requires t.queueTx == Enqueue(s, r).queueTx && t.sent == Enqueue(s, r).sent
    ensures Flows(s, [], t)
  {
    EnqueueFlat(s, r);
    assert t.sent == s.sent + [r] && (s.sent + [r])[|s.sent|..] == [r];
    assert Flat([]) + Flat(t.queueTx) == Flat(t.queueTx);
  }

  lemma EmitPlaintextFlows(s: Sender, save: bool, payload: Payload)
    ensures Flows(s, [], EmitPlaintext(s, save, payload).sender)
  {
    var t := EmitPlaintext(s, save, payload).sender;
    if EmitPlaintext(s, save, payload).failure.None? {
      EnqueueFlows(s, t, Plaintext(s.plainSeq, payload));
    } else {
      NothingFlows(s, t);
    }
  }

  lemma EmitCiphertextFlows(s: Sender, epoch: nat, save: bool, payload: Payload)
    ensures Flows(s, [], EmitCiphertext(s, epoch, save, payload).sender)
  {
    var t := EmitCiphertext(s, epoch, save, payload).sender;
    if EmitCiphertext(s, epoch, save, payload).failure.None? {
      EmittedEnqueues(s, epoch, save, payload);
      EnqueueFlows(s, t, Sealed(SecretFor(s, epoch).value, epoch, NumberFor(s, epoch), payload));
    } else {
      FailedEmit(s, epoch, save, payload);
      NothingFlows(s, t);
    }
  }

  lemma EmittedEnqueues(s: Sender, epoch: nat, save: bool, payload: Payload)
    requires EmitCiphertext(s, epoch, save, payload).failure.None?
    ensures SecretFor(s, epoch).Some?
    ensures var t := EmitCiphertext(s, epoch, save, payload).sender;
            var queued := Enqueue(s, Sealed(SecretFor(s, epoch).value, epoch, NumberFor(s, epoch), payload));
            t.queueTx == queued.queueTx && t.sent == queued.sent
  {
  }

  lemma ResendFlows(s: Sender)
    ensures Flows(s, [], FlightResend(s).sender)
  {
    ResendKeepsDatagrams(s);
    var t, n := FlightResend(s).sender, |s.queueTx|;
    assert t.queueTx == s.queueTx + t.queueTx[n..];
    FlatConcat(s.queueTx, t.queueTx[n..]);
  }

  lemma KeyUpdateFlows(s: Sender, request: nat)
    ensures Flows(s, [], CreateKeyUpdate(s, request).sender)
  {
    EmitCiphertextFlows(NextMessage(s), s.appEpoch, true, HandshakePart(KeyUpdatePart(s.nextMsgSeq, request)));
    if s.nextMsgSeq >= MAX_EPOCH {
      NothingFlows(s, FlightBegin(s));
    } else if SendKeyUpdate(s, request).failure.None? {
      RotationFlows(SendKeyUpdate(s, request).sender);
    }
  }

  lemma RotationFlows(s: Sender)
    ensures UpdateSendKeys(s).sender.sent == s.sent && UpdateSendKeys(s).sender.queueTx == s.queueTx
  {
  }

  function PolledBy(s: Sender, op: Op): seq<seq<Record>> {
    if op.PopPacket? && s.queueTx != [] then [s.queueTx[0]] else []
  }

  lemma PerformFlows(s: Sender, op: Op)
    requires !op.Abort?
    ensures Flows(s, PolledBy(s, op), Perform(s, op))
  {
    match op
    case SendHello(p) => EmitPlaintextFlows(s, true, p);
    case SendHandshake(p) => EmitCiphertextFlows(s, HANDSHAKE_EPOCH, true, p);
    case SendHandshakeAck(numbers) => EmitCiphertextFlows(s, HANDSHAKE_EPOCH, false, AckData(EncodeAck(numbers)));
    case SendApplication(p) => EmitCiphertextFlows(s, s.appEpoch, false, p);
    case Resend => ResendFlows(s);
    case UpdateKeys(request) => KeyUpdateFlows(s, request);
    case PopPacket =>
      if s.queueTx != [] {
        assert s.queueTx == [s.queueTx[0]] + s.queueTx[1..];
        FlatConcat([s.queueTx[0]], s.queueTx[1..]);
        assert s.sent[|s.sent|..] == [];
      } else {
        NothingFlows(s, s);
      }
    case _ => NothingFlows(s, Perform(s, op));
  }

  /** The datagrams a run lets out, in order. */
  function Polled(s: Sender, ops: seq<Op>): seq<seq<Record>>
    decreases |ops|
  {
    if ops == [] then [] else PolledBy(s, ops[0]) + Polled(Perform(s, ops[0]), ops[1..])
  }

  /** Nothing is dropped, doubled or reordered on the way out: in a run that does not abort, the
      records of the datagrams polled, and behind them those still queued, are the log. */
  lemma {:induction false} LogLeavesInOrder(s: Sender, ops: seq<Op>)
    requires forall op :: op in ops ==> !op.Abort?
    ensures Flows(s, Polled(s, ops), PerformAll(s, ops))
    decreases |ops|
  {
    if ops == [] {
      NothingFlows(s, s);
    } else {
      var t := Perform(s, ops[0]);
      PerformFlows(s, ops[0]);
      LogLeavesInOrder(t, ops[1..]);
      FlowsOn(s, PolledBy(s, ops[0]), t, Polled(t, ops[1..]), PerformAll(t, ops[1..]));
    }
  }

  // ----- Bounds -----

  /** No more datagrams than configured, and no more saved records than there is room for. */
  predicate Bounded(s: Sender) {
    |s.queueTx| <= s.config.maxQueueTx && |s.flight| <= MAX_FLIGHT
  }

  lemma EmitPlaintextBounded(s: Sender, save: bool, payload: Payload)
    requires Bounded(s)
    ensures Bounded(EmitPlaintext(s, save, payload).sender)
  {
  }

  lemma EmitCiphertextBounded(s: Sender, epoch: nat, save: bool, payload: Payload)
    requires Bounded(s)
    ensures Bounded(EmitCiphertext(s, epoch, save, payload).sender)
  {
    if EmitCiphertext(s, epoch, save, payload).failure.None? {
      EmittedEnqueues(s, epoch, save, payload);
      EmittedSender(s, epoch, save, payload);
    } else {
      FailedEmit(s, epoch, save, payload);
    }
  }

  lemma {:induction false} ResendEntriesBounded(s: Sender, entries: seq<Entry>)
    requires Bounded(s) && s.flight == []
    ensures var (o, rest) := ResendEntries(s, entries);
            && Bounded(o.sender) && o.sender.flight == []
            && (o.failure.None? ==> |rest| == |entries|)
    decreases |entries|
  {
    if entries != [] {
      if entries[0].acked {
        ResendEntriesBounded(s, entries[1..]);
      } else {
        EmitPlaintextBounded(s, false, entries[0].payload);
        EmitCiphertextBounded(s, entries[0].epoch, false, entries[0].payload);
        EmitFrame(s, entries[0].epoch, false, entries[0].payload);
        ResendEntriesBounded(EmitAgain(s, entries[0]).sender, entries[1..]);
      }
    }
  }

  lemma KeyUpdateBounded(s: Sender, request: nat)
    requires Bounded(s)
    ensures Bounded(CreateKeyUpdate(s, request).sender)
  {
    EmitCiphertextBounded(NextMessage(s), s.appEpoch, true, HandshakePart(KeyUpdatePart(s.nextMsgSeq, request)));
    EmitFrame(NextMessage(s), s.appEpoch, true, HandshakePart(KeyUpdatePart(s.nextMsgSeq, request)));
  }

  lemma PerformBounded(s: Sender, op: Op)
    requires Bounded(s)
    ensures Bounded(Perform(s, op))
  {
    match op
    case SendHello(p) => EmitPlaintextBounded(s, true, p);
    case SendHandshake(p) => EmitCiphertextBounded(s, HANDSHAKE_EPOCH, true, p);
    case SendHandshakeAck(numbers) => EmitCiphertextBounded(s, HANDSHAKE_EPOCH, false, AckData(EncodeAck(numbers)));
    case SendApplication(p) => EmitCiphertextBounded(s, s.appEpoch, false, p);
    case Resend => ResendEntriesBounded(s.(flight := [], datagramSealed := true), s.flight);
    case UpdateKeys(request) => KeyUpdateBounded(s, request);
    case _ =>
  }

  /** Neither queue ever outgrows its bound, whatever is asked of the engine. */
  lemma {:induction false} QueuesBounded(s: Sender, ops: seq<Op>)
    requires Bounded(s)
    ensures Bounded(PerformAll(s, ops))
    decreases |ops|
  {
    if ops != [] {
      PerformBounded(s, ops[0]);
      QueuesBounded(Perform(s, ops[0]), ops[1..]);
    }
  }
}
