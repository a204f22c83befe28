/** The receiving half of a DTLS 1.3 engine: a window of at most four receive epochs, the
    numbers seen in each, and what an arriving record does. */
module ReceiveSide {
  import opened Handshakes
  import opened RecordNumbers
  import opened Records
  import opened Reassembly
  import opened ReplayWindows

  const MAX_RECV_EPOCHS := 4
  const MAX_TRACKED := 32
  const FIELD_BITS := 16

  /** Keys, expected number and replay history of one application receive epoch. */
  datatype Slot = Slot(epoch: nat, secret: Secret, expected: nat, replay: History)

  /** A record that decrypted: full epoch, full number, contents. */
  datatype Opened = Opened(epoch: nat, number: nat, payload: Payload)

  /** `peer` is the side whose records arrive; `accepted` remembers all that decrypted. */
  datatype Receiver = Receiver(
    peer: Side,
    hsSecret: Option<Secret>,
    hsExpected: nat,
    hsReplay: History,
    slots: seq<Slot>,
    peerEncryption: bool,
    released: bool,
    peerMsgSeq: nat,
    received: seq<Number>,
    queue: seq<Item>,
    maxQueue: nat,
    closeNotify: Option<Number>,
    accepted: set<Opened>)

  function NewReceiver(peer: Side, maxQueue: nat): Receiver {
    Receiver(peer, None, 0, NOTHING_SEEN, [], false, false, 0, [], [], maxQueue, None, {})
  }

  // ----- Epochs -----

  /** The newest retained epoch with these two low bits. */
  function NewestMatch(slots: seq<Slot>, bits: nat): Option<nat> {
    if slots == [] then None
    else
      var last := slots[|slots| - 1];
      if last.epoch % 4 == bits then Some(last.epoch) else NewestMatch(slots[..|slots| - 1], bits)
  }

  function ResolveEpoch(r: Receiver, bits: nat): nat {
    if r.hsSecret.Some? && HANDSHAKE_EPOCH % 4 == bits then HANDSHAKE_EPOCH
    else
      match NewestMatch(r.slots, bits)
      case Some(epoch) => epoch
      case None => bits
  }

  /** Position of the slot of `epoch`, or the number of slots. */
  function Find(slots: seq<Slot>, epoch: nat): (i: nat)
    ensures i <= |slots|
    ensures i < |slots| ==> slots[i].epoch == epoch
    ensures forall j :: 0 <= j < i ==> slots[j].epoch != epoch
  {
    if slots == [] || slots[0].epoch == epoch then 0 else 1 + Find(slots[1..], epoch)
  }

  predicate Retains(r: Receiver, epoch: nat) {
    Find(r.slots, epoch) < |r.slots|
  }

  function SecretAt(r: Receiver, epoch: nat): Option<Secret> {
    if epoch == HANDSHAKE_EPOCH then r.hsSecret
    else if Retains(r, epoch) then Some(r.slots[Find(r.slots, epoch)].secret)
    else None
  }

  function ExpectedAt(r: Receiver, epoch: nat): nat {
    if epoch == HANDSHAKE_EPOCH then r.hsExpected
    else if Retains(r, epoch) then r.slots[Find(r.slots, epoch)].expected
    else 0
  }

  predicate ReplayCheck(r: Receiver, epoch: nat, number: nat) {
    if epoch == HANDSHAKE_EPOCH then r.hsReplay.Accepts(number)
    else Retains(r, epoch) && r.slots[Find(r.slots, epoch)].replay.Accepts(number)
  }

  function Later(expected: nat, number: nat): nat {
    if number + 1 > expected then number + 1 else expected
  }

  function ReplayUpdate(r: Receiver, epoch: nat, number: nat): Receiver {
    if epoch == HANDSHAKE_EPOCH then
      r.(hsReplay := r.hsReplay.Record(number), hsExpected := Later(r.hsExpected, number))
    else if Retains(r, epoch) then
      var i := Find(r.slots, epoch);
      var slot := r.slots[i];
      r.(slots := r.slots[i := slot.(replay := slot.replay.Record(number), expected := Later(slot.expected, number))])
    else r
  }

  // ----- Opening a record -----

  /** Resolve epoch and number, check for replay, decrypt.  With another epoch's mask the
      number field reads as `garbage`; decryption succeeds under the sealing secret and the
      sealing number only. */
  function Open(r: Receiver, record: Record, garbage: nat): Option<Opened>
    requires record.Ciphertext?
  {
    var epoch := ResolveEpoch(r, record.epochBits);
    var right := SecretAt(r, epoch) == Some(record.secret);
    var field := if right then record.field else garbage % 0x1_0000;
    var number := ReconstructSequence(field, ExpectedAt(r, epoch), FIELD_BITS);
    if !ReplayCheck(r, epoch, number) then None
    else if right && number == record.number then Some(Opened(epoch, number, record.payload))
    else None
  }

  /** After decryption, and only then, the replay window moves. */
  function Commit(r: Receiver, o: Opened): Receiver {
    ReplayUpdate(r, o.epoch, o.number).(accepted := r.accepted + {o})
  }

  function Track(received: seq<Number>, epoch: nat, number: nat): seq<Number> {
    if epoch >= HANDSHAKE_EPOCH && |received| < MAX_TRACKED then received + [(epoch, number)] else received
  }

  /** Queue a handshake fragment, and note its record for the next ACK. */
  function InsertPart(r: Receiver, part: Part, epoch: nat, number: nat): Receiver {
    var item := Item(part, epoch, number, false);
    var arrival := Classify(r.queue, r.peerMsgSeq, r.released, r.maxQueue, item);
    if arrival.Inserted? || arrival.Replaced? then
      r.(queue := Insert(r.queue, r.peerMsgSeq, r.released, r.maxQueue, item),
         received := Track(r.received, epoch, number))
    else r
  }

  predicate AfterClose(r: Receiver, epoch: nat, number: nat) {
    && r.closeNotify.Some?
    && (epoch > r.closeNotify.value.0 || (epoch == r.closeNotify.value.0 && number > r.closeNotify.value.1))
  }

  function Dispatch(r: Receiver, o: Opened): Receiver {
    if AfterClose(r, o.epoch, o.number) then r
    else
      match o.payload
      case HandshakePart(part) => InsertPart(r, part, o.epoch, o.number)
      case CloseNotify => if r.closeNotify.Some? then r else r.(closeNotify := Some((o.epoch, o.number)))
      case _ => r
  }

  /** An arriving record; sealed ones stay buffered, that is on their way, until the peer's
      encryption is enabled. */
  function Receive(r: Receiver, record: Record, garbage: nat): Receiver {
    match record
    case Plaintext(number, payload) => Dispatch(r, Opened(0, number, payload))
    case Ciphertext(_, _, _, _, _) =>
      if !r.peerEncryption then r
      else
        match Open(r, record, garbage)
        case None => r
        case Some(o) => Dispatch(Commit(r, o), o)
  }

  // ----- Keys -----

  function InstallHandshakeRecv(r: Receiver): Receiver {
    r.(hsSecret := Some(HandshakeTraffic(r.peer)))
  }

  function FreshSlot(epoch: nat, secret: Secret): Slot {
    Slot(epoch, secret, 0, NOTHING_SEEN)
  }

  function InstallApplicationRecv(r: Receiver): Receiver {
    r.(slots := r.slots + [FreshSlot(FIRST_APP_EPOCH, ApplicationTraffic(r.peer))])
  }

  /** Derive the next epoch from the newest, dropping the oldest of four. */
  function UpdateRecvKeys(r: Receiver): Receiver {
    if r.slots == [] then r
    else
      var latest := r.slots[|r.slots| - 1];
      if latest.epoch >= MAX_EPOCH then r
      else
        var kept := if |r.slots| == MAX_RECV_EPOCHS then r.slots[1..] else r.slots;
        r.(slots := kept + [FreshSlot(latest.epoch + 1, NextTraffic(latest.secret))])
  }

  function Release(r: Receiver): Receiver {
    r.(released := true, hsSecret := None)
  }

  /** Read a complete message off the queue and expect the next one. */
  function Consume(r: Receiver, wanted: MessageType): Receiver {
    if !HasComplete(r.queue, wanted, r.peerMsgSeq) then r
    else
      var u := FirstUnhandled(r.queue);
      r.(queue := r.queue[..u] + Consumed(r.queue[u..], wanted), peerMsgSeq := r.peerMsgSeq + 1)
  }

  // ----- The epoch window -----

  ghost predicate Consecutive(slots: seq<Slot>) {
    forall i :: 0 <= i < |slots| ==> slots[i].epoch == slots[0].epoch + i
  }

  ghost predicate SlotValid(peer: Side, slot: Slot) {
    && slot.epoch >= FIRST_APP_EPOCH && slot.epoch <= MAX_EPOCH
    && slot.secret == SecretOf(peer, slot.epoch)
    && slot.replay.Valid()
    && slot.expected == (if slot.replay.seen == {} then 0 else slot.replay.newest + 1)
  }

  /** The numbers accepted in an epoch. */
  ghost predicate Recorded(accepted: set<Opened>, epoch: nat, seen: set<nat>) {
    forall o :: o in accepted && o.epoch == epoch ==> o.number in seen
  }

  ghost predicate ReceiverValid(r: Receiver) {
    && |r.slots| <= MAX_RECV_EPOCHS && Consecutive(r.slots)
    && (forall i :: 0 <= i < |r.slots| ==> SlotValid(r.peer, r.slots[i]))
    && (forall i :: 0 <= i < |r.slots| ==> Recorded(r.accepted, r.slots[i].epoch, r.slots[i].replay.seen))
    && (r.hsSecret.Some? ==> r.hsSecret.value == HandshakeTraffic(r.peer))
    && r.hsReplay.Valid() && Recorded(r.accepted, HANDSHAKE_EPOCH, r.hsReplay.seen)
    && (forall o :: o in r.accepted ==>
          o.epoch >= HANDSHAKE_EPOCH)
    && (forall o :: o in r.accepted ==>
          o.epoch == HANDSHAKE_EPOCH || (r.slots != [] && o.epoch <= r.slots[|r.slots| - 1].epoch))
    && (forall o, p :: o in r.accepted && p in r.accepted && o.epoch == p.epoch && o.number == p.number ==> o == p)
  }

  lemma FindConsecutive(r: Receiver, i: nat)
    requires Consecutive(r.slots) && i < |r.slots|
    ensures Find(r.slots, r.slots[i].epoch) == i
  {
    var f := Find(r.slots, r.slots[i].epoch);
    assert r.slots[i].epoch == r.slots[0].epoch + i;
    if f < |r.slots| {
      assert r.slots[f].epoch == r.slots[0].epoch + f;
    }
  }

  /** In a window of four consecutive epochs the two low bits pick one out. */
  lemma {:induction false} NewestMatchExact(slots: seq<Slot>, i: nat)
    requires |slots| <= MAX_RECV_EPOCHS && Consecutive(slots) && i < |slots|
    ensures NewestMatch(slots, slots[i].epoch % 4) == Some(slots[i].epoch)
    decreases |slots|
  {
    var last := |slots| - 1;
    assert slots[last].epoch == slots[0].epoch + last && slots[i].epoch == slots[0].epoch + i;
    if i < last {
      NewestMatchExact(slots[..last], i);
    }
  }

  /** Every retained epoch is resolved from its two low bits exactly when no retained epoch
      can be mistaken for the handshake epoch. */
  lemma ResolutionExact(r: Receiver)
    requires ReceiverValid(r)
    ensures (forall i :: 0 <= i < |r.slots| ==> ResolveEpoch(r, r.slots[i].epoch % 4) == r.slots[i].epoch)
            <==> r.hsSecret.None? || forall i :: 0 <= i < |r.slots| ==> r.slots[i].epoch % 4 != 2
  {
    forall i | 0 <= i < |r.slots|
      ensures NewestMatch(r.slots, r.slots[i].epoch % 4) == Some(r.slots[i].epoch)
    {
      NewestMatchExact(r.slots, i);
    }
    forall i | 0 <= i < |r.slots|
      ensures SlotValid(r.peer, r.slots[i])
    {
    }
  }

  /** The receiver has the keys of the epoch. */
  predicate Holds(r: Receiver, epoch: nat) {
    SecretAt(r, epoch).Some?
  }

  /** The two wire bits of the epoch do not lead to the handshake keys instead. */
  predicate Unmistaken(r: Receiver, epoch: nat) {
    epoch == HANDSHAKE_EPOCH || r.hsSecret.None? || epoch % 4 != HANDSHAKE_EPOCH % 4
  }

  lemma ResolvesHeld(r: Receiver, epoch: nat)
    requires ReceiverValid(r) && Holds(r, epoch) && epoch >= HANDSHAKE_EPOCH
    ensures ResolveEpoch(r, epoch % 4) == epoch <==> Unmistaken(r, epoch)
  {
    if epoch != HANDSHAKE_EPOCH {
      var i := Find(r.slots, epoch);
      NewestMatchExact(r.slots, i);
    }
  }

  /** A genuine record, of the handshake or an application epoch and at any moment, is opened
      under its full epoch and number exactly when the keys of its epoch are held, its epoch
      bits do not lead to the handshake keys instead, its number field can be completed, and
      it is not a replay. */
  lemma OpenExact(r: Receiver, epoch: nat, number: nat, payload: Payload, garbage: nat)
    requires ReceiverValid(r) && epoch >= HANDSHAKE_EPOCH
    ensures var record := Ciphertext(SecretOf(r.peer, epoch), number, epoch % 4, number % 0x1_0000, payload);
            Open(r, record, garbage) == Some(Opened(epoch, number, payload))
            <==> && Holds(r, epoch)
                 && Unmistaken(r, epoch)
                 && Recoverable(number, ExpectedAt(r, epoch), FIELD_BITS)
                 && ReplayCheck(r, epoch, number)
  {
    var record := Ciphertext(SecretOf(r.peer, epoch), number, epoch % 4, number % 0x1_0000, payload);
    FieldWidth();
    ReconstructionExact(number, ExpectedAt(r, epoch), FIELD_BITS);
    if Holds(r, epoch) {
      ResolvesHeld(r, epoch);
      SecretEpochs(r, epoch);
    } else if Open(r, record, garbage).Some? {
      OpenSound(r, epoch, number, payload, garbage);
    }
  }

  lemma FieldWidth()
    ensures Pow2(FIELD_BITS) == 0x1_0000
  {
    assert Pow2(8) == 256 by { assert Pow2(4) == 16; }
    assert Pow2(12) == 4096;
  }

  /** Whatever is opened is the record that was sealed: same epoch, number and contents. */
  lemma OpenSound(r: Receiver, epoch: nat, number: nat, payload: Payload, garbage: nat)
    requires ReceiverValid(r) && epoch >= HANDSHAKE_EPOCH
    ensures var record := Ciphertext(SecretOf(r.peer, epoch), number, epoch % 4, number % 0x1_0000, payload);
            var o := Open(r, record, garbage);
            o.Some? ==> o.value == Opened(epoch, number, payload) && (epoch == HANDSHAKE_EPOCH || Retains(r, epoch))
  {
    var record := Ciphertext(SecretOf(r.peer, epoch), number, epoch % 4, number % 0x1_0000, payload);
    if Open(r, record, garbage).Some? {
      var e := ResolveEpoch(r, record.epochBits);
      SecretEpochs(r, e);
      SecretsDiffer(r.peer, e, epoch);
    }
  }

  lemma SecretEpochs(r: Receiver, e: nat)
    requires ReceiverValid(r) && SecretAt(r, e).Some?
    ensures e >= HANDSHAKE_EPOCH && SecretAt(r, e).value == SecretOf(r.peer, e)
  {
    if e != HANDSHAKE_EPOCH {
      assert SlotValid(r.peer, r.slots[Find(r.slots, e)]);
    }
  }

  /** A record that opens was never accepted before: no epoch and number twice. */
  lemma OpenedIsNew(r: Receiver, record: Record, garbage: nat)
    requires ReceiverValid(r) && record.Ciphertext? && Open(r, record, garbage).Some?
    ensures var o := Open(r, record, garbage).value;
            forall p :: p in r.accepted ==> p.epoch != o.epoch || p.number != o.number
  {
    var o := Open(r, record, garbage).value;
    if o.epoch != HANDSHAKE_EPOCH {
      var slot := r.slots[Find(r.slots, o.epoch)];
      assert SlotValid(r.peer, slot) && Recorded(r.accepted, slot.epoch, slot.replay.seen);
    }
  }

  /** Recording a new number in its window keeps windows and accepted records in step. */
  lemma RecordHandshakeNumber(r: Receiver, o: Opened)
    requires ReceiverValid(r) && o.epoch == HANDSHAKE_EPOCH
    requires forall p :: p in r.accepted ==> p.epoch != o.epoch || p.number != o.number
    ensures ReceiverValid(Commit(r, o))
  {
    var t := Commit(r, o);
    forall j | 0 <= j < |t.slots|
      ensures SlotValid(t.peer, t.slots[j]) && Recorded(t.accepted, t.slots[j].epoch, t.slots[j].replay.seen)
    {
      assert SlotValid(r.peer, r.slots[j]) && Recorded(r.accepted, r.slots[j].epoch, r.slots[j].replay.seen);
    }
  }

  lemma RecordInSlot(r: Receiver, o: Opened, i: nat)
    requires ReceiverValid(r) && o.epoch != HANDSHAKE_EPOCH
    requires i == Find(r.slots, o.epoch) && i < |r.slots|
    ensures var t := Commit(r, o);
            && |t.slots| == |r.slots| && Consecutive(t.slots)
            && (forall j :: 0 <= j < |t.slots| ==>
                  t.slots[j].epoch == r.slots[j].epoch && SlotValid(t.peer, t.slots[j]))
  {
    var t := Commit(r, o);
    forall j | 0 <= j < |t.slots|
      ensures t.slots[j].epoch == r.slots[j].epoch && SlotValid(t.peer, t.slots[j])
    {
      assert SlotValid(r.peer, r.slots[j]);
    }
  }

  lemma RecordApplicationNumber(r: Receiver, o: Opened)
    requires ReceiverValid(r) && o.epoch != HANDSHAKE_EPOCH && Retains(r, o.epoch)
    requires forall p :: p in r.accepted ==> p.epoch != o.epoch || p.number != o.number
    ensures ReceiverValid(Commit(r, o))
  {
    var t := Commit(r, o);
    var i := Find(r.slots, o.epoch);
    RecordInSlot(r, o, i);
    RecordedInSlot(r, o, i);
    assert r.slots[i].epoch == r.slots[0].epoch + i;
    assert r.slots[|r.slots| - 1].epoch == r.slots[0].epoch + (|r.slots| - 1);
  }

  lemma RecordedInSlot(r: Receiver, o: Opened, i: nat)
    requires ReceiverValid(r) && o.epoch != HANDSHAKE_EPOCH
    requires i == Find(r.slots, o.epoch) && i < |r.slots|
    ensures var t := Commit(r, o);
            |t.slots| == |r.slots| && forall j :: 0 <= j < |t.slots| ==>
              Recorded(t.accepted, t.slots[j].epoch, t.slots[j].replay.seen)
  {
    var t := Commit(r, o);
    forall j | 0 <= j < |t.slots|
      ensures Recorded(t.accepted, t.slots[j].epoch, t.slots[j].replay.seen)
    {
      assert Recorded(r.accepted, r.slots[j].epoch, r.slots[j].replay.seen);
      assert r.slots[j].epoch == r.slots[0].epoch + j && r.slots[i].epoch == r.slots[0].epoch + i;
    }
  }

  lemma CommitKeeps(r: Receiver, record: Record, garbage: nat)
    requires ReceiverValid(r) && record.Ciphertext? && Open(r, record, garbage).Some?
    ensures ReceiverValid(Commit(r, Open(r, record, garbage).value))
  {
    OpenedIsNew(r, record, garbage);
    var o := Open(r, record, garbage).value;
    if o.epoch == HANDSHAKE_EPOCH {
      RecordHandshakeNumber(r, o);
    } else {
      RecordApplicationNumber(r, o);
    }
  }

  lemma DispatchWindow(r: Receiver, o: Opened)
    ensures SameWindow(r, Dispatch(r, o))
  {
  }

  lemma SameWindowValid(r: Receiver, t: Receiver)
    requires ReceiverValid(r) && SameWindow(r, t)
    ensures ReceiverValid(t)
  {
  }

  lemma DispatchKeeps(r: Receiver, o: Opened)
    requires ReceiverValid(r)
    ensures ReceiverValid(Dispatch(r, o)) && SameWindow(r, Dispatch(r, o))
  {
    DispatchWindow(r, o);
    SameWindowValid(r, Dispatch(r, o));
  }

  /** The same keys, windows and accepted records. */
  predicate SameWindow(r: Receiver, t: Receiver) {
    && r.peer == t.peer && r.hsSecret == t.hsSecret && r.hsReplay == t.hsReplay && r.hsExpected == t.hsExpected
    && r.slots == t.slots && r.accepted == t.accepted && r.peerMsgSeq == t.peerMsgSeq && r.released == t.released
    && r.peerEncryption == t.peerEncryption && r.maxQueue == t.maxQueue
  }

  lemma ReceiveKeeps(r: Receiver, record: Record, garbage: nat)
    requires ReceiverValid(r)
    ensures ReceiverValid(Receive(r, record, garbage))
  {
    match record
    case Plaintext(number, payload) => DispatchKeeps(r, Opened(0, number, payload));
    case Ciphertext(_, _, _, _, _) =>
      if r.peerEncryption && Open(r, record, garbage).Some? {
        CommitKeeps(r, record, garbage);
        DispatchKeeps(Commit(r, Open(r, record, garbage).value), Open(r, record, garbage).value);
      }
  }

  lemma UpdateRecvKeysKeeps(r: Receiver)
    requires ReceiverValid(r)
    ensures ReceiverValid(UpdateRecvKeys(r))
  {
    if r.slots != [] && r.slots[|r.slots| - 1].epoch < MAX_EPOCH {
      var t := UpdateRecvKeys(r);
      var n := |r.slots|;
      var shift := if n == MAX_RECV_EPOCHS then 1 else 0;
      var latest := r.slots[n - 1];
      assert SlotValid(r.peer, latest);
      assert latest.epoch == r.slots[0].epoch + (n - 1);
      forall i | 0 <= i < |t.slots|
        ensures t.slots[i].epoch == r.slots[0].epoch + i + shift
        ensures SlotValid(t.peer, t.slots[i]) && Recorded(t.accepted, t.slots[i].epoch, t.slots[i].replay.seen)
      {
        if i < |t.slots| - 1 {
          assert t.slots[i] == r.slots[i + shift];
          assert r.slots[i + shift].epoch == r.slots[0].epoch + (i + shift);
        }
      }
    }
  }

  /** Rotating adds the next epoch and gives up the oldest of four; every other epoch keeps
      its keys and its window, so that records still on their way in it are opened. */
  lemma RotationRetains(r: Receiver, epoch: nat)
    requires ReceiverValid(r) && r.slots != [] && r.slots[|r.slots| - 1].epoch < MAX_EPOCH
    ensures var t, newest := UpdateRecvKeys(r), r.slots[|r.slots| - 1].epoch;
            && (Retains(t, epoch) <==>
                  epoch == newest + 1
                  || (Retains(r, epoch) && !(|r.slots| == MAX_RECV_EPOCHS && epoch == r.slots[0].epoch)))
            && (Retains(t, epoch) && epoch != newest + 1 ==>
                  t.slots[Find(t.slots, epoch)] == r.slots[Find(r.slots, epoch)])
  {
    var t := UpdateRecvKeys(r);
    UpdateRecvKeysKeeps(r);
    RetainsExact(r, epoch);
    RetainsExact(t, epoch);
    var shift := if |r.slots| == MAX_RECV_EPOCHS then 1 else 0;
    assert t.slots[0] == r.slots[shift] && r.slots[shift].epoch == r.slots[0].epoch + shift;
  }

  /** The retained epochs are those from the first to the last slot's, in their places. */
  lemma RetainsExact(r: Receiver, epoch: nat)
    requires Consecutive(r.slots)
    ensures Retains(r, epoch) <==> r.slots != [] && r.slots[0].epoch <= epoch < r.slots[0].epoch + |r.slots|
    ensures Retains(r, epoch) ==> Find(r.slots, epoch) == epoch - r.slots[0].epoch
  {
    if Retains(r, epoch) {
      var i := Find(r.slots, epoch);
      assert r.slots[i].epoch == r.slots[0].epoch + i;
    } else if r.slots != [] && r.slots[0].epoch <= epoch < r.slots[0].epoch + |r.slots| {
      FindConsecutive(r, epoch - r.slots[0].epoch);
    }
  }

  /** A genuine handshake record that opens, of a message not yet read, is in the queue
      afterwards, in it before or put there now; and when it is put there, the next ACK
      lists it, room permitting. */
  lemma OpenedIsQueued(r: Receiver, record: Record, garbage: nat)
    requires record.Ciphertext? && record.payload.HandshakePart? && r.peerEncryption
    requires Open(r, record, garbage).Some?
    requires var o := Open(r, record, garbage).value; var part := record.payload.part;
             && !AfterClose(r, o.epoch, o.number) && |r.queue| < r.maxQueue
             && part.seqNo >= r.peerMsgSeq && (r.released ==> part.msgType == KeyUpdate)
    ensures var o, t := Open(r, record, garbage).value, Receive(r, record, garbage);
            var part := record.payload.part;
            var item := Item(part, o.epoch, o.number, false);
            && (exists other :: other in t.queue && other.part.SameKey(part))
            && (item in t.queue || t.queue == r.queue)
            && (t.queue != r.queue && o.epoch >= HANDSHAKE_EPOCH && |r.received| < MAX_TRACKED ==>
                  t.received == r.received + [(o.epoch, o.number)])
  {
    var o := Open(r, record, garbage).value;
    assert Receive(r, record, garbage) == InsertPart(Commit(r, o), record.payload.part, o.epoch, o.number);
    PartIsQueued(Commit(r, o), record.payload.part, o.epoch, o.number);
  }

  lemma PartIsQueued(r: Receiver, part: Part, epoch: nat, number: nat)
    requires |r.queue| < r.maxQueue && part.seqNo >= r.peerMsgSeq && (r.released ==> part.msgType == KeyUpdate)
    ensures var t := InsertPart(r, part, epoch, number);
            && (exists other :: other in t.queue && other.part.SameKey(part))
            && (Item(part, epoch, number, false) in t.queue || t.queue == r.queue)
            && (t.queue != r.queue && epoch >= HANDSHAKE_EPOCH && |r.received| < MAX_TRACKED ==>
                  t.received == r.received + [(epoch, number)])
  {
    var item := Item(part, epoch, number, false);
    var i := Position(r.queue, part);
    var t := InsertPart(r, part, epoch, number);
    match Classify(r.queue, r.peerMsgSeq, r.released, r.maxQueue, item)
    case Inserted(_) => assert t.queue[i] == item;
    case Replaced(_) => assert t.queue[i] == item;
    case Duplicate => assert t.queue[i].part.SameKey(part);
    case _ =>
  }

  /** What the owner of a receiver does to it. */
  datatype RecvOp =
    | Arrive(record: Record, garbage: nat)
    | InstallHandshakeSecret
    | InstallApplicationSecret
    | EnableEncryption
    | Rotate
    | ReleaseData
    | Read(wanted: MessageType)

  function PerformRecv(r: Receiver, op: RecvOp): Receiver {
    match op
    case Arrive(record, garbage) => Receive(r, record, garbage)
    case InstallHandshakeSecret => InstallHandshakeRecv(r)
    case InstallApplicationSecret => if r.slots == [] then InstallApplicationRecv(r) else r
    case EnableEncryption => r.(peerEncryption := true)
    case Rotate => UpdateRecvKeys(r)
    case ReleaseData => Release(r)
    case Read(wanted) => Consume(r, wanted)
  }

  function PerformAllRecv(r: Receiver, ops: seq<RecvOp>): Receiver
    decreases |ops|
  {
    if ops == [] then r else PerformAllRecv(PerformRecv(r, ops[0]), ops[1..])
  }

  lemma PerformRecvKeeps(r: Receiver, op: RecvOp)
    requires ReceiverValid(r)
    ensures ReceiverValid(PerformRecv(r, op))
  {
    match op
    case Arrive(record, garbage) => ReceiveKeeps(r, record, garbage);
    case Rotate => UpdateRecvKeysKeeps(r);
    case _ =>
  }

  lemma {:induction false} PerformAllRecvKeeps(r: Receiver, ops: seq<RecvOp>)
    requires ReceiverValid(r)
    ensures ReceiverValid(PerformAllRecv(r, ops))
    decreases |ops|
  {
    if ops != [] {
      PerformRecvKeeps(r, ops[0]);
      PerformAllRecvKeeps(PerformRecv(r, ops[0]), ops[1..]);
    }
  }

  /** After any number of arrivals and rotations the receiver holds at most four strictly
      consecutive epochs, no two with the same two low bits, and, once the handshake keys
      are gone, resolves each from those bits. */
  lemma EpochWindow(peer: Side, maxQueue: nat, ops: seq<RecvOp>)
    ensures var r := PerformAllRecv(NewReceiver(peer, maxQueue), ops);
            && |r.slots| <= MAX_RECV_EPOCHS
            && Consecutive(r.slots)
            && (forall i, j :: 0 <= i < j < |r.slots| ==> r.slots[i].epoch % 4 != r.slots[j].epoch % 4)
            && (r.hsSecret.None? ==>
                  forall i :: 0 <= i < |r.slots| ==> ResolveEpoch(r, r.slots[i].epoch % 4) == r.slots[i].epoch)
  {
    PerformAllRecvKeeps(NewReceiver(peer, maxQueue), ops);
    LowBitsDiffer(PerformAllRecv(NewReceiver(peer, maxQueue), ops));
    ResolutionExact(PerformAllRecv(NewReceiver(peer, maxQueue), ops));
  }

  lemma LowBitsDiffer(r: Receiver)
    requires |r.slots| <= MAX_RECV_EPOCHS && Consecutive(r.slots)
    ensures forall i, j :: 0 <= i < j < |r.slots| ==> r.slots[i].epoch % 4 != r.slots[j].epoch % 4
  {
    forall i, j | 0 <= i < j < |r.slots|
      ensures r.slots[i].epoch % 4 != r.slots[j].epoch % 4
    {
      assert r.slots[i].epoch == r.slots[0].epoch + i && r.slots[j].epoch == r.slots[0].epoch + j;
    }
  }
}
