/** KeyUpdate between two connected engines: the sender's epoch and the receiver's newest
    stay equal or one apart, whatever the network does. */
module Lockstep {
  import opened Handshakes
  import opened RecordNumbers
  import opened Records
  import opened Reassembly
  import opened SendSide
  import opened ReceiveSide
  import opened Link

  function Newest(r: Receiver): nat {
    if r.slots == [] then 0 else r.slots[|r.slots| - 1].epoch
  }

  // ----- Invariants of one direction -----

  /** Every KeyUpdate sent is numbered by the epoch it ends, and later epochs carry no
      other handshake message. */
  ghost predicate UpdateRecord(s: Sender, record: Record) {
    match record.payload
    case HandshakePart(part) =>
      if record.Ciphertext? && EpochOf(record.secret) > HANDSHAKE_EPOCH then
        && part.msgType == KeyUpdate
        && EpochOf(record.secret) < s.appEpoch
        && part.seqNo + s.appEpoch == s.nextMsgSeq + EpochOf(record.secret)
      else part.msgType != KeyUpdate
    case _ => true
  }

  ghost predicate UpdatesNumbered(s: Sender) {
    forall i :: 0 <= i < |s.sent| ==> UpdateRecord(s, s.sent[i])
  }

  /** ACKs on their way list application epochs the receiver has left behind only. */
  ghost predicate AckLeftBehind(newest: nat, record: Record) {
    record.payload.AckData? ==>
      forall n :: n in DecodeAck(record.payload.bytes) ==> n.0 == HANDSHAKE_EPOCH || n.0 < newest
  }

  ghost predicate AcksLeftBehind(back: Sender, r: Receiver) {
    forall i :: 0 <= i < |back.sent| ==> AckLeftBehind(Newest(r), back.sent[i])
  }

  ghost predicate TrackedReached(r: Receiver) {
    forall i :: 0 <= i < |r.received| ==> r.received[i].0 <= Newest(r)
  }

  /** While a KeyUpdate is in flight it is all the flight holds, under the epoch it ends. */
  ghost predicate FlightInStep(s: Sender) {
    && (s.prevSecret.Some? ==> |s.flight| <= 1)
    && forall i :: 0 <= i < |s.flight| ==>
      if s.prevSecret.Some? then
        && s.flight[i].epoch == s.prevEpoch && !s.flight[i].acked
        && s.flight[i].payload.HandshakePart? && s.flight[i].payload.part.msgType == KeyUpdate
        && s.flight[i].payload.part.seqNo + 1 == s.nextMsgSeq
      else
        && s.flight[i].epoch <= HANDSHAKE_EPOCH
        && s.flight[i].payload.HandshakePart? && s.flight[i].payload.part.msgType != KeyUpdate
  }

  /** Sender and receiver count alike: equal epochs with nothing in flight, and at most one
      apart otherwise, their message numbers moving with their epochs. */
  ghost predicate InStep(s: Sender, r: Receiver) {
    && s.hsSecret.Some? && s.appSecret.Some? && r.slots != []
    && Newest(r) <= s.appEpoch <= Newest(r) + 1
    && (s.prevSecret.None? ==> Newest(r) == s.appEpoch)
    && s.nextMsgSeq + Newest(r) == r.peerMsgSeq + s.appEpoch
  }

  ghost predicate DirectionInStep(s: Sender, r: Receiver, back: Sender) {
    && InStep(s, r) && UpdatesNumbered(s) && FlightInStep(s)
    && AcksLeftBehind(back, r) && TrackedReached(r)
  }

  ghost predicate InLockstep(sys: System) {
    && LinkValid(sys)
    && sys.client.rcv.released && sys.server.rcv.released
    && DirectionInStep(sys.client.snd, sys.server.rcv, sys.server.snd)
    && DirectionInStep(sys.server.snd, sys.client.rcv, sys.client.snd)
  }

  /** Both peers connected: application keys installed, all handshake messages read, and no
      KeyUpdate sent yet. */
  ghost predicate FreshSender(s: Sender, r: Receiver) {
    && s.hsSecret.Some? && s.appSecret.Some? && s.prevSecret.None? && s.appEpoch == FIRST_APP_EPOCH
    && |r.slots| == 1 && r.slots[0].epoch == FIRST_APP_EPOCH
    && s.nextMsgSeq == r.peerMsgSeq
    && forall record :: record in s.sent && record.payload.HandshakePart? ==>
         && record.payload.part.msgType != KeyUpdate
         && (record.Ciphertext? ==> record.secret == HandshakeTraffic(s.side))
  }

  ghost predicate Connected(sys: System) {
    && sys.client.rcv.released && sys.server.rcv.released
    && FreshSender(sys.client.snd, sys.server.rcv)
    && FreshSender(sys.server.snd, sys.client.rcv)
  }

  /** An accepted handshake record lies in the sender's log. */
  lemma AcceptedHandshake(s: Sender, r: Receiver, n: Number) returns (i: nat)
    requires SenderValid(s) && ReceiverValid(r) && Genuine(s, r) && r.peer == s.side && AcceptedNumber(r, n)
    ensures i < |s.sent| && s.sent[i].Ciphertext? && s.sent[i].payload.HandshakePart?
    ensures n.0 >= HANDSHAKE_EPOCH && s.sent[i].secret == SecretOf(s.side, n.0) && EpochOf(s.sent[i].secret) == n.0
  {
    var o :| o in r.accepted && o.epoch == n.0 && o.number == n.1 && o.payload.HandshakePart?;
    AcceptedBounds(s, r, o);
    var record := RecordOf(s.side, o.epoch, o.number, o.payload);
    i :| 0 <= i < |s.sent| && s.sent[i] == record;
    EpochOfSecret(s.side, o.epoch);
  }

  lemma FreshDirection(s: Sender, r: Receiver, back: Sender)
    requires Direction(s, r, back) && FreshSender(s, r)
    ensures DirectionInStep(s, r, back)
  {
    forall i | 0 <= i < |s.sent|
      ensures UpdateRecord(s, s.sent[i])
    {
      assert s.sent[i] in s.sent;
    }
    forall i | 0 <= i < |s.flight|
      ensures s.flight[i].epoch <= HANDSHAKE_EPOCH
              && s.flight[i].payload.HandshakePart? && s.flight[i].payload.part.msgType != KeyUpdate
    {
      assert EntrySent(s, s.flight[i]);
      if s.flight[i].epoch > HANDSHAKE_EPOCH {
        EpochOfSecret(s.side, s.flight[i].epoch);
      }
    }
    forall n | AcceptedNumber(r, n)
      ensures n.0 == HANDSHAKE_EPOCH
    {
      var i := AcceptedHandshake(s, r, n);
      assert s.sent[i] in s.sent;
    }
    forall i | 0 <= i < |back.sent|
      ensures AckLeftBehind(Newest(r), back.sent[i])
    {
      assert GenuineAck(r, back.sent[i]);
    }
  }

  lemma ConnectedInLockstep(sys: System)
    requires LinkValid(sys) && Connected(sys)
    ensures InLockstep(sys)
  {
    FreshDirection(sys.client.snd, sys.server.rcv, sys.server.snd);
    FreshDirection(sys.server.snd, sys.client.rcv, sys.client.snd);
  }

  // ----- The sender's steps -----

  /** Sending anything but a handshake message leaves the direction in step. */
  lemma SendInStep(s: Sender, t: Sender, r: Receiver, back: Sender, record: Record)
    requires DirectionInStep(s, r, back) && SameKeys(s, t) && t.flight == s.flight
    requires t.sent == s.sent + [record] && !record.payload.HandshakePart?
    ensures DirectionInStep(t, r, back)
  {
    forall i | 0 <= i < |t.sent|
      ensures UpdateRecord(t, t.sent[i])
    {
      if i < |s.sent| {
        assert UpdateRecord(s, s.sent[i]);
      }
    }
  }

  lemma UnsavedInStep(s: Sender, r: Receiver, back: Sender, payload: Payload)
    requires Direction(s, r, back) && DirectionInStep(s, r, back) && !payload.HandshakePart?
    requires EmitCiphertext(s, s.appEpoch, false, payload).failure.None?
    ensures DirectionInStep(EmitCiphertext(s, s.appEpoch, false, payload).sender, r, back)
  {
    var t := EmitCiphertext(s, s.appEpoch, false, payload).sender;
    EmitFrame(s, s.appEpoch, false, payload);
    EmitCiphertextExtends(s, s.appEpoch, false, payload);
    SendInStep(s, t, r, back, RecordOf(s.side, s.appEpoch, NumberFor(s, s.appEpoch), payload));
  }

  lemma ClosedInStep(s: Sender, r: Receiver, back: Sender)
    requires DirectionInStep(s, r, back)
    ensures DirectionInStep(s.(flight := []), r, back)
  {
    var t := s.(flight := []);
    forall i | 0 <= i < |t.sent|
      ensures UpdateRecord(t, t.sent[i])
    {
      assert UpdateRecord(s, s.sent[i]);
    }
  }

  lemma AgainInStep(s: Sender, e: Entry)
    requires SenderValid(s) && s.flight == [] && EntrySent(s, e) && (e.epoch == 0 || HeldEpoch(s, e.epoch))
    requires UpdatesNumbered(s) && UpdateRecord(s, RecordOf(s.side, e.epoch, e.sendSeq, e.payload))
    requires EmitAgain(s, e).failure.None?
    ensures UpdatesNumbered(EmitAgain(s, e).sender)
  {
    EmitFrame(s, e.epoch, false, e.payload);
    if e.epoch == 0 {
      EmitPlaintextExtends(s, false, e.payload);
    } else {
      EmitCiphertextExtends(s, e.epoch, false, e.payload);
    }
    var t := EmitAgain(s, e).sender;
    forall i | 0 <= i < |t.sent|
      ensures UpdateRecord(t, t.sent[i])
    {
      if i < |s.sent| {
        assert UpdateRecord(s, s.sent[i]);
      }
    }
  }

  lemma {:induction false} ResendEntriesInStep(s: Sender, entries: seq<Entry>)
    requires SenderValid(s) && s.flight == [] && UpdatesNumbered(s)
    requires forall i :: 0 <= i < |entries| ==>
               && EntrySent(s, entries[i]) && (entries[i].epoch == 0 || HeldEpoch(s, entries[i].epoch))
               && UpdateRecord(s, RecordOf(s.side, entries[i].epoch, entries[i].sendSeq, entries[i].payload))
    requires ResendEntries(s, entries).0.failure.None?
    ensures UpdatesNumbered(ResendEntries(s, entries).0.sender)
    decreases |entries|
  {
    if entries != [] {
      var e := entries[0];
      var t := if e.acked then s else EmitAgain(s, e).sender;
      if !e.acked {
        AgainSent(s, e);
        AgainInStep(s, e);
      }
      forall i | 0 <= i < |entries[1..]|
        ensures var f := entries[1..][i];
                && EntrySent(t, f) && (f.epoch == 0 || HeldEpoch(t, f.epoch))
                && UpdateRecord(t, RecordOf(t.side, f.epoch, f.sendSeq, f.payload))
      {
        EntrySentLater(s, t, entries[i + 1]);
      }
      ResendEntriesInStep(t, entries[1..]);
    }
  }

  /** Resending leaves the direction in step, an unread KeyUpdate going out again under the
      epoch it ends. */
  lemma ResendInStep(s: Sender, r: Receiver, back: Sender)
    requires Direction(s, r, back) && DirectionInStep(s, r, back) && FlightResend(s).failure.None?
    ensures DirectionInStep(FlightResend(s).sender, r, back)
  {
    var s0 := s.(flight := [], datagramSealed := true);
    forall i | 0 <= i < |s.flight|
      ensures EntrySent(s0, s.flight[i]) && (s.flight[i].epoch == 0 || HeldEpoch(s0, s.flight[i].epoch))
      ensures UpdateRecord(s0, RecordOf(s.side, s.flight[i].epoch, s.flight[i].sendSeq, s.flight[i].payload))
    {
      assert EntrySent(s, s.flight[i]);
      var record := RecordOf(s.side, s.flight[i].epoch, s.flight[i].sendSeq, s.flight[i].payload);
      var j :| 0 <= j < |s.sent| && s.sent[j] == record;
      assert UpdateRecord(s, s.sent[j]);
    }
    forall i | 0 <= i < |s0.sent|
      ensures UpdateRecord(s0, s0.sent[i])
    {
      assert UpdateRecord(s, s.sent[i]);
    }
    ResendEntriesInStep(s0, s.flight);
    ResendSent(s0, s.flight);
    var (o, entries) := ResendEntries(s0, s.flight);
    var t := FlightResend(s).sender;
    assert t == o.sender.(flight := entries);
    forall i | 0 <= i < |t.sent|
      ensures UpdateRecord(t, t.sent[i])
    {
      assert UpdateRecord(o.sender, o.sender.sent[i]);
    }
  }

  /** The sender after a KeyUpdate: one epoch on, the old keys kept for its resends. */
  lemma KeyUpdateResult(s: Sender, request: nat)
    requires SenderValid(s) && FlightSent(s) && CreateKeyUpdate(s, request).failure.None?
    ensures var t := CreateKeyUpdate(s, request).sender;
            var part := HandshakePart(KeyUpdatePart(s.nextMsgSeq, request));
            && t.side == s.side && t.hsSecret == s.hsSecret && t.appSecret.Some?
            && t.appEpoch == s.appEpoch + 1 && t.prevSecret == s.appSecret && t.prevEpoch == s.appEpoch
            && t.prevSecret.Some?
            && t.nextMsgSeq == s.nextMsgSeq + 1
            && t.flight == [Entry(s.appEpoch, NumberFor(s, s.appEpoch), part, false)]
            && t.sent == s.sent + [RecordOf(s.side, s.appEpoch, NumberFor(s, s.appEpoch), part)]
  {
    NextMessageKeeps(s);
    EmitCiphertextExtends(NextMessage(s), s.appEpoch, true, HandshakePart(KeyUpdatePart(s.nextMsgSeq, request)));
    SendKeyUpdateKeeps(s, request);
    KeyUpdateShape(s, request);
  }

  lemma KeyUpdateShape(s: Sender, request: nat)
    requires CreateKeyUpdate(s, request).failure.None?
    ensures var m, t := SendKeyUpdate(s, request).sender, CreateKeyUpdate(s, request).sender;
            && SendKeyUpdate(s, request).failure.None? && m.appSecret.Some?
            && t.sent == m.sent && t.flight == m.flight && t.nextMsgSeq == m.nextMsgSeq
            && t.side == m.side && t.hsSecret == m.hsSecret && t.appSecret.Some?
            && t.appEpoch == m.appEpoch + 1 && t.prevSecret == m.appSecret && t.prevEpoch == m.appEpoch
  {
  }

  /** Starting a KeyUpdate from equal epochs puts the sender one epoch ahead, in step. */
  lemma KeyUpdateInStep(s: Sender, r: Receiver, back: Sender, request: nat)
    requires Direction(s, r, back) && DirectionInStep(s, r, back) && Newest(r) == s.appEpoch
    requires CreateKeyUpdate(s, request).failure.None?
    ensures DirectionInStep(CreateKeyUpdate(s, request).sender, r, back)
  {
    KeyUpdateResult(s, request);
    EpochOfSecret(s.side, s.appEpoch);
    var t := CreateKeyUpdate(s, request).sender;
    forall i | 0 <= i < |t.sent|
      ensures UpdateRecord(t, t.sent[i])
    {
      if i < |s.sent| {
        assert UpdateRecord(s, s.sent[i]);
      }
    }
  }

  /** With a KeyUpdate in flight, an ACK that names it clears it, and any other changes
      nothing. */
  lemma AckOfUpdate(s: Sender, r: Receiver, body: seq<nat>)
    requires KeysValid(s) && FlightInStep(s) && s.prevSecret.Some?
    requires forall n :: n in DecodeAck(body) ==> n.0 == HANDSHAKE_EPOCH || n.0 < Newest(r)
    ensures ProcessAck(s, body) == s
            || (ProcessAck(s, body) == s.(prevSecret := None, flight := []) && s.prevEpoch < Newest(r))
  {
    var acks := DecodeAck(body);
    var marked := MarkAcked(s.flight, acks);
    if s.flight == [] {
      assert marked == [];
    } else {
      assert |marked| == 1;
      assert !HandshakeAcked(marked);
      if (s.flight[0].epoch, s.flight[0].sendSeq) in acks {
        assert AllAcked(marked);
      } else {
        assert marked == s.flight;
        assert !marked[0].acked;
      }
    }
  }

  /** Without one, an ACK touches marks and flight only. */
  lemma AckOfHandshake(s: Sender, body: seq<nat>)
    requires s.prevSecret.None?
    ensures var t := ProcessAck(s, body);
            && t == s.(flight := t.flight)
            && (t.flight == [] || t.flight == s.flight || t.flight == MarkAcked(s.flight, DecodeAck(body)))
  {
  }

  lemma SameLogInStep(s: Sender, t: Sender)
    requires UpdatesNumbered(s) && t.sent == s.sent && t.appEpoch == s.appEpoch && t.nextMsgSeq == s.nextMsgSeq
    ensures UpdatesNumbered(t)
  {
    forall i | 0 <= i < |t.sent|
      ensures UpdateRecord(t, t.sent[i])
    {
      assert UpdateRecord(s, s.sent[i]);
    }
  }

  /** An ACK drops the previous keys only after the receiver has rotated. */
  lemma AckInStep(s: Sender, r: Receiver, back: Sender, body: seq<nat>)
    requires SenderValid(s) && DirectionInStep(s, r, back)
    requires forall n :: n in DecodeAck(body) ==> n.0 == HANDSHAKE_EPOCH || n.0 < Newest(r)
    ensures DirectionInStep(ProcessAck(s, body), r, back)
    ensures s.prevSecret.Some? && ProcessAck(s, body).prevSecret.None? ==> Newest(r) == s.appEpoch
  {
    var t := ProcessAck(s, body);
    if s.prevSecret.Some? {
      AckOfUpdate(s, r, body);
    } else {
      AckOfHandshake(s, body);
      forall i | 0 <= i < |t.flight|
        ensures t.flight[i].epoch <= HANDSHAKE_EPOCH
                && t.flight[i].payload.HandshakePart? && t.flight[i].payload.part.msgType != KeyUpdate
      {
        assert t.flight[i].payload == s.flight[i].payload && t.flight[i].epoch == s.flight[i].epoch;
      }
    }
    SameLogInStep(s, t);
  }

  // ----- The receiver's steps -----

  lemma CommitKeepsNewest(r: Receiver, o: Opened)
    ensures Newest(Commit(r, o)) == Newest(r) && |Commit(r, o).slots| == |r.slots|
  {
  }

  /** A handshake record opened in step names an epoch the receiver has reached. */
  lemma OpenedReached(s: Sender, r: Receiver, record: Record, garbage: nat)
    requires SenderValid(s) && ReceiverValid(r) && r.peer == s.side && record in s.sent && record.Ciphertext?
    requires InStep(s, r) && UpdatesNumbered(s)
    requires Open(r, record, garbage).Some? && record.payload.HandshakePart?
    ensures Open(r, record, garbage).value.epoch <= Newest(r)
  {
    OpenedGenuine(s, r, record, garbage);
    var i :| 0 <= i < |s.sent| && s.sent[i] == record;
    assert UpdateRecord(s, s.sent[i]);
    assert SlotValid(r.peer, r.slots[|r.slots| - 1]);
  }

  lemma DispatchInStep(s: Sender, r: Receiver, back: Sender, o: Opened)
    requires DirectionInStep(s, r, back) && (o.payload.HandshakePart? ==> o.epoch <= Newest(r))
    ensures DirectionInStep(s, Dispatch(r, o), back)
  {
    DispatchSlots(r, o);
    var t := Dispatch(r, o);
    forall i | 0 <= i < |t.received|
      ensures t.received[i].0 <= Newest(t)
    {
    }
  }

  lemma DispatchSlots(r: Receiver, o: Opened)
    ensures Dispatch(r, o).slots == r.slots && Dispatch(r, o).peerMsgSeq == r.peerMsgSeq
    ensures Dispatch(r, o).released == r.released
    ensures forall i :: 0 <= i < |Dispatch(r, o).received| ==>
              Dispatch(r, o).received[i] in r.received
              || (o.payload.HandshakePart? && Dispatch(r, o).received[i].0 == o.epoch)
  {
  }

  lemma CommitInStep(s: Sender, r: Receiver, back: Sender, o: Opened)
    requires DirectionInStep(s, r, back)
    ensures DirectionInStep(s, Commit(r, o), back)
  {
    CommitKeepsNewest(r, o);
    assert AcksLeftBehind(back, Commit(r, o)) by {
      forall i | 0 <= i < |back.sent|
        ensures AckLeftBehind(Newest(Commit(r, o)), back.sent[i])
      {
        assert AckLeftBehind(Newest(r), back.sent[i]);
      }
    }
  }

  lemma ReceiveInStep(s: Sender, r: Receiver, back: Sender, record: Record, garbage: nat)
    requires Direction(s, r, back) && DirectionInStep(s, r, back) && record in s.sent
    ensures DirectionInStep(s, Receive(r, record, garbage), back)
  {
    match record
    case Plaintext(number, payload) => DispatchInStep(s, r, back, Opened(0, number, payload));
    case Ciphertext(_, _, _, _, _) =>
      if r.peerEncryption && Open(r, record, garbage).Some? {
        var o := Open(r, record, garbage).value;
        if record.payload.HandshakePart? {
          OpenedReached(s, r, record, garbage);
        }
        CommitKeepsNewest(r, o);
        CommitInStep(s, r, back, o);
        DispatchInStep(s, Commit(r, o), back, o);
      }
  }

  /** A KeyUpdate ready to be read is the one that ends the receiver's newest epoch, and the
      sender has already moved on. */
  lemma ReadyUpdate(s: Sender, r: Receiver)
    requires QueueSent(s, r) && SenderValid(s) && UpdatesNumbered(s) && InStep(s, r)
    requires HasComplete(r.queue, KeyUpdate, r.peerMsgSeq)
    ensures s.appEpoch == Newest(r) + 1
  {
    var item := Window(r.queue)[0];
    assert item == r.queue[FirstUnhandled(r.queue)] && item in r.queue;
    var record := RecordOf(s.side, item.epoch, item.number, HandshakePart(item.part));
    var i :| 0 <= i < |s.sent| && s.sent[i] == record;
    assert UpdateRecord(s, s.sent[i]);
  }

  lemma RotatedNewest(r: Receiver)
    requires r.slots != [] && Newest(r) < MAX_EPOCH && HasComplete(r.queue, KeyUpdate, r.peerMsgSeq)
    ensures Newest(Rotated(r)) == Newest(r) + 1 && Rotated(r).slots != []
    ensures Rotated(r).peerMsgSeq == r.peerMsgSeq + 1 && Rotated(r).received == r.received
    ensures Rotated(r).released == r.released
  {
  }

  /** Reading it brings the receiver level. */
  lemma RotateInStep(s: Sender, r: Receiver, back: Sender, received: seq<Number>)
    requires Direction(s, r, back) && DirectionInStep(s, r, back)
    requires HasComplete(r.queue, KeyUpdate, r.peerMsgSeq)
    requires received == [] || received == r.received
    ensures DirectionInStep(s, Rotated(r).(received := received), back)
    ensures Newest(Rotated(r)) == s.appEpoch
  {
    ReadyUpdate(s, r);
    RotatedNewest(r);
    var t := Rotated(r).(received := received);
    assert Newest(t) == Newest(r) + 1;
    forall i | 0 <= i < |back.sent|
      ensures AckLeftBehind(Newest(t), back.sent[i])
    {
      assert AckLeftBehind(Newest(r), back.sent[i]);
    }
    forall i | 0 <= i < |t.received|
      ensures t.received[i].0 <= Newest(t)
    {
      assert r.received[i].0 <= Newest(r);
    }
  }

  // ----- ACKs going back -----

  /** More records sent back keep a direction in step if their ACKs name epochs left behind. */
  lemma BackInStep(s: Sender, r: Receiver, back: Sender, back': Sender)
    requires DirectionInStep(s, r, back) && back.sent <= back'.sent
    requires forall i :: |back.sent| <= i < |back'.sent| ==> AckLeftBehind(Newest(r), back'.sent[i])
    ensures DirectionInStep(s, r, back')
  {
    forall i | 0 <= i < |back'.sent|
      ensures AckLeftBehind(Newest(r), back'.sent[i])
    {
      if i < |back.sent| {
        assert back'.sent[i] == back.sent[i] && AckLeftBehind(Newest(r), back.sent[i]);
      }
    }
  }

  lemma OtherRecordsBack(s: Sender, r: Receiver, back: Sender, back': Sender)
    requires DirectionInStep(s, r, back) && back.sent <= back'.sent
    requires forall i :: |back.sent| <= i < |back'.sent| ==> !back'.sent[i].payload.AckData?
    ensures DirectionInStep(s, r, back')
  {
    BackInStep(s, r, back, back');
  }

  /** The ACK sent with a rotation names nothing past the epoch just left. */
  lemma AckBackInStep(s: Sender, e: Endpoint, r': Receiver)
    requires Direction(s, e.rcv, e.snd) && SenderValid(e.snd) && FlightSent(e.snd) && e.snd.appSecret.Some?
    requires DirectionInStep(s, r', e.snd) && TrackedReached(e.rcv) && Newest(r') == Newest(e.rcv) + 1
    requires AckOutcome(e).failure.None?
    ensures DirectionInStep(s, r', AckOutcome(e).sender)
  {
    if e.rcv.received != [] {
      var payload := AckData(EncodeAck(e.rcv.received));
      EmitCiphertextExtends(e.snd, e.snd.appEpoch, false, payload);
      AcceptedEncodable(s, e.rcv, e.rcv.received);
      var t := AckOutcome(e).sender;
      forall i | |e.snd.sent| <= i < |t.sent|
        ensures AckLeftBehind(Newest(r'), t.sent[i])
      {
        assert t.sent[i].payload == payload;
      }
      BackInStep(s, r', e.snd, t);
    }
  }

  // ----- Whole runs -----

  /** What one endpoint `e` needs to keep of the two directions it shares with `p`. */
  ghost predicate PairInStep(e: Endpoint, p: Endpoint) {
    && Direction(e.snd, p.rcv, p.snd) && Direction(p.snd, e.rcv, e.snd)
    && DirectionInStep(e.snd, p.rcv, p.snd) && DirectionInStep(p.snd, e.rcv, e.snd)
    && e.rcv.released && p.rcv.released
  }

  ghost predicate StaysInStep(e: Endpoint, p: Endpoint, s: Sender, r: Receiver) {
    && DirectionInStep(s, p.rcv, p.snd) && DirectionInStep(p.snd, r, s) && r.released
  }

  /** The application starts or answers a KeyUpdate only when none of its own is in flight. */
  predicate Guarded(e: Endpoint, a: Action) {
    a.RespondKeyUpdate? ==> !KeyUpdateInFlight(e.snd)
  }

  lemma DataStays(e: Endpoint, p: Endpoint, payload: Payload)
    requires PairInStep(e, p) && (payload.AppData? || payload.CloseNotify?)
    requires EmitCiphertext(e.snd, e.snd.appEpoch, false, payload).failure.None?
    ensures var t := EmitCiphertext(e.snd, e.snd.appEpoch, false, payload).sender;
            StaysInStep(e, p, t, e.rcv) && StaysInStep(e, p, t.(flight := []), e.rcv)
  {
    var t := EmitCiphertext(e.snd, e.snd.appEpoch, false, payload).sender;
    UnsavedInStep(e.snd, p.rcv, p.snd, payload);
    ClosedInStep(t, p.rcv, p.snd);
    EmitCiphertextExtends(e.snd, e.snd.appEpoch, false, payload);
    OtherRecordsBack(p.snd, e.rcv, e.snd, t);
    OtherRecordsBack(p.snd, e.rcv, e.snd, t.(flight := []));
  }

  lemma ResendStays(e: Endpoint, p: Endpoint)
    requires PairInStep(e, p) && FlightResend(e.snd).failure.None?
    ensures StaysInStep(e, p, FlightResend(e.snd).sender, e.rcv)
  {
    ResendInStep(e.snd, p.rcv, p.snd);
    ResendExtends(e.snd);
    OtherRecordsBack(p.snd, e.rcv, e.snd, FlightResend(e.snd).sender);
  }

  lemma KeyUpdateStays(e: Endpoint, p: Endpoint, request: nat)
    requires PairInStep(e, p) && !KeyUpdateInFlight(e.snd) && CreateKeyUpdate(e.snd, request).failure.None?
    ensures StaysInStep(e, p, CreateKeyUpdate(e.snd, request).sender, e.rcv)
  {
    KeyUpdateInStep(e.snd, p.rcv, p.snd, request);
    KeyUpdateExtends(e.snd, request);
    OtherRecordsBack(p.snd, e.rcv, e.snd, CreateKeyUpdate(e.snd, request).sender);
  }

  lemma ClosedProcessStays(e: Endpoint, p: Endpoint)
    requires PairInStep(e, p) && HasComplete(e.rcv.queue, KeyUpdate, e.rcv.peerMsgSeq)
    ensures StaysInStep(e, p, e.snd, Rotated(e.rcv))
  {
    ReadyUpdate(p.snd, e.rcv);
    RotatedNewest(e.rcv);
    RotateInStep(p.snd, e.rcv, e.snd, e.rcv.received);
    assert Rotated(e.rcv).(received := e.rcv.received) == Rotated(e.rcv);
  }

  lemma OpenProcessStays(e: Endpoint, p: Endpoint)
    requires PairInStep(e, p) && HasComplete(e.rcv.queue, KeyUpdate, e.rcv.peerMsgSeq)
    requires AckOutcome(e).failure.None?
    ensures StaysInStep(e, p, AckOutcome(e).sender, Rotated(e.rcv).(received := []))
  {
    var r := Rotated(e.rcv).(received := []);
    ReadyUpdate(p.snd, e.rcv);
    RotatedNewest(e.rcv);
    RotateInStep(p.snd, e.rcv, e.snd, []);
    assert Newest(r) == Newest(e.rcv) + 1;
    AckBackInStep(p.snd, e, r);
    AckForward(e, p);
  }

  lemma AckForward(e: Endpoint, p: Endpoint)
    requires PairInStep(e, p) && AckOutcome(e).failure.None?
    ensures DirectionInStep(AckOutcome(e).sender, p.rcv, p.snd)
  {
    if e.rcv.received != [] {
      UnsavedInStep(e.snd, p.rcv, p.snd, AckData(EncodeAck(e.rcv.received)));
    }
  }

  lemma ProcessHalves(e: Endpoint, requested: bool)
    ensures var a := ProcessKeyUpdate(requested);
            && SendOutcome(e, a) == (if e.closed then Outcome(e.snd, None) else AckOutcome(e))
            && SendAfter(e, a) == SendOutcome(e, a).sender
            && RecvAfter(e, a) == if e.closed then Rotated(e.rcv) else Rotated(e.rcv).(received := [])
  {
  }

  lemma ProcessStays(e: Endpoint, p: Endpoint, requested: bool)
    requires PairInStep(e, p) && HasComplete(e.rcv.queue, KeyUpdate, e.rcv.peerMsgSeq)
    requires SendOutcome(e, ProcessKeyUpdate(requested)).failure.None?
    ensures var a := ProcessKeyUpdate(requested); StaysInStep(e, p, SendAfter(e, a), RecvAfter(e, a))
  {
    ProcessHalves(e, requested);
    if e.closed {
      ClosedProcessStays(e, p);
    } else {
      OpenProcessStays(e, p);
    }
  }

  lemma DeliverStays(e: Endpoint, p: Endpoint, index: nat, garbage: nat)
    requires PairInStep(e, p) && index < |p.snd.sent|
    ensures var record := p.snd.sent[index];
            StaysInStep(e, p, Acknowledged(e.snd, e.rcv, record, garbage), Receive(e.rcv, record, garbage))
  {
    var record := p.snd.sent[index];
    var s, r := Acknowledged(e.snd, e.rcv, record, garbage), Receive(e.rcv, record, garbage);
    ReceiveInStep(p.snd, e.rcv, e.snd, record, garbage);
    ReceiveReleased(e.rcv, record, garbage);
    AcknowledgedInStep(e.snd, e.rcv, p.rcv, p.snd, record, garbage);
    OtherRecordsBack(p.snd, r, e.snd, s);
  }

  /** Acknowledging a record of the peer keeps the sender's direction, and sends nothing. */
  lemma AcknowledgedInStep(s: Sender, own: Receiver, r: Receiver, back: Sender, record: Record, garbage: nat)
    requires SenderValid(s) && DirectionInStep(s, r, back) && record in back.sent
    ensures var t := Acknowledged(s, own, record, garbage); DirectionInStep(t, r, back) && t.sent == s.sent
    ensures var t := Acknowledged(s, own, record, garbage);
            s.prevSecret.Some? && t.prevSecret.None? ==> Newest(r) == s.appEpoch
  {
    AcknowledgedIs(s, own, record, garbage);
    AckSendsNothing(s, record.payload);
    if record.payload.AckData? {
      var i :| 0 <= i < |back.sent| && back.sent[i] == record;
      assert AckLeftBehind(Newest(r), back.sent[i]);
      AckInStep(s, r, back, record.payload.bytes);
    }
  }

  lemma ReceiveReleased(r: Receiver, record: Record, garbage: nat)
    ensures Receive(r, record, garbage).released == r.released
  {
    match record
    case Plaintext(number, payload) => DispatchSlots(r, Opened(0, number, payload));
    case Ciphertext(_, _, _, _, _) =>
      if r.peerEncryption && Open(r, record, garbage).Some? {
        var o := Open(r, record, garbage).value;
        DispatchSlots(Commit(r, o), o);
      }
  }

  lemma PollStays(e: Endpoint, p: Endpoint)
    requires PairInStep(e, p)
    ensures StaysInStep(e, p, Perform(e.snd, PopPacket), e.rcv)
  {
    var t := Perform(e.snd, PopPacket);
    SameLogInStep(e.snd, t);
    OtherRecordsBack(p.snd, e.rcv, e.snd, t);
  }

  lemma OtherwiseStays(e: Endpoint, p: Endpoint, r: Receiver)
    requires PairInStep(e, p)
    requires r == e.rcv.(peerEncryption := true) || r == ReceiveSide.Release(e.rcv)
             || r == e.rcv.(queue := Purged(e.rcv.queue))
    ensures StaysInStep(e, p, e.snd, r)
  {
    assert Newest(r) == Newest(e.rcv);
    forall i | 0 <= i < |e.snd.sent|
      ensures AckLeftBehind(Newest(r), e.snd.sent[i])
    {
      assert AckLeftBehind(Newest(e.rcv), e.snd.sent[i]);
    }
  }

  /** The enabled actions that are left once both sides are connected. */
  lemma ConnectedActions(sys: System, step: Step)
    requires InLockstep(sys) && Enabled(sys, step)
    ensures var a := step.action;
            a.SendData? || a.Close? || a.Resend? || a.StartKeyUpdate? || a.RespondKeyUpdate? || a.ProcessKeyUpdate?
            || a.Deliver? || a.EnableEncryption? || a.Release? || a.PollPacket? || a.PurgeHandled?
  {
  }

  lemma SendingStays(e: Endpoint, p: Endpoint, a: Action)
    requires PairInStep(e, p) && SendOutcome(e, a).failure.None?
    requires a.SendData? || a.Close? || a.Resend?
             || ((a.StartKeyUpdate? || a.RespondKeyUpdate?) && !KeyUpdateInFlight(e.snd))
    ensures StaysInStep(e, p, SendAfter(e, a), RecvAfter(e, a))
  {
    match a
    case SendData(bytes) => DataStays(e, p, AppData(bytes));
    case Close => DataStays(e, p, CloseNotify);
    case Resend => ResendStays(e, p);
    case StartKeyUpdate => KeyUpdateStays(e, p, 1);
    case RespondKeyUpdate => KeyUpdateStays(e, p, 0);
  }

  lemma ActStays(sys: System, step: Step)
    requires InLockstep(sys) && Enabled(sys, step) && Guarded(sys.At(step.who), step.action)
    ensures var e, p := sys.At(step.who), sys.At(step.who.Peer());
            StaysInStep(e, p, Act(sys, step).snd, Act(sys, step).rcv)
  {
    var e, p := sys.At(step.who), sys.At(step.who.Peer());
    assert PairInStep(e, p);
    ActHalves(sys, step);
    ConnectedActions(sys, step);
    match step.action
    case ProcessKeyUpdate(requested) => ProcessStays(e, p, requested);
    case Deliver(index, garbage) => DeliverStays(e, p, index, garbage);
    case EnableEncryption => OtherwiseStays(e, p, e.rcv.(peerEncryption := true));
    case Release => OtherwiseStays(e, p, ReceiveSide.Release(e.rcv));
    case PurgeHandled => OtherwiseStays(e, p, e.rcv.(queue := Purged(e.rcv.queue)));
    case PollPacket => PollStays(e, p);
    case _ => SendingStays(e, p, step.action);
  }

  lemma NextInLockstep(sys: System, step: Step)
    requires InLockstep(sys) && Enabled(sys, step) && Guarded(sys.At(step.who), step.action)
    ensures InLockstep(Next(sys, step))
  {
    NextKeeps(sys, step);
    ActStays(sys, step);
  }

  predicate GuardedRun(sys: System, steps: seq<Step>)
    decreases |steps|
  {
    steps == []
    || (Enabled(sys, steps[0]) && Guarded(sys.At(steps[0].who), steps[0].action)
        && GuardedRun(Next(sys, steps[0]), steps[1..]))
  }

  lemma {:induction false} GuardedIsEnabled(sys: System, steps: seq<Step>)
    requires GuardedRun(sys, steps)
    ensures EnabledRun(sys, steps)
    decreases |steps|
  {
    if steps != [] {
      GuardedIsEnabled(Next(sys, steps[0]), steps[1..]);
    }
  }

  lemma {:induction false} RunInLockstep(sys: System, steps: seq<Step>)
    requires InLockstep(sys) && GuardedRun(sys, steps)
    ensures EnabledRun(sys, steps) && InLockstep(Link.Run(sys, steps))
    decreases |steps|
  {
    GuardedIsEnabled(sys, steps);
    if steps != [] {
      NextInLockstep(sys, steps[0]);
      RunInLockstep(Next(sys, steps[0]), steps[1..]);
    }
  }

  /** From two connected peers, in every guarded run over the network: the sender's epoch is
      the receiver's newest or one past it, equal when no KeyUpdate is in flight, and the
      receiver holds the very secret the sender sends under or is about to derive it. */
  lemma EpochsInLockstep(sys: System, steps: seq<Step>, who: Side)
    requires LinkValid(sys) && Connected(sys) && GuardedRun(sys, steps)
    ensures EnabledRun(sys, steps)
    ensures var end := Link.Run(sys, steps);
            var s, r := end.At(who).snd, end.At(who.Peer()).rcv;
            && Newest(r) >= FIRST_APP_EPOCH
            && (s.appEpoch == Newest(r) || s.appEpoch == Newest(r) + 1)
            && (!KeyUpdateInFlight(s) ==> s.appEpoch == Newest(r))
            && s.appSecret == Some(SecretOf(who, s.appEpoch))
            && r.slots != [] && r.slots[|r.slots| - 1].secret == SecretOf(who, Newest(r))
  {
    ConnectedInLockstep(sys);
    RunInLockstep(sys, steps);
    var end := Link.Run(sys, steps);
    var s, r := end.At(who).snd, end.At(who.Peer()).rcv;
    assert DirectionInStep(s, r, end.At(who.Peer()).snd);
    assert Direction(s, r, end.At(who.Peer()).snd);
    assert SlotValid(r.peer, r.slots[|r.slots| - 1]);
  }

  /** The previous keys are dropped only after the receiver has rotated past their epoch. */
  lemma PreviousKeysKept(sys: System, step: Step)
    requires InLockstep(sys) && Enabled(sys, step) && step.action.Deliver?
    requires sys.At(step.who).snd.prevSecret.Some? && Next(sys, step).At(step.who).snd.prevSecret.None?
    ensures sys.At(step.who).snd.prevEpoch < Newest(sys.At(step.who.Peer()).rcv)
  {
    var e, p := sys.At(step.who), sys.At(step.who.Peer());
    assert PairInStep(e, p);
    ActHalves(sys, step);
    AcknowledgedInStep(e.snd, e.rcv, p.rcv, p.snd, p.snd.sent[step.action.index], step.action.garbage);
    PreviousIsOlder(e.snd);
  }

  lemma PreviousIsOlder(s: Sender)
    requires SenderValid(s) && s.prevSecret.Some?
    ensures s.prevEpoch < s.appEpoch
  {
  }

  /** Resending a flight of one previous-epoch entry puts one record in the log. */
  lemma ResendOne(s: Sender, e: Entry)
    requires KeysValid(s) && s.flight == [e] && !e.acked && s.prevSecret.Some? && e.epoch == s.prevEpoch
    requires FlightResend(s).failure.None?
    ensures s.prevEpoch >= FIRST_APP_EPOCH
    ensures FlightResend(s).sender.sent == s.sent + [RecordOf(s.side, s.prevEpoch, s.prevSeq, e.payload)]
  {
    var s0 := s.(flight := [], datagramSealed := true);
    assert s.flight[0] == e && s.flight[1..] == [];
    var o := EmitAgain(s0, e);
    assert ResendEntries(o.sender, s.flight[1..]).0 == Outcome(o.sender, None);
    EmittedSender(s0, e.epoch, false, e.payload);
  }

  lemma ResendInFlight(s: Sender)
    requires SenderValid(s) && FlightInStep(s) && KeyUpdateInFlight(s) && s.flight != []
    requires FlightResend(s).failure.None?
    ensures OldKeysResent(s, FlightResend(s).sender)
  {
    assert s.flight == [s.flight[0]];
    ResendOne(s, s.flight[0]);
    PreviousUnused(s, s.flight[0].payload);
  }

  /** One more record: the KeyUpdate, under the keys of the epoch it ends, with a number
      never used under them before. */
  ghost predicate OldKeysResent(s: Sender, t: Sender) {
    && s.prevEpoch + 1 == s.appEpoch && s.prevEpoch >= FIRST_APP_EPOCH
    && s.prevSecret == Some(SecretOf(s.side, s.prevEpoch))
    && s.flight != [] && s.flight[0].payload.HandshakePart? && s.flight[0].payload.part.msgType == KeyUpdate
    && var record := RecordOf(s.side, s.prevEpoch, s.prevSeq, s.flight[0].payload);
       && t.sent == s.sent + [record]
       && forall i :: 0 <= i < |s.sent| ==> !SameSlot(s.sent[i], record)
  }

  /** A resent KeyUpdate goes out under the keys of the epoch it ends, with a fresh number. */
  lemma ResendUsesOldKeys(sys: System, who: Side)
    requires InLockstep(sys) && KeyUpdateInFlight(sys.At(who).snd) && sys.At(who).snd.flight != []
    requires FlightResend(sys.At(who).snd).failure.None?
    ensures OldKeysResent(sys.At(who).snd, FlightResend(sys.At(who).snd).sender)
  {
    SideInStep(sys, who);
    ResendInFlight(sys.At(who).snd);
  }

  lemma SideInStep(sys: System, who: Side)
    requires InLockstep(sys)
    ensures SenderValid(sys.At(who).snd) && FlightInStep(sys.At(who).snd) && sys.At(who).snd.side == who
  {
  }

  lemma PreviousUnused(s: Sender, payload: Payload)
    requires SenderValid(s) && s.prevSecret.Some?
    ensures s.prevEpoch >= HANDSHAKE_EPOCH
    ensures forall i :: 0 <= i < |s.sent| ==> !SameSlot(s.sent[i], RecordOf(s.side, s.prevEpoch, s.prevSeq, payload))
  {
    EpochOfSecret(s.side, s.prevEpoch);
    forall i | 0 <= i < |s.sent|
      ensures !SameSlot(s.sent[i], RecordOf(s.side, s.prevEpoch, s.prevSeq, payload))
    {
      assert Behind(s, s.sent[i]);
    }
  }

  // ----- Without the guard -----

  /** A KeyUpdate sent while one is already in flight keeps the direction in step exactly
      when the receiver has read the first; otherwise the receiver is two epochs behind a
      sender that no longer repeats what it is missing. */
  lemma UnguardedExact(s: Sender, r: Receiver, back: Sender, request: nat)
    requires Direction(s, r, back) && DirectionInStep(s, r, back) && KeyUpdateInFlight(s)
    requires CreateKeyUpdate(s, request).failure.None?
    ensures var t := CreateKeyUpdate(s, request).sender;
            && (DirectionInStep(t, r, back) <==> Newest(r) == s.appEpoch)
            && (Newest(r) != s.appEpoch ==>
                  t.appEpoch == Newest(r) + 2
                  && forall e :: e in t.flight ==> e.epoch == Newest(r) + 1)
  {
    KeyUpdateResult(s, request);
    if Newest(r) == s.appEpoch {
      KeyUpdateInStep(s, r, back, request);
    }
  }

  /** What a connected sender that has not closed can tell of itself. */
  ghost predicate SenderInStep(s: Sender) {
    && SenderValid(s) && FlightSent(s) && UpdatesNumbered(s) && FlightInStep(s)
    && s.hsSecret.Some? && s.appSecret.Some? && (KeyUpdateInFlight(s) ==> s.flight != [])
  }

  /** A receiver, and ACKs on their way, that the sender may be facing for all it knows. */
  ghost predicate Possible(s: Sender, r: Receiver, back: Sender) {
    Direction(s, r, back) && DirectionInStep(s, r, back)
  }

  /** A receiver that has nothing of the update in flight yet. */
  function Uninformed(s: Sender): Receiver
    requires SenderInStep(s) && KeyUpdateInFlight(s)
  {
    NewReceiver(s.side, 0).(
      slots := [FreshSlot(s.prevEpoch, SecretOf(s.side, s.prevEpoch))], released := true, peerEncryption := true,
      peerMsgSeq := s.flight[0].payload.part.seqNo)
  }

  lemma UninformedIsPossible(s: Sender)
    requires SenderInStep(s) && KeyUpdateInFlight(s)
    ensures Possible(s, Uninformed(s), NewSender(s.config, s.side.Peer()))
  {
    var r := Uninformed(s);
    assert SlotValid(r.peer, r.slots[0]);
    assert s.flight[0].payload.part.seqNo + 1 == s.nextMsgSeq;
  }

  /** What the sender can check: creating a KeyUpdate keeps step with every receiver it may
      be facing exactly when it has none of its own in flight. */
  lemma GuardExact(s: Sender, request: nat)
    requires SenderInStep(s) && CreateKeyUpdate(s, request).failure.None?
    ensures (forall r, back :: Possible(s, r, back) ==> DirectionInStep(CreateKeyUpdate(s, request).sender, r, back))
            <==> !KeyUpdateInFlight(s)
  {
    if KeyUpdateInFlight(s) {
      var r, back := Uninformed(s), NewSender(s.config, s.side.Peer());
      UninformedIsPossible(s);
      UnguardedExact(s, r, back, request);
      assert Possible(s, r, back) && !DirectionInStep(CreateKeyUpdate(s, request).sender, r, back);
    } else {
      forall r, back | Possible(s, r, back)
        ensures DirectionInStep(CreateKeyUpdate(s, request).sender, r, back)
      {
        KeyUpdateInStep(s, r, back, request);
      }
    }
  }

  /** The state machine answers a peer's request without looking at its own update: starting
      one and then answering, with nothing delivered between, always loses step. */
  lemma UnguardedResponseLosesStep(sys: System, who: Side)
    requires InLockstep(sys)
    requires EnabledRun(sys, [Step(who, StartKeyUpdate), Step(who, RespondKeyUpdate)])
    ensures !InLockstep(Link.Run(sys, [Step(who, StartKeyUpdate), Step(who, RespondKeyUpdate)]))
  {
    var first, second := Step(who, StartKeyUpdate), Step(who, RespondKeyUpdate);
    assert [first, second][1..] == [second] && [second][1..] == [];
    var mid := Next(sys, first);
    assert Link.Run(mid, [second]) == Next(mid, second);
    NextInLockstep(sys, first);
    AnswerLosesStep(sys, who);
  }

  lemma AnswerLosesStep(sys: System, who: Side)
    requires InLockstep(sys) && Enabled(sys, Step(who, StartKeyUpdate))
    requires var mid := Next(sys, Step(who, StartKeyUpdate));
             InLockstep(mid) && Enabled(mid, Step(who, RespondKeyUpdate))
    ensures !InLockstep(Next(Next(sys, Step(who, StartKeyUpdate)), Step(who, RespondKeyUpdate)))
  {
    var mid := Next(sys, Step(who, StartKeyUpdate));
    var s, p := mid.At(who).snd, mid.At(who.Peer());
    assert PairInStep(sys.At(who), p);
    KeyUpdateResult(sys.At(who).snd, 1);
    assert PairInStep(mid.At(who), p);
    UnguardedExact(s, p.rcv, p.snd, 0);
    assert Next(mid, Step(who, RespondKeyUpdate)).At(who).snd == CreateKeyUpdate(s, 0).sender;
  }
}
