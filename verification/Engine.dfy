/** The DTLS 1.3 engine as the mutable object it is: every method is tied to the step of
    `SendSide` or `ReceiveSide` it performs, so what holds of all runs of those steps holds
    of all call sequences on an engine. */
module Engines {
  import opened Handshakes
  import opened RecordNumbers
  import opened Records
  import opened Reassembly
  import opened ReplayWindows
  import opened SendSide
  import opened ReceiveSide
  import F = Fragmentation
  import Link

  /** The fields of the engine that sending changes. */
  class SendingHalf {
    const config: Config
    const side: Side
    var sequenceEpoch0: nat
    var hsSendKeys: Option<Secret>
    var hsSendSeq: nat
    var appSendKeys: Option<Secret>
    var appSendEpoch: nat
    var appSendSeq: nat
    var prevAppSendKeys: Option<Secret>
    var prevAppSendEpoch: nat
    var prevAppSendSeq: nat
    var flightSavedRecords: seq<Entry>
    var nextHandshakeSeqNo: nat
    var datagramSealed: bool
    var queueTx: seq<seq<Record>>

    /** Everything ever put on the transmit queue. */
    ghost var sent: seq<Record>

    ghost function State(): Sender
      reads this
    {
      Sender(config, side, sequenceEpoch0, hsSendKeys, hsSendSeq, appSendKeys, appSendEpoch, appSendSeq,
             prevAppSendKeys, prevAppSendEpoch, prevAppSendSeq, flightSavedRecords, nextHandshakeSeqNo,
             datagramSealed, queueTx, sent)
    }

    constructor (config: Config, side: Side)
      ensures State() == NewSender(config, side)
    {
      this.config := config;
      this.side := side;
      sequenceEpoch0 := 0;
      hsSendKeys, hsSendSeq := None, 0;
      appSendKeys, appSendEpoch, appSendSeq := None, FIRST_APP_EPOCH, 0;
      prevAppSendKeys, prevAppSendEpoch, prevAppSendSeq := None, 0, 0;
      flightSavedRecords := [];
      nextHandshakeSeqNo := 0;
      datagramSealed := false;
      queueTx := [];
      sent := [];
    }

    method CreatePlaintextRecord(saveFragment: bool, payload: Payload) returns (failure: Option<Failure>)
      modifies this
      ensures State() == EmitPlaintext(old(State()), saveFragment, payload).sender
      ensures failure == EmitPlaintext(old(State()), saveFragment, payload).failure
    {
      var currentSeq := sequenceEpoch0;
      if saveFragment {
        if |flightSavedRecords| >= MAX_FLIGHT {
          return Some(FlightFull);
        }
        flightSavedRecords := flightSavedRecords + [Entry(0, currentSeq, payload, false)];
      }
      var record := Plaintext(currentSeq, payload);
      var canAppend := HasRoom(record);
      if !canAppend && |queueTx| >= config.maxQueueTx {
        return Some(TransmitQueueFull);
      }
      if sequenceEpoch0 >= MAX_SEQUENCE_NUMBER {
        return Some(SequenceExhausted);
      }
      sequenceEpoch0 := sequenceEpoch0 + 1;
      Append(record, canAppend);
      return None;
    }

    method CreateCiphertextRecord(epoch: nat, saveFragment: bool, payload: Payload)
      returns (failure: Option<Failure>)
      modifies this
      ensures State() == EmitCiphertext(old(State()), epoch, saveFragment, payload).sender
      ensures failure == EmitCiphertext(old(State()), epoch, saveFragment, payload).failure
    {
      var seqNo, keys := SendNumberAndKeys(epoch);
      if saveFragment {
        if |flightSavedRecords| >= MAX_FLIGHT {
          return Some(FlightFull);
        }
        flightSavedRecords := flightSavedRecords + [Entry(epoch, seqNo, payload, false)];
      }
      ghost var saved := Saved(old(State()), saveFragment, epoch, seqNo, payload);
      assert State() == saved;
      if keys.None? {
        return Some(NoKeys);
      }
      var record := Sealed(keys.value, epoch, seqNo, payload);
      var canAppend := HasRoom(record);
      if !canAppend && |queueTx| >= config.maxQueueTx {
        return Some(TransmitQueueFull);
      }
      var exhausted := CountRecord(epoch);
      if exhausted {
        return Some(SequenceExhausted);
      }
      assert State() == Counted(saved, epoch);
      Append(record, canAppend);
      return None;
    }

    method SendNumberAndKeys(epoch: nat) returns (seqNo: nat, keys: Option<Secret>)
      ensures seqNo == NumberFor(State(), epoch) && keys == SecretFor(State(), epoch)
    {
      if epoch == HANDSHAKE_EPOCH {
        return hsSendSeq, hsSendKeys;
      } else if prevAppSendKeys.Some? && epoch == prevAppSendEpoch {
        return prevAppSendSeq, prevAppSendKeys;
      } else {
        return appSendSeq, appSendKeys;
      }
    }

    /** Move the counter of the epoch on, unless it has reached 48 bits. */
    method CountRecord(epoch: nat) returns (exhausted: bool)
      modifies this`hsSendSeq, this`prevAppSendSeq, this`appSendSeq
      ensures exhausted == (NumberFor(old(State()), epoch) >= MAX_SEQUENCE_NUMBER)
      ensures State() == if exhausted then old(State()) else Counted(old(State()), epoch)
    {
      if epoch == HANDSHAKE_EPOCH {
        if hsSendSeq >= MAX_SEQUENCE_NUMBER {
          return true;
        }
        hsSendSeq := hsSendSeq + 1;
      } else if prevAppSendKeys.Some? && epoch == prevAppSendEpoch {
        if prevAppSendSeq >= MAX_SEQUENCE_NUMBER {
          return true;
        }
        prevAppSendSeq := prevAppSendSeq + 1;
      } else {
        if appSendSeq >= MAX_SEQUENCE_NUMBER {
          return true;
        }
        appSendSeq := appSendSeq + 1;
      }
      return false;
    }

    /** Whether the last queued datagram takes the record. */
    method HasRoom(record: Record) returns (room: bool)
      ensures room == CanAppend(State(), record)
    {
      room := !datagramSealed && queueTx != []
              && DatagramLen(queueTx[|queueTx| - 1], config.tagLen) + WireLen(record, config.tagLen) <= config.mtu;
    }

    method Append(record: Record, canAppend: bool)
      requires canAppend == CanAppend(State(), record)
      modifies this`queueTx, this`datagramSealed, this`sent
      ensures State() == Enqueue(old(State()), record)
    {
      if canAppend {
        var last := |queueTx| - 1;
        queueTx := queueTx[last := queueTx[last] + [record]];
      } else {
        datagramSealed := false;
        queueTx := queueTx + [[record]];
      }
      sent := sent + [record];
    }

    /** Send a handshake message, cut to fill the datagram being built and then new ones. */
    method CreateHandshake(msgType: MessageType, body: seq<nat>) returns (failure: Option<Failure>)
      requires F.Progresses(config)
      modifies this
      ensures State() == F.CreateHandshake(old(State()), msgType, body).sender
      ensures failure == F.CreateHandshake(old(State()), msgType, body).failure
    {
      var messageSeq := nextHandshakeSeqNo;
      if messageSeq >= MAX_EPOCH {
        return Some(CounterOverflow);
      }
      nextHandshakeSeqNo := nextHandshakeSeqNo + 1;
      ghost var goal := F.EmitParts(State(), msgType, messageSeq, body, 0);
      assert goal == F.CreateHandshake(old(State()), msgType, body);
      var totalLen := |body|;
      var offset := 0;
      while offset < totalLen || (totalLen == 0 && offset == 0)
        invariant offset <= totalLen
        invariant offset < totalLen || totalLen == 0 ==>
                    goal == F.EmitParts(State(), msgType, messageSeq, body, offset)
        invariant offset == totalLen > 0 ==> goal == Outcome(State(), None)
        decreases totalLen - offset
      {
        var fragment := NextFragment(msgType, messageSeq, body, offset);
        ghost var before := State();
        failure := CreateHandshakeRecord(fragment);
        F.EmitPartsStep(before, msgType, messageSeq, body, offset, fragment, Outcome(State(), failure));
        if failure.Some? || totalLen == 0 {
          assert goal == Outcome(State(), failure);
          return;
        }
        offset := fragment.End();
      }
      assert goal == Outcome(State(), None);
      return None;
    }

    /** As much of the body as fits. */
    method NextFragment(msgType: MessageType, messageSeq: nat, body: seq<nat>, offset: nat) returns (fragment: Part)
      requires offset <= |body|
      ensures fragment == F.NextPart(State(), msgType, messageSeq, body, offset)
    {
      var fixedOverhead := F.FixedOverhead(msgType, config.tagLen);
      var alreadyUsedInCurrent := if queueTx == [] then 0 else DatagramLen(queueTx[|queueTx| - 1], config.tagLen);
      var availableInCurrent := if config.mtu > alreadyUsedInCurrent then config.mtu - alreadyUsedInCurrent else 0;
      var availableForBody :=
        if availableInCurrent > fixedOverhead then availableInCurrent - fixedOverhead
        else if config.mtu > fixedOverhead then config.mtu - fixedOverhead
        else 0;
      var remainingBodyBytes := |body| - offset;
      var chunkLen := if remainingBodyBytes < availableForBody then remainingBodyBytes else availableForBody;
      fragment := Part(msgType, messageSeq, |body|, offset, body[offset..offset + chunkLen]);
    }

    method CreateHandshakeRecord(part: Part) returns (failure: Option<Failure>)
      modifies this
      ensures State() == F.EmitPart(old(State()), part).sender
      ensures failure == F.EmitPart(old(State()), part).failure
    {
      F.EmitPartFrame(State(), part);
      if F.EpochFor(part.msgType) == 0 {
        failure := CreatePlaintextRecord(true, HandshakePart(part));
      } else {
        failure := CreateCiphertextRecord(HANDSHAKE_EPOCH, true, HandshakePart(part));
      }
    }

    method PollPacketTx() returns (packet: Option<seq<Record>>)
      modifies this
      ensures State() == Perform(old(State()), PopPacket)
      ensures packet == if old(queueTx) == [] then None else Some(old(queueTx)[0])
    {
      if queueTx == [] {
        return None;
      }
      packet := Some(queueTx[0]);
      queueTx := queueTx[1..];
    }

    method FlightBegin()
      modifies this
      ensures State() == SendSide.FlightBegin(old(State()))
    {
      flightSavedRecords := [];
    }

    method FlightResend() returns (failure: Option<Failure>)
      modifies this
      ensures State() == SendSide.FlightResend(old(State())).sender
      ensures failure == SendSide.FlightResend(old(State())).failure
    {
      var records := flightSavedRecords;
      flightSavedRecords := [];
      datagramSealed := true;
      ghost var start, all := State(), records;
      ResendStarts(start, all);
      var i := 0;
      while i < |records|
        invariant i <= |records| == |all| && records[i..] == all[i..]
        invariant Resent(start, all, records[..i], State())
        invariant flightSavedRecords == []
      {
        var entry := records[i];
        assert entry == records[i..][0] && records[i + 1..] == records[i..][1..];
        if entry.acked {
          SkipContinues(start, all, records[..i], State());
        } else {
          ghost var now := State();
          var newSeq: nat;
          newSeq, failure := ResendEntry(entry);
          ResendContinues(start, all, records[..i], now, Outcome(State(), failure));
          if failure.Some? {
            return;
          }
          records := records[i := entry.(sendSeq := newSeq)];
        }
        assert records[..i + 1] == records[..i] + [records[i]];
        i := i + 1;
      }
      assert records[..i] == records && all[i..] == [];
      flightSavedRecords := records;
      return None;
    }

    /** Send one entry again, under its own epoch and that epoch's next number. */
    method ResendEntry(entry: Entry) returns (newSeq: nat, failure: Option<Failure>)
      modifies this
      ensures State() == EmitAgain(old(State()), entry).sender
      ensures failure == EmitAgain(old(State()), entry).failure
      ensures newSeq == ResendNumber(old(State()), entry) && flightSavedRecords == old(flightSavedRecords)
    {
      EmitFrame(State(), entry.epoch, false, entry.payload);
      if entry.epoch == 0 {
        newSeq := sequenceEpoch0;
        failure := CreatePlaintextRecord(false, entry.payload);
      } else {
        newSeq :=
          if entry.epoch == HANDSHAKE_EPOCH then hsSendSeq
          else if prevAppSendKeys.Some? && entry.epoch == prevAppSendEpoch then prevAppSendSeq
          else appSendSeq;
        failure := CreateCiphertextRecord(entry.epoch, false, entry.payload);
      }
    }

    method CancelFlights()
      modifies this
      ensures State() == Perform(old(State()), Op.CancelFlights)
    {
      flightSavedRecords := [];
    }

    method Abort()
      modifies this
      ensures State() == Perform(old(State()), Op.Abort)
    {
      queueTx := [];
      flightSavedRecords := [];
    }

    method ProcessAck(ackData: seq<nat>)
      modifies this
      ensures State() == SendSide.ProcessAck(old(State()), ackData)
    {
      if |ackData| < 2 {
        return;
      }
      var recordNumbersLen := FromBytes(ackData[..2]);
      var entriesData := ackData[2..];
      if |entriesData| < recordNumbersLen {
        return;
      }
      var listed := entriesData[..recordNumbersLen];
      assert listed == ackData[2..2 + recordNumbersLen];
      MarkAllListed(listed);

      var hasEpoch2, allEpoch2Acked, allAcked := Tally();
      if hasEpoch2 && allEpoch2Acked {
        flightSavedRecords := [];
      }
      if prevAppSendKeys.Some? && flightSavedRecords != [] && allAcked {
        prevAppSendKeys := None;
        flightSavedRecords := [];
      }
    }

    /** Go through the numbers of an ACK, sixteen bytes each. */
    method MarkAllListed(listed: seq<nat>)
      modifies this`flightSavedRecords
      ensures flightSavedRecords == MarkAcked(old(flightSavedRecords), DecodeNumbers(listed))
    {
      var numEntries := |listed| / 16;
      ghost var numbers := DecodeNumbers(listed);
      ghost var flight := flightSavedRecords;
      NumbersCount(listed);
      var i := 0;
      while i < numEntries
        invariant i <= numEntries == |numbers|
        invariant flightSavedRecords == MarkAcked(flight, numbers[..i])
      {
        var offset := 16 * i;
        NumberAt(listed, i);
        assert numbers[..i + 1] == numbers[..i] + [numbers[i]];
        MarkListed(FromBytes(listed[offset..offset + 8]), FromBytes(listed[offset + 8..offset + 16]),
                   flight, numbers[..i]);
        i := i + 1;
      }
      assert numbers[..i] == numbers;
    }

    /** Mark the entries an acknowledged number stands for. */
    method MarkListed(ackEpoch: nat, ackSeq: nat, ghost flight: seq<Entry>, ghost before: seq<Number>)
      requires flightSavedRecords == MarkAcked(flight, before)
      modifies this`flightSavedRecords
      ensures flightSavedRecords == MarkAcked(flight, before + [(ackEpoch, ackSeq)])
    {
      var k := 0;
      while k < |flightSavedRecords|
        invariant k <= |flightSavedRecords| == |flight|
        invariant flightSavedRecords[..k] == MarkAcked(flight, before + [(ackEpoch, ackSeq)])[..k]
        invariant flightSavedRecords[k..] == MarkAcked(flight, before)[k..]
      {
        var entry := flightSavedRecords[k];
        assert entry == MarkAcked(flight, before)[k..][0];
        if entry.epoch == ackEpoch && entry.sendSeq == ackSeq {
          flightSavedRecords := flightSavedRecords[k := entry.(acked := true)];
        }
        k := k + 1;
      }
    }

    method Tally() returns (hasEpoch2: bool, allEpoch2Acked: bool, allAcked: bool)
      ensures hasEpoch2 && allEpoch2Acked <==> HandshakeAcked(flightSavedRecords)
      ensures allAcked <==> AllAcked(flightSavedRecords)
    {
      hasEpoch2, allEpoch2Acked, allAcked := false, true, true;
      for k := 0 to |flightSavedRecords|
        invariant hasEpoch2 <==> exists i :: 0 <= i < k && flightSavedRecords[i].epoch == HANDSHAKE_EPOCH
        invariant allEpoch2Acked <==>
                  forall i :: 0 <= i < k && flightSavedRecords[i].epoch == HANDSHAKE_EPOCH ==>
                    flightSavedRecords[i].acked
        invariant allAcked <==> forall i :: 0 <= i < k ==> flightSavedRecords[i].acked
      {
        var entry := flightSavedRecords[k];
        hasEpoch2 := hasEpoch2 || entry.epoch == HANDSHAKE_EPOCH;
        allEpoch2Acked := allEpoch2Acked && (entry.epoch == HANDSHAKE_EPOCH ==> entry.acked);
        allAcked := allAcked && entry.acked;
      }
    }

    method UpdateSendKeys() returns (failure: Option<Failure>)
      modifies this
      ensures State() == SendSide.UpdateSendKeys(old(State())).sender
      ensures failure == SendSide.UpdateSendKeys(old(State())).failure
    {
      ghost var s := State();
      if appSendKeys.None? {
        return Some(NoKeys);
      }
      if appSendEpoch >= MAX_EPOCH {
        return Some(CounterOverflow);
      }
      var currentKeys := appSendKeys.value;
      prevAppSendKeys := Some(currentKeys);
      prevAppSendEpoch := appSendEpoch;
      prevAppSendSeq := appSendSeq;
      appSendKeys := Some(NextTraffic(currentKeys));
      appSendEpoch := appSendEpoch + 1;
      appSendSeq := 0;
      assert State() == s.(prevSecret := Some(currentKeys), prevEpoch := s.appEpoch, prevSeq := s.appSeq,
                             appSecret := Some(NextTraffic(currentKeys)), appEpoch := s.appEpoch + 1, appSeq := 0);
      return None;
    }

    method InstallHandshakeSendKeys()
      modifies this
      ensures State() == SendSide.InstallHandshakeKeys(old(State()))
    {
      hsSendKeys := Some(HandshakeTraffic(side));
      hsSendSeq := 0;
    }

    method InstallApplicationSendKeys()
      modifies this
      ensures State() == SendSide.InstallApplicationKeys(old(State()))
    {
      appSendKeys := Some(ApplicationTraffic(side));
      appSendEpoch := FIRST_APP_EPOCH;
      appSendSeq := 0;
    }

    method ResetHandshakeSequence()
      modifies this
      ensures State() == SendSide.ResetForHelloRetry(old(State()))
    {
      hsSendSeq := 0;
    }

    method CreateKeyUpdate(request: nat) returns (failure: Option<Failure>)
      modifies this
      ensures State() == SendSide.CreateKeyUpdate(old(State()), request).sender
      ensures failure == SendSide.CreateKeyUpdate(old(State()), request).failure
    {
      flightSavedRecords := [];
      var msgSeq := nextHandshakeSeqNo;
      if msgSeq >= MAX_EPOCH {
        return Some(CounterOverflow);
      }
      nextHandshakeSeqNo := nextHandshakeSeqNo + 1;
      var epoch := appSendEpoch;
      failure := CreateCiphertextRecord(epoch, true, HandshakePart(KeyUpdatePart(msgSeq, request)));
      if failure.Some? {
        return;
      }
      failure := UpdateSendKeys();
    }
  }

  /** The fields of the engine that receiving changes. */
  class ReceivingHalf {
    const peer: Side
    const queue: HandshakeQueue
    var hsRecvKeys: Option<Secret>
    var hsExpectedRecvSeq: nat
    var hsReplay: History
    var appRecvKeys: seq<Slot>
    var peerEncryptionEnabled: bool
    var receivedRecordNumbers: seq<Number>
    var closeNotifySequence: Option<Number>

    /** Everything ever decrypted. */
    ghost var accepted: set<Opened>

    ghost function State(): Receiver
      reads this, queue
    {
      Receiver(peer, hsRecvKeys, hsExpectedRecvSeq, hsReplay, appRecvKeys, peerEncryptionEnabled,
               queue.released, queue.peerSeq, receivedRecordNumbers, queue.queueRx, queue.maxQueue,
               closeNotifySequence, accepted)
    }

    constructor (peer: Side, maxQueueRx: nat)
      ensures State() == NewReceiver(peer, maxQueueRx)
      ensures fresh(queue)
    {
      this.peer := peer;
      queue := new HandshakeQueue(maxQueueRx);
      hsRecvKeys, hsExpectedRecvSeq, hsReplay := None, 0, NOTHING_SEEN;
      appRecvKeys := [];
      peerEncryptionEnabled := false;
      receivedRecordNumbers := [];
      closeNotifySequence := None;
      accepted := {};
    }

    method UpdateRecvKeys()
      modifies this
      ensures State() == ReceiveSide.UpdateRecvKeys(old(State()))
    {
      if appRecvKeys == [] || appRecvKeys[|appRecvKeys| - 1].epoch >= MAX_EPOCH {
        return;
      }
      var latest := appRecvKeys[|appRecvKeys| - 1];
      if |appRecvKeys| == MAX_RECV_EPOCHS {
        appRecvKeys := appRecvKeys[1..];
      }
      appRecvKeys := appRecvKeys + [Slot(latest.epoch + 1, NextTraffic(latest.secret), 0, NOTHING_SEEN)];
    }

    method ResolveEpochBits(epochBits: nat) returns (epoch: nat)
      ensures epoch == ResolveEpoch(State(), epochBits)
    {
      if hsRecvKeys.Some? && HANDSHAKE_EPOCH % 4 == epochBits {
        return HANDSHAKE_EPOCH;
      }
      var best: Option<nat> := None;
      for i := 0 to |appRecvKeys|
        invariant best == NewestMatch(appRecvKeys[..i], epochBits)
      {
        assert appRecvKeys[..i + 1][..i] == appRecvKeys[..i];
        if appRecvKeys[i].epoch % 4 == epochBits {
          best := Some(appRecvKeys[i].epoch);
        }
      }
      assert appRecvKeys[..|appRecvKeys|] == appRecvKeys;
      epoch := if best.Some? then best.value else epochBits;
    }

    /** Index of the receive keys of an epoch, or their number. */
    method FindSlot(epoch: nat) returns (i: nat)
      ensures i == Find(appRecvKeys, epoch)
    {
      i := 0;
      while i < |appRecvKeys| && appRecvKeys[i].epoch != epoch
        invariant i <= |appRecvKeys|
        invariant i + Find(appRecvKeys[i..], epoch) == Find(appRecvKeys, epoch)
      {
        assert appRecvKeys[i..][1..] == appRecvKeys[i + 1..];
        i := i + 1;
      }
    }

    method ResolveSequence(epoch: nat, seqBits: nat) returns (number: nat)
      ensures number == ReconstructSequence(seqBits, ExpectedAt(State(), epoch), FIELD_BITS)
    {
      var i := FindSlot(epoch);
      var expected :=
        if epoch == HANDSHAKE_EPOCH then hsExpectedRecvSeq
        else if i < |appRecvKeys| then appRecvKeys[i].expected
        else 0;
      number := ReconstructSequence(seqBits, expected, FIELD_BITS);
    }

    method ReplayPermits(epoch: nat, number: nat) returns (unseen: bool)
      ensures unseen == ReplayCheck(State(), epoch, number)
    {
      if epoch == HANDSHAKE_EPOCH {
        return hsReplay.Accepts(number);
      }
      var i := FindSlot(epoch);
      unseen := i < |appRecvKeys| && appRecvKeys[i].replay.Accepts(number);
    }

    method ReplayUpdate(epoch: nat, number: nat)
      modifies this
      ensures State() == ReceiveSide.ReplayUpdate(old(State()), epoch, number)
    {
      var next := number + 1;
      if epoch == HANDSHAKE_EPOCH {
        hsReplay := hsReplay.Record(number);
        if next > hsExpectedRecvSeq {
          hsExpectedRecvSeq := next;
        }
      } else {
        var i := FindSlot(epoch);
        if i < |appRecvKeys| {
          var slot := appRecvKeys[i].(replay := appRecvKeys[i].replay.Record(number));
          if next > slot.expected {
            slot := slot.(expected := next);
          }
          appRecvKeys := appRecvKeys[i := slot];
        }
      }
    }

    /** A sealed record off the wire: resolve, check, decrypt, and only then update. */
    method ParseRecord(record: Record, garbage: nat) returns (result: Option<Opened>)
      requires record.Ciphertext?
      modifies this
      ensures result == Open(old(State()), record, garbage)
      ensures State() == if result.None? then old(State()) else Commit(old(State()), result.value)
    {
      var epoch := ResolveEpochBits(record.epochBits);
      var i := FindSlot(epoch);
      var keys :=
        if epoch == HANDSHAKE_EPOCH then hsRecvKeys
        else if i < |appRecvKeys| then Some(appRecvKeys[i].secret)
        else None;
      var right := keys == Some(record.secret);
      var seqBits := if right then record.field else garbage % 0x1_0000;
      var number := ResolveSequence(epoch, seqBits);
      var unseen := ReplayPermits(epoch, number);
      if !unseen || !right || number != record.number {
        return None;
      }
      ReplayUpdate(epoch, number);
      accepted := accepted + {Opened(epoch, number, record.payload)};
      return Some(Opened(epoch, number, record.payload));
    }

    method InsertIncomingHandshake(part: Part, epoch: nat, number: nat)
      requires Sorted(queue.queueRx)
      modifies this, queue
      ensures State() == InsertPart(old(State()), part, epoch, number)
      ensures Sorted(queue.queueRx)
    {
      var arrival := queue.InsertIncomingHandshake(Item(part, epoch, number, false));
      if arrival.Inserted? || arrival.Replaced? {
        if epoch >= HANDSHAKE_EPOCH && |receivedRecordNumbers| < MAX_TRACKED {
          receivedRecordNumbers := receivedRecordNumbers + [(epoch, number)];
        }
      }
    }
  }

  class Engine {
    const sending: SendingHalf
    const receiving: ReceivingHalf

    ghost function Sending(): Sender
      reads sending
    {
      sending.State()
    }

    ghost function Receiving(): Receiver
      reads receiving, receiving.queue
    {
      receiving.State()
    }

    constructor (config: Config, side: Side, maxQueueRx: nat)
      ensures Sending() == NewSender(config, side)
      ensures Receiving() == NewReceiver(side.Peer(), maxQueueRx)
      ensures fresh(sending) && fresh(receiving) && fresh(receiving.queue)
    {
      sending := new SendingHalf(config, side);
      receiving := new ReceivingHalf(side.Peer(), maxQueueRx);
    }

    method SendAck() returns (failure: Option<Failure>)
      modifies sending, receiving
      ensures Outcome(Sending(), failure)
              == Link.AckOutcome(Link.Endpoint(old(Sending()), old(Receiving()), false, false))
      ensures Receiving() == old(Receiving()).(received := [])
    {
      if receiving.receivedRecordNumbers == [] {
        return None;
      }
      var entries := receiving.receivedRecordNumbers;
      receiving.receivedRecordNumbers := [];
      var epoch := if sending.appSendKeys.Some? then sending.appSendEpoch else HANDSHAKE_EPOCH;
      failure := sending.CreateCiphertextRecord(epoch, false, AckData(EncodeAck(entries)));
    }

    /** The scheduled handshake ACK, once its deadline has passed. */
    method FlushHandshakeAck() returns (failure: Option<Failure>)
      modifies sending, receiving
      ensures Receiving() == old(Receiving())
      ensures var e := Link.Endpoint(old(Sending()), old(Receiving()), false, false);
              var numbers := Link.HandshakeNumbers(old(receiving.queue.queueRx));
              Outcome(Sending(), failure)
              == if numbers == [] || !Link.HandshakeInProgress(e) then Outcome(old(Sending()), None)
                 else EmitCiphertext(old(Sending()), HANDSHAKE_EPOCH, false, AckData(EncodeAck(numbers)))
    {
      var recordNumbers: seq<Number> := [];
      for i := 0 to |receiving.queue.queueRx|
        invariant recordNumbers == Link.HandshakeNumbers(receiving.queue.queueRx[..i])
      {
        var item := receiving.queue.queueRx[i];
        assert receiving.queue.queueRx[..i + 1][..i] == receiving.queue.queueRx[..i];
        if item.epoch == HANDSHAKE_EPOCH && |recordNumbers| < MAX_TRACKED {
          recordNumbers := recordNumbers + [(item.epoch, item.number)];
        }
      }
      assert receiving.queue.queueRx[..|receiving.queue.queueRx|] == receiving.queue.queueRx;
      if recordNumbers == [] || !(sending.hsSendKeys.Some? && sending.appSendKeys.None? && !receiving.queue.released) {
        return None;
      }
      failure := sending.CreateCiphertextRecord(HANDSHAKE_EPOCH, false, AckData(EncodeAck(recordNumbers)));
    }

    method InstallHandshakeKeys()
      modifies sending, receiving
      ensures Sending() == SendSide.InstallHandshakeKeys(old(Sending()))
      ensures Receiving() == InstallHandshakeRecv(old(Receiving()))
    {
      sending.InstallHandshakeSendKeys();
      receiving.hsRecvKeys := Some(HandshakeTraffic(receiving.peer));
    }

    method InstallApplicationKeys()
      requires |receiving.appRecvKeys| < MAX_RECV_EPOCHS
      modifies sending, receiving
      ensures Sending() == SendSide.InstallApplicationKeys(old(Sending()))
      ensures Receiving() == InstallApplicationRecv(old(Receiving()))
    {
      sending.InstallApplicationSendKeys();
      var entry := Slot(FIRST_APP_EPOCH, ApplicationTraffic(receiving.peer), 0, NOTHING_SEEN);
      receiving.appRecvKeys := receiving.appRecvKeys + [entry];
    }

    method ReleaseApplicationData()
      modifies sending, receiving, receiving.queue
      ensures Receiving() == Release(old(Receiving())) && Sending() == old(Sending())
    {
      receiving.queue.released := true;
      receiving.hsRecvKeys := None;
    }

    method ResetForHelloRetry()
      modifies sending, receiving, receiving.queue
      ensures Sending() == SendSide.ResetForHelloRetry(old(Sending()))
      ensures Receiving() == old(Receiving()).(queue := Link.Unhandled(old(receiving.queue.queueRx)))
    {
      sending.ResetHandshakeSequence();
      var kept: seq<Item> := [];
      var i := 0;
      while i < |receiving.queue.queueRx|
        invariant i <= |receiving.queue.queueRx|
        invariant kept + Link.Unhandled(receiving.queue.queueRx[i..]) == Link.Unhandled(receiving.queue.queueRx)
      {
        assert receiving.queue.queueRx[i..][1..] == receiving.queue.queueRx[i + 1..];
        if !receiving.queue.queueRx[i].handled {
          kept := kept + [receiving.queue.queueRx[i]];
        }
        i := i + 1;
      }
      receiving.queue.queueRx := kept;
    }

    /** Sort out a record that was opened: after a close_notify later ones are dropped, an
        ACK is processed, a handshake fragment is queued. */
    method ClassifyRecord(o: Opened)
      requires Sorted(receiving.queue.queueRx)
      modifies sending, receiving, receiving.queue
      ensures Receiving() == Dispatch(old(Receiving()), o)
      ensures Sending() == Link.AcknowledgedBy(old(Sending()), old(Receiving()), o)
      ensures Sorted(receiving.queue.queueRx)
    {
      if receiving.closeNotifySequence.Some? {
        var (closeEpoch, closeNumber) := receiving.closeNotifySequence.value;
        if o.epoch > closeEpoch || (o.epoch == closeEpoch && o.number > closeNumber) {
          return;
        }
      }
      match o.payload
      case AckData(bytes) => sending.ProcessAck(bytes);
      case CloseNotify =>
        if receiving.closeNotifySequence.None? {
          receiving.closeNotifySequence := Some((o.epoch, o.number));
        }
      case HandshakePart(part) => receiving.InsertIncomingHandshake(part, o.epoch, o.number);
      case AppData(_) =>
    }

    /** One record arriving, as the two-endpoint system delivers it. */
    method ParsePacket(record: Record, garbage: nat)
      requires Sorted(receiving.queue.queueRx)
      modifies sending, receiving, receiving.queue
      ensures Receiving() == Receive(old(Receiving()), record, garbage)
      ensures Sending() == Link.Acknowledged(old(Sending()), old(Receiving()), record, garbage)
      ensures Sorted(receiving.queue.queueRx)
    {
      match record
      case Plaintext(number, payload) => ClassifyRecord(Opened(0, number, payload));
      case Ciphertext(_, _, _, _, _) =>
        if receiving.peerEncryptionEnabled {
          var result := receiving.ParseRecord(record, garbage);
          if result.Some? {
            ClassifyRecord(result.value);
          }
        }
    }
  }

  // ----- The resend loop against its recursion -----

  /** From `now`, resending what is left of `all` after `done` finishes what `start` began. */
  ghost predicate Resent(start: Sender, all: seq<Entry>, done: seq<Entry>, now: Sender) {
    && |done| <= |all|
    && var (o, rest) := ResendEntries(now, all[|done|..]);
       ResendEntries(start, all) == (o, done + rest)
  }

  lemma ResendStarts(start: Sender, all: seq<Entry>)
    ensures Resent(start, all, [], start)
  {
    assert all[0..] == all;
    assert [] + ResendEntries(start, all).1 == ResendEntries(start, all).1;
  }

  lemma SkipContinues(start: Sender, all: seq<Entry>, done: seq<Entry>, now: Sender)
    requires Resent(start, all, done, now) && |done| < |all| && all[|done|].acked
    ensures Resent(start, all, done + [all[|done|]], now)
  {
    var head, rest := all[|done|], all[|done|..];
    assert rest[0] == head && rest[1..] == all[|done| + 1..];
    var tail := ResendEntries(now, rest[1..]).1;
    assert done + ([head] + tail) == (done + [head]) + tail;
  }

  /** `next` is the outcome of sending the next entry again. */
  lemma ResendContinues(start: Sender, all: seq<Entry>, done: seq<Entry>, now: Sender, next: Outcome)
    requires Resent(start, all, done, now) && |done| < |all| && !all[|done|].acked
    requires next == EmitAgain(now, all[|done|])
    ensures next.failure.Some? ==> ResendEntries(start, all).0 == next
    ensures next.failure.None? ==>
              Resent(start, all, done + [all[|done|].(sendSeq := ResendNumber(now, all[|done|]))], next.sender)
  {
    var e, rest := all[|done|], all[|done|..];
    assert rest[0] == e && rest[1..] == all[|done| + 1..];
    OneEntry(now, rest, next);
    if next.failure.None? {
      DoneGrows(done, e.(sendSeq := ResendNumber(now, e)), ResendEntries(next.sender, rest[1..]).1);
    }
  }

  lemma DoneGrows(done: seq<Entry>, head: Entry, tail: seq<Entry>)
    ensures done + ([head] + tail) == (done + [head]) + tail
  {
  }

  lemma OneEntry(now: Sender, entries: seq<Entry>, next: Outcome)
    requires entries != [] && !entries[0].acked && next == EmitAgain(now, entries[0])
    ensures ResendEntries(now, entries)
            == if next.failure.Some? then (next, [])
               else (ResendEntries(next.sender, entries[1..]).0,
                     [entries[0].(sendSeq := ResendNumber(now, entries[0]))]
                     + ResendEntries(next.sender, entries[1..]).1)
  {
  }
}
