/** What records in the clear may do: an ACK or a close_notify takes effect without having
    been sealed by anyone. */
module Unprotected {
  import opened Handshakes
  import opened Records
  import opened SendSide
  import opened ReceiveSide
  import opened Link

  // ----- Flights are never left acknowledged -----

  /** No flight that an ACK would have cleared is still there. */
  predicate Settled(s: Sender) {
    && !HandshakeAcked(s.flight)
    && !(s.prevSecret.Some? && s.flight != [] && AllAcked(s.flight))
  }

  lemma UnackedSettles(s: Sender, t: Sender, e: Entry)
    requires Settled(s) && !e.acked && t.flight == s.flight + [e]
    ensures Settled(t)
  {
    assert t.flight[|s.flight|] == e;
    assert forall j :: 0 <= j < |s.flight| ==> s.flight[j] == t.flight[j];
  }

  lemma EmitSettles(s: Sender, epoch: nat, save: bool, payload: Payload)
    requires Settled(s)
    ensures Settled(EmitPlaintext(s, save, payload).sender) && Settled(EmitCiphertext(s, epoch, save, payload).sender)
  {
    EmitFrame(s, epoch, save, payload);
    var p, c := EmitPlaintext(s, save, payload).sender, EmitCiphertext(s, epoch, save, payload).sender;
    SavedOrNot(s, epoch, save, payload);
    if p.flight != s.flight {
      UnackedSettles(s, p, Entry(0, s.plainSeq, payload, false));
    }
    if c.flight != s.flight {
      UnackedSettles(s, c, Entry(epoch, NumberFor(s, epoch), payload, false));
    }
  }

  lemma SavedOrNot(s: Sender, epoch: nat, save: bool, payload: Payload)
    ensures var p := EmitPlaintext(s, save, payload).sender;
            p.flight == s.flight || p.flight == s.flight + [Entry(0, s.plainSeq, payload, false)]
    ensures var c := EmitCiphertext(s, epoch, save, payload).sender;
            c.flight == s.flight || c.flight == s.flight + [Entry(epoch, NumberFor(s, epoch), payload, false)]
  {
  }

  lemma ResendSettles(s: Sender)
    requires Settled(s) && SenderValid(s)
    ensures Settled(FlightResend(s).sender)
  {
    var s0 := s.(flight := [], datagramSealed := true);
    ResendEntriesKeeps(s0, s.flight);
    var t := FlightResend(s).sender;
    if t.flight != [] {
      assert SameEntries(s.flight, t.flight);
      assert forall i :: 0 <= i < |t.flight| ==>
          t.flight[i].epoch == s.flight[i].epoch && t.flight[i].acked == s.flight[i].acked;
    }
  }

  lemma KeyUpdateSettles(s: Sender, request: nat)
    requires Settled(s)
    ensures Settled(CreateKeyUpdate(s, request).sender)
  {
    var part := HandshakePart(KeyUpdatePart(s.nextMsgSeq, request));
    EmitSettles(NextMessage(s), s.appEpoch, true, part);
    var o := SendKeyUpdate(s, request);
    if s.nextMsgSeq < MAX_EPOCH && o.failure.None? {
      SavedFlight(NextMessage(s), s.appEpoch, part);
      assert !o.sender.flight[0].acked;
    }
  }

  lemma PerformSettles(s: Sender, op: Op)
    requires Settled(s) && SenderValid(s)
    ensures Settled(Perform(s, op))
  {
    match op
    case SendHello(p) => EmitSettles(s, 0, true, p);
    case SendHandshake(p) => EmitSettles(s, HANDSHAKE_EPOCH, true, p);
    case SendHandshakeAck(numbers) => EmitSettles(s, HANDSHAKE_EPOCH, false, AckData(EncodeAck(numbers)));
    case SendApplication(p) => EmitSettles(s, s.appEpoch, false, p);
    case Resend => ResendSettles(s);
    case UpdateKeys(request) => KeyUpdateSettles(s, request);
    case _ =>
  }

  lemma {:induction false} SettledAlways(s: Sender, ops: seq<Op>)
    requires Settled(s) && SenderValid(s) && AllowedRun(s, ops)
    ensures Settled(PerformAll(s, ops))
    decreases |ops|
  {
    if ops != [] {
      PerformSettles(s, ops[0]);
      PerformKeeps(s, ops[0]);
      SettledAlways(Perform(s, ops[0]), ops[1..]);
    }
  }

  // ----- Exactly when a record in the clear takes effect -----

  predicate Readable(body: seq<nat>) {
    |body| >= 2 && |body| - 2 >= FromBytes(body[..2])
  }

  /** The ACK lists an entry that is not acknowledged yet. */
  predicate ListsUnacked(flight: seq<Entry>, body: seq<nat>) {
    && Readable(body)
    && exists i :: 0 <= i < |flight| && !flight[i].acked && (flight[i].epoch, flight[i].sendSeq) in DecodeAck(body)
  }

  lemma AckActsExact(s: Sender, body: seq<nat>)
    requires Settled(s)
    ensures ProcessAck(s, body) != s <==> ListsUnacked(s.flight, body)
  {
    var marked := MarkAcked(s.flight, DecodeAck(body));
    if ListsUnacked(s.flight, body) {
      var i :| 0 <= i < |s.flight| && !s.flight[i].acked && (s.flight[i].epoch, s.flight[i].sendSeq) in DecodeAck(body);
      assert marked[i].acked;
      if ProcessAck(s, body).flight != [] {
        assert ProcessAck(s, body).flight == marked;
      }
    } else if Readable(body) {
      assert marked == s.flight;
    }
  }

  /** A record in the clear changes the sending half, or the point after which records are
      dropped, exactly when it is not itself numbered after a close_notify and is an ACK that
      lists an unacknowledged entry, or the first close_notify.  No key has any part in it. */
  lemma ClearRecordExact(s: Sender, r: Receiver, number: nat, payload: Payload, garbage: nat)
    requires Settled(s)
    ensures var record := Plaintext(number, payload);
            Acknowledged(s, r, record, garbage) != s || Receive(r, record, garbage).closeNotify != r.closeNotify
            <==> && !AfterClose(r, 0, number)
                 && match payload
                    case AckData(body) => ListsUnacked(s.flight, body)
                    case CloseNotify => r.closeNotify.None?
                    case _ => false
  {
    if payload.AckData? {
      AckActsExact(s, payload.bytes);
    }
  }

  /** A sealed record does nothing unless the peer's side derived the secret it is under. */
  lemma ForeignRecordInert(s: Sender, r: Receiver, record: Record, garbage: nat)
    requires ReceiverValid(r) && record.Ciphertext?
    requires forall epoch: nat :: epoch >= HANDSHAKE_EPOCH ==> record.secret != SecretOf(r.peer, epoch)
    ensures Acknowledged(s, r, record, garbage) == s && Receive(r, record, garbage) == r
  {
    var e := ResolveEpoch(r, record.epochBits);
    if SecretAt(r, e).Some? {
      SecretEpochs(r, e);
    }
  }

  /** After the first close_notify, if it comes in the clear, nothing sealed is heard of: no
      ACK is processed, nothing queued. */
  lemma ClearCloseSilences(s: Sender, r: Receiver, number: nat, record: Record, garbage: nat)
    requires ReceiverValid(r) && r.closeNotify.None? && record.Ciphertext?
    ensures var closed := Receive(r, Plaintext(number, CloseNotify), 0);
            && Acknowledged(s, closed, record, garbage) == s
            && Receive(closed, record, garbage).queue == r.queue
            && Receive(closed, record, garbage).received == r.received
  {
    var closed := Receive(r, Plaintext(number, CloseNotify), 0);
    ReceiveKeeps(r, Plaintext(number, CloseNotify), 0);
    assert closed == r.(closeNotify := Some((0, number)));
    ClosedSilences(s, closed, record, garbage);
  }

  /** Every sealed record comes after a close_notify in epoch 0. */
  lemma ClosedSilences(s: Sender, r: Receiver, record: Record, garbage: nat)
    requires ReceiverValid(r) && r.closeNotify.Some? && r.closeNotify.value.0 == 0 && record.Ciphertext?
    ensures Acknowledged(s, r, record, garbage) == s
    ensures Receive(r, record, garbage).queue == r.queue && Receive(r, record, garbage).received == r.received
  {
    if r.peerEncryption && Open(r, record, garbage).Some? {
      var o := Open(r, record, garbage).value;
      SecretEpochs(r, o.epoch);
      assert AfterClose(r, o.epoch, o.number) && AfterClose(Commit(r, o), o.epoch, o.number);
    }
  }
}
