/** What a connected DTLS 1.3 client puts on the wire in one round, and under which keys. */
module Serving13 {
  import opened Handshakes
  import opened RecordNumbers
  import opened Records
  import opened SendSide
  import opened Client13
  import Gate13

  /** The record carries the payload, sealed under the keys of that epoch. */
  predicate Under(r: Record, side: Side, epoch: nat, payload: Payload)
    requires epoch >= HANDSHAKE_EPOCH
  {
    r.Ciphertext? && r.secret == SecretOf(side, epoch) && r.epochBits == epoch % 4 && r.payload == payload
  }

  ghost predicate Ready(s: Sender) {
    SenderValid(s) && s.appSecret.Some?
  }

  lemma OneRecord(s: Sender, payload: Payload)
    requires Ready(s) && EmitCiphertext(s, s.appEpoch, false, payload).failure.None?
    ensures var t := EmitCiphertext(s, s.appEpoch, false, payload).sender;
            && Ready(t) && SameKeys(s, t)
            && |t.sent| == |s.sent| + 1 && s.sent <= t.sent
            && Under(t.sent[|s.sent|], s.side, s.appEpoch, payload)
  {
    EmittedSender(s, s.appEpoch, false, payload);
    EmitCiphertextKeeps(s, s.appEpoch, false, payload);
    NextBehind(s, s.appEpoch, payload);
  }

  lemma OneUpdate(s: Sender, request: nat)
    requires Ready(s) && CreateKeyUpdate(s, request).failure.None?
    ensures var t := CreateKeyUpdate(s, request).sender;
            && Ready(t) && t.side == s.side
            && t.appEpoch == s.appEpoch + 1 && t.nextMsgSeq == s.nextMsgSeq + 1
            && |t.sent| == |s.sent| + 1 && s.sent <= t.sent
            && Under(t.sent[|s.sent|], s.side, s.appEpoch, HandshakePart(KeyUpdatePart(s.nextMsgSeq, request)))
  {
    var part := HandshakePart(KeyUpdatePart(s.nextMsgSeq, request));
    CreateKeyUpdateKeeps(s, request);
    EmittedSender(NextMessage(s), s.appEpoch, true, part);
    NextMessageKeeps(s);
    NextBehind(NextMessage(s), s.appEpoch, part);
    UpdateShape(s, request);
  }

  lemma UpdateShape(s: Sender, request: nat)
    requires CreateKeyUpdate(s, request).failure.None?
    ensures var m, t := SendKeyUpdate(s, request).sender, CreateKeyUpdate(s, request).sender;
            && SendKeyUpdate(s, request).failure.None? && m.appSecret.Some? && t.appSecret.Some?
            && t.sent == m.sent && t.nextMsgSeq == m.nextMsgSeq && t.side == m.side && t.appEpoch == m.appEpoch + 1
  {
  }

  lemma {:induction false} AllRecords(s: Sender, data: seq<seq<nat>>)
    requires Ready(s) && SendAll(s, s.appEpoch, data).failure.None?
    ensures var t := SendAll(s, s.appEpoch, data).sender;
            && Ready(t) && SameKeys(s, t)
            && |t.sent| == |s.sent| + |data| && s.sent <= t.sent
            && forall i :: 0 <= i < |data| ==> Under(t.sent[|s.sent| + i], s.side, s.appEpoch, AppData(data[i]))
    decreases |data|
  {
    if data != [] {
      var m := EmitCiphertext(s, s.appEpoch, false, AppData(data[0])).sender;
      OneRecord(s, AppData(data[0]));
      AllRecords(m, data[1..]);
      var t := SendAll(s, s.appEpoch, data).sender;
      assert t.sent[|s.sent|] == m.sent[|s.sent|];
      forall i | 0 <= i < |data|
        ensures Under(t.sent[|s.sent| + i], s.side, s.appEpoch, AppData(data[i]))
      {
        if i > 0 {
          assert data[1..][i - 1] == data[i];
          assert Under(t.sent[|m.sent| + (i - 1)], m.side, m.appEpoch, AppData(data[1..][i - 1]));
        }
      }
    }
  }

  /** An update of its own is due, and none is in flight. */
  function Updating(s: Sender, choice: Choice): nat {
    if choice.keyUpdateDue && !KeyUpdateInFlight(s) then 1 else 0
  }

  function Answering(pending: bool): nat {
    if pending then 1 else 0
  }

  /** In this order: the client's own update, which asks for one in return, under the epoch it
      ends; the data, under the epoch reached by then; and the answer to the peer's last update,
      which asks for nothing, under the epoch of the data. */
  ghost predicate SentInOrder(s: Sender, t: Sender, pending: bool, choice: Choice) {
    var u, n := Updating(s, choice), |choice.data|;
    var e, first := s.appEpoch + u, |s.sent|;
    && s.sent <= t.sent && |t.sent| == first + u + n + Answering(pending)
    && e >= HANDSHAKE_EPOCH && s.appEpoch >= HANDSHAKE_EPOCH
    && (u == 1 ==> Under(t.sent[first], s.side, s.appEpoch, HandshakePart(KeyUpdatePart(s.nextMsgSeq, 1))))
    && (forall i :: 0 <= i < n ==> Under(t.sent[first + u + i], s.side, e, AppData(choice.data[i])))
    && (pending ==> Under(t.sent[first + u + n], s.side, e, HandshakePart(KeyUpdatePart(s.nextMsgSeq + u, 0))))
    && t.appEpoch == e + Answering(pending)
  }

  lemma UpdatedFirst(s: Sender, choice: Choice)
    requires Ready(s) && (Updating(s, choice) == 1 ==> CreateKeyUpdate(s, 1).failure.None?)
    ensures var u := Updating(s, choice);
            var m := if u == 1 then CreateKeyUpdate(s, 1).sender else s;
            && Ready(m) && m.side == s.side && m.appEpoch == s.appEpoch + u && m.nextMsgSeq == s.nextMsgSeq + u
            && s.sent <= m.sent && |m.sent| == |s.sent| + u
            && (u == 1 ==> Under(m.sent[|s.sent|], s.side, s.appEpoch, HandshakePart(KeyUpdatePart(s.nextMsgSeq, 1))))
  {
    if Updating(s, choice) == 1 {
      OneUpdate(s, 1);
    }
  }

  lemma SendsInOrder(s: Sender, pending: bool, choice: Choice)
    requires Ready(s) && Sends(s, pending, choice).failure.None?
    ensures SentInOrder(s, Sends(s, pending, choice).sender, pending, choice)
    ensures Ready(Sends(s, pending, choice).sender)
  {
    var m := if Updating(s, choice) == 1 then CreateKeyUpdate(s, 1).sender else s;
    UpdatedFirst(s, choice);
    var d := SendAll(m, m.appEpoch, choice.data).sender;
    AllRecords(m, choice.data);
    if pending {
      OneUpdate(d, 0);
    }
    DataBetween(s, m, d, Sends(s, pending, choice).sender, pending, choice);
  }

  /** The stretches of the log put together. */
  lemma DataBetween(s: Sender, m: Sender, d: Sender, t: Sender, pending: bool, choice: Choice)
    requires Ready(s) && m.side == s.side && d.side == s.side && m.appEpoch == s.appEpoch + Updating(s, choice)
    requires s.sent <= m.sent <= d.sent <= t.sent
    requires |m.sent| == |s.sent| + Updating(s, choice) && |d.sent| == |m.sent| + |choice.data|
    requires |t.sent| == |d.sent| + Answering(pending) && t.appEpoch == d.appEpoch + Answering(pending)
    requires d.appEpoch == m.appEpoch
    requires Updating(s, choice) == 1 ==>
               Under(m.sent[|s.sent|], s.side, s.appEpoch, HandshakePart(KeyUpdatePart(s.nextMsgSeq, 1)))
    requires forall i :: 0 <= i < |choice.data| ==>
               Under(d.sent[|m.sent| + i], m.side, m.appEpoch, AppData(choice.data[i]))
    requires pending ==>
               Under(t.sent[|d.sent|], s.side, d.appEpoch,
                     HandshakePart(KeyUpdatePart(s.nextMsgSeq + Updating(s, choice), 0)))
    ensures SentInOrder(s, t, pending, choice)
  {
  }

  /** One round of a connected client that goes well: what is due goes out in order, each record
      under the keys it belongs to; a KeyUpdate that is read is acknowledged, if there is
      anything to acknowledge, behind all that and under the epoch reached; and the client owes
      an answer exactly if the update it reads asks for one. */
  lemma ServesInOrder(c: Connection, choice: Choice)
    requires Ready(c.snd) && Serve(c, choice).Some?
    ensures var sent := Sends(c.snd, c.pendingKeyUpdateResponse, choice).sender;
            var t := Serve(c, choice).value.snd;
            && SentInOrder(c.snd, sent, c.pendingKeyUpdateResponse, choice)
            && t.appEpoch == sent.appEpoch >= HANDSHAKE_EPOCH && sent.sent <= t.sent
            && (if HasComplete(c, KeyUpdate) && choice.numbers != [] then
                  |t.sent| == |sent.sent| + 1
                  && Under(t.sent[|sent.sent|], c.snd.side, t.appEpoch, AckData(EncodeAck(choice.numbers)))
                else t.sent == sent.sent)
    ensures Serve(c, choice).value.pendingKeyUpdateResponse
            <==> HasComplete(c, KeyUpdate) && c.received[c.peerSeqNo].requested
  {
    SendsInOrder(c.snd, c.pendingKeyUpdateResponse, choice);
    SidesKept(c.snd, c.pendingKeyUpdateResponse, choice);
    var mid := AfterSends(c, choice);
    ReadAcknowledges(mid, choice.numbers);
  }

  /** What is left of the round once everything due has been sent. */
  lemma AfterSends(c: Connection, choice: Choice) returns (mid: Connection)
    requires Serve(c, choice).Some?
    ensures mid.snd == Sends(c.snd, c.pendingKeyUpdateResponse, choice).sender && !mid.pendingKeyUpdateResponse
    ensures mid.received == c.received && mid.peerSeqNo == c.peerSeqNo
    ensures Serve(c, choice) == ReadKeyUpdate(mid, choice.numbers)
  {
    mid := c.(snd := Sends(c.snd, c.pendingKeyUpdateResponse, choice).sender, pendingKeyUpdateResponse := false);
  }

  lemma SidesKept(s: Sender, pending: bool, choice: Choice)
    requires Ready(s) && Sends(s, pending, choice).failure.None?
    ensures Sends(s, pending, choice).sender.side == s.side
  {
    var m := if Updating(s, choice) == 1 then CreateKeyUpdate(s, 1).sender else s;
    UpdatedFirst(s, choice);
    AllRecords(m, choice.data);
    if pending {
      OneUpdate(SendAll(m, m.appEpoch, choice.data).sender, 0);
    }
  }

  lemma ReadAcknowledges(c: Connection, numbers: seq<Number>)
    requires Ready(c.snd) && !c.pendingKeyUpdateResponse && ReadKeyUpdate(c, numbers).Some?
    ensures var t := ReadKeyUpdate(c, numbers).value.snd;
            && t.appEpoch == c.snd.appEpoch >= HANDSHAKE_EPOCH && c.snd.sent <= t.sent
            && (if HasComplete(c, KeyUpdate) && numbers != [] then
                  |t.sent| == |c.snd.sent| + 1
                  && Under(t.sent[|c.snd.sent|], c.snd.side, t.appEpoch, AckData(EncodeAck(numbers)))
                else t.sent == c.snd.sent)
    ensures ReadKeyUpdate(c, numbers).value.pendingKeyUpdateResponse
            <==> HasComplete(c, KeyUpdate) && c.received[c.peerSeqNo].requested
  {
    if HasComplete(c, KeyUpdate) && numbers != [] {
      OneRecord(c.snd, AckData(EncodeAck(numbers)));
    }
  }

  // ----- Closing -----

  /** Closing a connected client sends a close_notify under its current keys, behind what is
      queued, and ends its flight, or fails and leaves the state; before that, nothing is sent and
      what is queued is dropped. */
  lemma CloseSaysSo(c: Connection)
    requires Ready(c.snd)
    ensures var c', s, t := Gate13.Closing(c), c.snd, Gate13.Closing(c).snd;
            if c.state.AwaitApplicationData? then
              if c'.state.HalfClosedLocal? then
                && |t.sent| == |s.sent| + 1 && Flows(s, [], t) && t.flight == []
                && s.appEpoch >= HANDSHAKE_EPOCH && Under(t.sent[|s.sent|], s.side, s.appEpoch, CloseNotify)
              else c' == c
            else if c.state.HalfClosedLocal? || c.state.Closed? then c' == c
            else c'.state.Closed? && t.sent == s.sent && t.queueTx == [] && t.flight == []
  {
    if c.state.AwaitApplicationData? {
      FarewellSends(c.snd);
    }
  }

  lemma FarewellSends(s: Sender)
    requires Ready(s)
    ensures var (t, next) := Gate13.Farewell(s, AwaitApplicationData);
            if next.HalfClosedLocal? then
              && |t.sent| == |s.sent| + 1 && Flows(s, [], t) && t.flight == []
              && s.appEpoch >= HANDSHAKE_EPOCH && Under(t.sent[|s.sent|], s.side, s.appEpoch, CloseNotify)
            else t == s && next.AwaitApplicationData?
  {
    if EmitCiphertext(s, s.appEpoch, false, CloseNotify).failure.None? {
      OneRecord(s, CloseNotify);
      EmitCiphertextFlows(s, s.appEpoch, false, CloseNotify);
    } else {
      FailedEmit(s, s.appEpoch, false, CloseNotify);
    }
  }
}
