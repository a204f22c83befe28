/** What two engines send each other can be opened at the other end, and an ACK that arrives
    there ends the flight it lists. */
module Acknowledging {
  import opened Handshakes
  import opened RecordNumbers
  import opened Records
  import opened Reassembly
  import opened SendSide
  import opened ReceiveSide
  import opened Link
  import opened Lockstep
  import opened KeyUpdateRun

  // ----- Under which keys -----

  /** The number field of a record of the epoch can be completed, and the number is new. */
  predicate Fresh(r: Receiver, epoch: nat, number: nat) {
    Recoverable(number, ExpectedAt(r, epoch), FIELD_BITS) && ReplayCheck(r, epoch, number)
  }

  /** No receive epoch is past the newest. */
  lemma HeldReached(r: Receiver, epoch: nat)
    requires ReceiverValid(r) && r.slots != [] && r.hsSecret.None?
    ensures ReceiveSide.Holds(r, epoch) ==> epoch <= Newest(r)
    ensures ReceiveSide.Holds(r, Newest(r))
  {
    RetainsExact(r, epoch);
    RetainsExact(r, Newest(r));
    var last := |r.slots| - 1;
    assert r.slots[last].epoch == r.slots[0].epoch + last;
    assert SlotValid(r.peer, r.slots[last]);
  }

  /** A record under the epoch the sender has reached, in step with the receiver. */
  lemma CurrentOpens(r: Receiver, epoch: nat, number: nat, payload: Payload, garbage: nat)
    requires ReceiverValid(r) && r.slots != [] && r.hsSecret.None? && epoch >= FIRST_APP_EPOCH
    requires Newest(r) <= epoch
    ensures Open(r, RecordOf(r.peer, epoch, number, payload), garbage).Some?
            <==> Newest(r) == epoch && Fresh(r, epoch, number)
    ensures var o := Open(r, RecordOf(r.peer, epoch, number, payload), garbage);
            o.Some? ==> o.value == Opened(epoch, number, payload)
  {
    HeldReached(r, epoch);
    OpenExact(r, epoch, number, payload, garbage);
    OpenSound(r, epoch, number, payload, garbage);
  }

  /** What a step of a connected side adds to its log. */
  ghost predicate AddsCurrent(s: Sender, t: Sender) {
    && s.sent <= t.sent && |t.sent| <= |s.sent| + 1
    && (|t.sent| > |s.sent| ==>
          exists payload :: t.sent == s.sent + [RecordOf(s.side, s.appEpoch, NumberFor(s, s.appEpoch), payload)])
  }

  lemma EmitAddsCurrent(s: Sender, payload: Payload)
    requires SenderValid(s) && FlightSent(s) && !payload.HandshakePart?
    requires EmitCiphertext(s, s.appEpoch, false, payload).failure.None?
    ensures AddsCurrent(s, EmitCiphertext(s, s.appEpoch, false, payload).sender)
  {
    EmitCiphertextExtends(s, s.appEpoch, false, payload);
  }

  lemma ProcessAddsCurrent(e: Endpoint, requested: bool)
    requires SenderValid(e.snd) && FlightSent(e.snd) && e.snd.appSecret.Some?
    requires SendOutcome(e, ProcessKeyUpdate(requested)).failure.None?
    ensures AddsCurrent(e.snd, SendAfter(e, ProcessKeyUpdate(requested)))
  {
    ProcessHalves(e, requested);
    if !e.closed && e.rcv.received != [] {
      EmitAddsCurrent(e.snd, AckData(EncodeAck(e.rcv.received)));
    }
  }

  lemma UpdateAddsCurrent(s: Sender, request: nat)
    requires SenderValid(s) && FlightSent(s) && CreateKeyUpdate(s, request).failure.None?
    ensures AddsCurrent(s, CreateKeyUpdate(s, request).sender)
  {
    KeyUpdateResult(s, request);
  }

  lemma SendAddsCurrent(e: Endpoint, a: Action)
    requires SenderValid(e.snd) && FlightSent(e.snd) && e.snd.appSecret.Some? && SendOutcome(e, a).failure.None?
    requires a.SendData? || a.Close? || a.StartKeyUpdate? || a.RespondKeyUpdate? || a.ProcessKeyUpdate?
    ensures AddsCurrent(e.snd, SendAfter(e, a))
  {
    match a
    case SendData(bytes) => EmitAddsCurrent(e.snd, AppData(bytes));
    case Close => EmitAddsCurrent(e.snd, CloseNotify);
    case StartKeyUpdate => UpdateAddsCurrent(e.snd, 1);
    case RespondKeyUpdate => UpdateAddsCurrent(e.snd, 0);
    case ProcessKeyUpdate(requested) => ProcessAddsCurrent(e, requested);
  }

  lemma QuietAddsNothing(e: Endpoint, a: Action)
    requires a.EnableEncryption? || a.Release? || a.PollPacket? || a.PurgeHandled?
    ensures SendAfter(e, a).sent == e.snd.sent
  {
  }

  lemma DeliveryAddsNothing(s: Sender, r: Receiver, record: Record, garbage: nat)
    ensures Acknowledged(s, r, record, garbage).sent == s.sent
  {
    AcknowledgedIs(s, r, record, garbage);
    AckSendsNothing(s, record.payload);
  }

  lemma ActAddsCurrent(sys: System, step: Step)
    requires InLockstep(sys) && Enabled(sys, step) && !step.action.Resend?
    ensures AddsCurrent(sys.At(step.who).snd, Act(sys, step).snd)
  {
    var e, p := sys.At(step.who), sys.At(step.who.Peer());
    assert PairInStep(e, p);
    ActHalves(sys, step);
    ConnectedActions(sys, step);
    if step.action.Deliver? {
      DeliveryAddsNothing(e.snd, e.rcv, p.snd.sent[step.action.index], step.action.garbage);
    } else if step.action.EnableEncryption? || step.action.Release? || step.action.PollPacket?
              || step.action.PurgeHandled? {
      QuietAddsNothing(e, step.action);
    } else {
      SendAddsCurrent(e, step.action);
    }
  }

  lemma AddedOpens(s: Sender, t: Sender, r: Receiver, back: Sender, i: nat, garbage: nat)
    requires Direction(s, r, back) && DirectionInStep(s, r, back) && r.released && AddsCurrent(s, t)
    requires |s.sent| <= i < |t.sent|
    ensures var record := t.sent[i];
            && record.Ciphertext?
            && (Open(r, record, garbage).Some? <==> Newest(r) == s.appEpoch && Fresh(r, s.appEpoch, record.number))
            && (Open(r, record, garbage).Some? ==>
                  Open(r, record, garbage).value == Opened(s.appEpoch, record.number, record.payload))
  {
    var payload :| t.sent == s.sent + [RecordOf(s.side, s.appEpoch, NumberFor(s, s.appEpoch), payload)];
    CurrentOpens(r, s.appEpoch, NumberFor(s, s.appEpoch), payload, garbage);
  }

  /** Whatever a connected side sends, a resend apart, opens at the other end exactly when that
      has reached the epoch the side was in, the number field can be completed and the number
      is new there. */
  lemma SentOpens(sys: System, step: Step, i: nat, garbage: nat)
    requires InLockstep(sys) && Enabled(sys, step) && !step.action.Resend?
    requires |sys.At(step.who).snd.sent| <= i < |Next(sys, step).At(step.who).snd.sent|
    ensures var s, r := sys.At(step.who).snd, sys.At(step.who.Peer()).rcv;
            var record := Next(sys, step).At(step.who).snd.sent[i];
            && record.Ciphertext?
            && (Open(r, record, garbage).Some? <==> Newest(r) == s.appEpoch && Fresh(r, s.appEpoch, record.number))
            && (Open(r, record, garbage).Some? ==>
                  Open(r, record, garbage).value == Opened(s.appEpoch, record.number, record.payload))
  {
    var s, p := sys.At(step.who).snd, sys.At(step.who.Peer());
    ActAddsCurrent(sys, step);
    assert PairInStep(sys.At(step.who), p);
    AddedOpens(s, Act(sys, step).snd, p.rcv, p.snd, i, garbage);
  }

  // ----- The ACK of a KeyUpdate -----

  /** The record is opened and listened to. */
  predicate Hears(r: Receiver, epoch: nat, number: nat) {
    r.peerEncryption && Fresh(r, epoch, number) && !AfterClose(r, epoch, number)
  }

  /** An ACK that lists the update in flight ends it. */
  lemma ListedUpdateEnds(s: Sender, numbers: seq<Number>)
    requires KeysValid(s) && FlightInStep(s) && KeyUpdateInFlight(s) && s.flight != []
    requires Encodable(numbers) && (s.flight[0].epoch, s.flight[0].sendSeq) in numbers
    ensures var t := ProcessAck(s, EncodeAck(numbers)); !KeyUpdateInFlight(t) && t.flight == []
  {
    AckRetiresExact(s, numbers);
  }

  lemma TrackedEncodable(s: Sender, r: Receiver)
    requires SenderValid(s) && ReceiverValid(r) && Genuine(s, r) && r.peer == s.side && TrackedGenuine(r)
    ensures Encodable(r.received)
  {
    assert Power256(8) > 0xFFFF_FFFF_FFFF by {
      assert Power256(3) == 0x100_0000;
      assert Power256(6) == 0x1_0000_0000_0000;
    }
    forall i | 0 <= i < |r.received|
      ensures r.received[i].0 < Power256(8) && r.received[i].1 < Power256(8)
    {
      var n := r.received[i];
      var o :| o in r.accepted && o.epoch == n.0 && o.number == n.1 && o.payload.HandshakePart?;
      AcceptedBounds(s, r, o);
    }
  }

  /** A side with something tracked sends one record when it reads an update: the ACK. */
  lemma ProcessAcks(e: Endpoint, requested: bool)
    requires SenderValid(e.snd) && FlightSent(e.snd) && e.snd.appSecret.Some? && !e.closed && e.rcv.received != []
    requires SendOutcome(e, ProcessKeyUpdate(requested)).failure.None?
    ensures SendAfter(e, ProcessKeyUpdate(requested)).sent
            == e.snd.sent + [RecordOf(e.snd.side, e.snd.appEpoch, NumberFor(e.snd, e.snd.appEpoch),
                                      AckData(EncodeAck(e.rcv.received)))]
  {
    ProcessHalves(e, requested);
    EmitCiphertextExtends(e.snd, e.snd.appEpoch, false, AckData(EncodeAck(e.rcv.received)));
  }

  /** An arriving ACK is processed exactly when it is heard. */
  lemma AckArrives(s: Sender, r: Receiver, epoch: nat, number: nat, body: seq<nat>, garbage: nat)
    requires ReceiverValid(r) && r.slots != [] && r.hsSecret.None? && epoch >= FIRST_APP_EPOCH && Newest(r) <= epoch
    ensures Acknowledged(s, r, RecordOf(r.peer, epoch, number, AckData(body)), garbage)
            == if Newest(r) == epoch && Hears(r, epoch, number) then ProcessAck(s, body) else s
  {
    CurrentOpens(r, epoch, number, AckData(body), garbage);
  }

  /** The peer's update is in flight, and its record is among those to be acknowledged. */
  ghost predicate Owed(e: Endpoint, p: Endpoint) {
    && KeyUpdateInFlight(p.snd) && p.snd.flight != []
    && (p.snd.flight[0].epoch, p.snd.flight[0].sendSeq) in e.rcv.received
  }

  /** The peer's sending half once the ACK of the pair has been delivered to it. */
  function Answered(e: Endpoint, p: Endpoint, garbage: nat): Sender
    requires e.snd.appEpoch >= HANDSHAKE_EPOCH
  {
    var record := RecordOf(e.snd.side, e.snd.appEpoch, NumberFor(e.snd, e.snd.appEpoch),
                           AckData(EncodeAck(e.rcv.received)));
    Acknowledged(p.snd, p.rcv, record, garbage)
  }

  lemma OwedEnds(e: Endpoint, p: Endpoint, garbage: nat)
    requires PairInStep(e, p) && Owed(e, p)
    ensures var t, number := Answered(e, p, garbage), NumberFor(e.snd, e.snd.appEpoch);
            if Newest(p.rcv) == e.snd.appEpoch && Hears(p.rcv, e.snd.appEpoch, number) then
              !KeyUpdateInFlight(t) && t.flight == [] && t.appEpoch == p.snd.appEpoch && t.sent == p.snd.sent
            else t == p.snd
  {
    TrackedEncodable(p.snd, e.rcv);
    ListedUpdateEnds(p.snd, e.rcv.received);
    AckArrives(p.snd, p.rcv, e.snd.appEpoch, NumberFor(e.snd, e.snd.appEpoch), EncodeAck(e.rcv.received), garbage);
    AckKeepsEpoch(p.snd, EncodeAck(e.rcv.received));
  }

  lemma AckKeepsEpoch(s: Sender, body: seq<nat>)
    ensures ProcessAck(s, body).appEpoch == s.appEpoch && ProcessAck(s, body).sent == s.sent
  {
  }

  /** The record `who` has just sent, delivered to the other side. */
  lemma SentThenDelivered(sys: System, step: Step, n: nat, record: Record, garbage: nat)
    requires Enabled(sys, step) && !step.action.Deliver? && n == |sys.At(step.who).snd.sent|
    requires SendAfter(sys.At(step.who), step.action).sent == sys.At(step.who).snd.sent + [record]
    ensures var mid, answer := Next(sys, step), Step(step.who.Peer(), Deliver(n, garbage));
            && |mid.At(step.who).snd.sent| == n + 1 && mid.At(step.who).snd.sent[n] == record
            && mid.At(step.who.Peer()) == sys.At(step.who.Peer())
            && Enabled(mid, answer)
            && var p := sys.At(step.who.Peer());
               Next(mid, answer).At(step.who.Peer()).snd == Acknowledged(p.snd, p.rcv, record, garbage)
  {
    ActHalves(sys, step);
  }

  /** Reading the peer's update sends one record, the ACK; delivered, it ends the update exactly
      when the peer has reached the epoch it is sent in, and hears it.  Otherwise the peer is as
      it was. */
  lemma UpdateAcknowledged(sys: System, who: Side, requested: bool, garbage: nat)
    requires InLockstep(sys) && Enabled(sys, Step(who, ProcessKeyUpdate(requested)))
    requires !sys.At(who).closed && Owed(sys.At(who), sys.At(who.Peer()))
    ensures var mid, n := Next(sys, Step(who, ProcessKeyUpdate(requested))), |sys.At(who).snd.sent|;
            var s, p := sys.At(who).snd, sys.At(who.Peer());
            && |mid.At(who).snd.sent| == n + 1 && mid.At(who.Peer()) == p
            && mid.At(who).snd.sent[n].payload.AckData?
            && Enabled(mid, Step(who.Peer(), Deliver(n, garbage)))
            && var t := Next(mid, Step(who.Peer(), Deliver(n, garbage))).At(who.Peer()).snd;
               var heard := Newest(p.rcv) == s.appEpoch && Hears(p.rcv, s.appEpoch, mid.At(who).snd.sent[n].number);
               && (heard <==> !KeyUpdateInFlight(t))
               && (heard ==> t.flight == [] && t.appEpoch == p.snd.appEpoch && t.sent == p.snd.sent)
               && (!heard ==> t == p.snd)
  {
    var read, n := Step(who, ProcessKeyUpdate(requested)), |sys.At(who).snd.sent|;
    var e, p := sys.At(who), sys.At(who.Peer());
    assert PairInStep(e, p);
    ProcessAcks(e, requested);
    var record := RecordOf(e.snd.side, e.snd.appEpoch, NumberFor(e.snd, e.snd.appEpoch),
                           AckData(EncodeAck(e.rcv.received)));
    SentThenDelivered(sys, read, n, record, garbage);
    OwedEnds(e, p, garbage);
  }

  // ----- A whole update -----

  /** Nothing is left unread, and there is room for one more. */
  ghost predicate Idle(r: Receiver) {
    && (forall i :: 0 <= i < |r.queue| ==> r.queue[i].handled)
    && |r.queue| < r.maxQueue && |r.received| < MAX_TRACKED
  }

  lemma FirstUnhandledIs(q: seq<Item>, i: nat)
    requires i < |q| && (forall j :: 0 <= j < i ==> q[j].handled) && !q[i].handled
    ensures FirstUnhandled(q) == i
  {
  }

  lemma LoneUpdateComplete(q: seq<Item>, i: nat)
    requires i < |q| && (forall j :: 0 <= j < i ==> q[j].handled) && !q[i].handled
    requires q[i].part.msgType == KeyUpdate && q[i].part.offset == 0 && |q[i].part.bytes| == 1 == q[i].part.length
    ensures HasComplete(q, KeyUpdate, q[i].part.seqNo)
  {
    FirstUnhandledIs(q, i);
    assert Window(q)[0] == q[i];
  }

  /** The next update is ready to be read as soon as it arrives, and tracked. */
  lemma UpdateReady(r: Receiver, request: nat, epoch: nat, number: nat)
    requires Idle(r) && epoch >= HANDSHAKE_EPOCH
    ensures var t := InsertPart(r, KeyUpdatePart(r.peerMsgSeq, request), epoch, number);
            && HasComplete(t.queue, KeyUpdate, t.peerMsgSeq) && (epoch, number) in t.received
  {
    var item := Item(KeyUpdatePart(r.peerMsgSeq, request), epoch, number, false);
    var t, i := InsertPart(r, item.part, epoch, number), Position(r.queue, item.part);
    assert t.queue[i] == item;
    assert forall j :: 0 <= j < i ==> t.queue[j] == r.queue[j];
    LoneUpdateComplete(t.queue, i);
  }

  /** The peer takes the update in: it can read it, and owes an ACK for it. */
  lemma UpdateTaken(s: Sender, r: Receiver, back: Sender, record: Record, garbage: nat)
    requires Direction(s, r, back) && DirectionInStep(s, r, back) && r.released && Newest(r) == s.appEpoch
    requires CreateKeyUpdate(s, 1).failure.None? && record == CreateKeyUpdate(s, 1).sender.sent[|s.sent|]
    requires Idle(r) && Hears(r, s.appEpoch, NumberFor(s, s.appEpoch))
    ensures var t, u := Receive(r, record, garbage), CreateKeyUpdate(s, 1).sender;
            && HasComplete(t.queue, KeyUpdate, t.peerMsgSeq)
            && u.flight != [] && (u.flight[0].epoch, u.flight[0].sendSeq) in t.received
  {
    KeyUpdateResult(s, 1);
    var number, payload := NumberFor(s, s.appEpoch), HandshakePart(KeyUpdatePart(s.nextMsgSeq, 1));
    CurrentOpens(r, s.appEpoch, number, payload, garbage);
    var c := Commit(r, Opened(s.appEpoch, number, payload));
    CommitTouches(r, Opened(s.appEpoch, number, payload));
    assert Receive(r, record, garbage) == InsertPart(c, payload.part, s.appEpoch, number);
    UpdateReady(c, 1, s.appEpoch, number);
  }

  /** Room, a key and a number: the ACK goes out. */
  ghost predicate CanAnswer(e: Endpoint) {
    && !e.closed && e.snd.appSecret.Some? && e.snd.prevEpoch < e.snd.appEpoch && e.snd.appEpoch > HANDSHAKE_EPOCH
    && e.snd.appSeq < MAX_SEQUENCE_NUMBER && |e.snd.queueTx| < e.snd.config.maxQueueTx
  }

  lemma AnswerSucceeds(e: Endpoint, requested: bool)
    requires CanAnswer(e)
    ensures SendOutcome(e, ProcessKeyUpdate(requested)).failure.None?
  {
  }

  /** The peer can take in the next update and answer it. */
  ghost predicate Receptive(s: Sender, p: Endpoint) {
    Idle(p.rcv) && Hears(p.rcv, s.appEpoch, NumberFor(s, s.appEpoch)) && CanAnswer(p)
  }

  /** The peer `e` owes `p` an ACK for the update it can read. */
  ghost predicate Taken(e: Endpoint, p: Endpoint) {
    && Owed(e, p) && !e.closed && e.rcv.released && HasComplete(e.rcv.queue, KeyUpdate, e.rcv.peerMsgSeq)
    && SendOutcome(e, ProcessKeyUpdate(true)).failure.None?
  }

  lemma TakenFrom(s: Sender, p: Endpoint, record: Record, garbage: nat, e: Endpoint, q: Endpoint)
    requires Direction(s, p.rcv, p.snd) && DirectionInStep(s, p.rcv, p.snd) && p.rcv.released
    requires Newest(p.rcv) == s.appEpoch && Receptive(s, p)
    requires CreateKeyUpdate(s, 1).failure.None? && q.snd == CreateKeyUpdate(s, 1).sender
    requires |q.snd.sent| == |s.sent| + 1 && record == q.snd.sent[|s.sent|]
    requires e.snd == Acknowledged(p.snd, p.rcv, record, garbage) && e.rcv == Receive(p.rcv, record, garbage)
    requires e.closed == p.closed
    ensures Taken(e, q) && e.snd == p.snd && q.snd.appEpoch == s.appEpoch + 1
  {
    KeyUpdateResult(s, 1);
    UpdateTaken(s, p.rcv, p.snd, record, garbage);
    AcknowledgedIs(p.snd, p.rcv, record, garbage);
    ReceiveReleased(p.rcv, record, garbage);
    AnswerSucceeds(e, true);
  }

  /** The update started by `who`, and the step that brings it to the peer. */
  lemma UpdateDelivered(sys: System, who: Side, garbage: nat)
    requires InLockstep(sys) && Enabled(sys, Step(who, StartKeyUpdate))
    requires Receptive(sys.At(who).snd, sys.At(who.Peer()))
    ensures var first, deliver := Next(sys, Step(who, StartKeyUpdate)), Delivery(sys, who, garbage);
            && Enabled(first, deliver)
            && var mid := Next(first, deliver);
               && Taken(mid.At(who.Peer()), mid.At(who))
               && mid.At(who).rcv == sys.At(who).rcv && mid.At(who.Peer()).snd == sys.At(who.Peer()).snd
               && mid.At(who).snd.appEpoch == sys.At(who).snd.appEpoch + 1
  {
    var start, n := Step(who, StartKeyUpdate), |sys.At(who).snd.sent|;
    var e, p := sys.At(who), sys.At(who.Peer());
    assert PairInStep(e, p);
    KeyUpdateResult(e.snd, 1);
    StartedHalves(sys, who);
    var first := Next(sys, start);
    DeliveredHalves(first, who.Peer(), n, garbage);
    var mid := Next(first, Delivery(sys, who, garbage));
    TakenFrom(e.snd, p, first.At(who).snd.sent[n], garbage, mid.At(who.Peer()), mid.At(who));
  }

  function Delivery(sys: System, who: Side, garbage: nat): Step {
    Step(who.Peer(), Deliver(|sys.At(who).snd.sent|, garbage))
  }

  lemma StartedHalves(sys: System, who: Side)
    requires Enabled(sys, Step(who, StartKeyUpdate))
    ensures var t := Next(sys, Step(who, StartKeyUpdate));
            && t.At(who.Peer()) == sys.At(who.Peer()) && t.At(who).rcv == sys.At(who).rcv
            && t.At(who).snd == CreateKeyUpdate(sys.At(who).snd, 1).sender
  {
  }

  lemma DeliveredHalves(sys: System, to: Side, n: nat, garbage: nat)
    requires n < |sys.At(to.Peer()).snd.sent|
    ensures var step, e, p := Step(to, Deliver(n, garbage)), sys.At(to), sys.At(to.Peer());
            && Enabled(sys, step)
            && var t := Next(sys, step);
               && t.At(to.Peer()) == p && t.At(to).closed == e.closed
               && t.At(to).snd == Acknowledged(e.snd, e.rcv, p.snd.sent[n], garbage)
               && t.At(to).rcv == Receive(e.rcv, p.snd.sent[n], garbage)
  {
  }

  /** Four steps of a whole update: started, delivered, read, and its ACK delivered. */
  function UpdateSteps(sys: System, who: Side, garbage: nat, garbage': nat): seq<Step> {
    [Step(who, StartKeyUpdate), Delivery(sys, who, garbage), Step(who.Peer(), ProcessKeyUpdate(true)),
     Step(who, Deliver(|sys.At(who.Peer()).snd.sent|, garbage'))]
  }

  lemma FourSteps(sys: System, a: Step, b: Step, c: Step, d: Step)
    requires Enabled(sys, a) && Enabled(Next(sys, a), b) && Enabled(Next(Next(sys, a), b), c)
    requires Enabled(Next(Next(Next(sys, a), b), c), d)
    requires !a.action.RespondKeyUpdate? && !b.action.RespondKeyUpdate?
    requires !c.action.RespondKeyUpdate? && !d.action.RespondKeyUpdate?
    ensures GuardedRun(sys, [a, b, c, d]) && EnabledRun(sys, [a, b, c, d])
    ensures Run(sys, [a, b, c, d]) == Next(Next(Next(Next(sys, a), b), c), d)
  {
    var s3 := Next(Next(Next(sys, a), b), c);
    GuardedCons(s3, d, []);
    GuardedCons(Next(Next(sys, a), b), c, [d]);
    GuardedCons(Next(sys, a), b, [c, d]);
    GuardedCons(sys, a, [b, c, d]);
    assert [d] + [] == [d] && [c] + [d] == [c, d] && [b] + [c, d] == [b, c, d] && [a] + [b, c, d] == [a, b, c, d];
  }

  /** From any two connected peers in step: if the other side can take in an update and answer
      it, and this side can hear the answer, then starting an update, delivering it, reading it
      and delivering the ACK are possible one after the other, and leave both ends one epoch on
      with nothing in flight. */
  lemma UpdateCompletes(sys: System, who: Side, garbage: nat, garbage': nat)
    requires InLockstep(sys) && Enabled(sys, Step(who, StartKeyUpdate))
    requires Receptive(sys.At(who).snd, sys.At(who.Peer()))
    requires var r, back := sys.At(who).rcv, sys.At(who.Peer()).snd;
             Newest(r) == back.appEpoch && Hears(r, back.appEpoch, NumberFor(back, back.appEpoch))
    ensures GuardedRun(sys, UpdateSteps(sys, who, garbage, garbage'))
            && EnabledRun(sys, UpdateSteps(sys, who, garbage, garbage'))
    ensures var end := Run(sys, UpdateSteps(sys, who, garbage, garbage'));
            && InLockstep(end)
            && !KeyUpdateInFlight(end.At(who).snd) && end.At(who).snd.flight == []
            && end.At(who).snd.appEpoch == sys.At(who).snd.appEpoch + 1 == Newest(end.At(who.Peer()).rcv)
  {
    DeliveredInStep(sys, who, garbage);
    AnswerDelivered(Next(Next(sys, Step(who, StartKeyUpdate)), Delivery(sys, who, garbage)), who.Peer(), garbage');
    FourSteps(sys, Step(who, StartKeyUpdate), Delivery(sys, who, garbage), Step(who.Peer(), ProcessKeyUpdate(true)),
              Step(who, Deliver(|sys.At(who.Peer()).snd.sent|, garbage')));
  }

  lemma DeliveredInStep(sys: System, who: Side, garbage: nat)
    requires InLockstep(sys) && Enabled(sys, Step(who, StartKeyUpdate))
    requires Receptive(sys.At(who).snd, sys.At(who.Peer()))
    ensures var first, deliver := Next(sys, Step(who, StartKeyUpdate)), Delivery(sys, who, garbage);
            && Enabled(first, deliver)
            && var mid := Next(first, deliver);
               && InLockstep(mid) && Taken(mid.At(who.Peer()), mid.At(who))
               && mid.At(who).rcv == sys.At(who).rcv && mid.At(who.Peer()).snd == sys.At(who.Peer()).snd
               && mid.At(who).snd.appEpoch == sys.At(who).snd.appEpoch + 1
  {
    UpdateDelivered(sys, who, garbage);
    NextInLockstep(sys, Step(who, StartKeyUpdate));
    NextInLockstep(Next(sys, Step(who, StartKeyUpdate)), Delivery(sys, who, garbage));
  }

  /** The update read, and its ACK delivered. */
  lemma AnswerDelivered(mid: System, to: Side, garbage: nat)
    requires InLockstep(mid) && Taken(mid.At(to), mid.At(to.Peer()))
    requires var r, back := mid.At(to.Peer()).rcv, mid.At(to).snd;
             Newest(r) == back.appEpoch && Hears(r, back.appEpoch, NumberFor(back, back.appEpoch))
    ensures var read := Step(to, ProcessKeyUpdate(true));
            var answer := Step(to.Peer(), Deliver(|mid.At(to).snd.sent|, garbage));
            && Enabled(mid, read) && Enabled(Next(mid, read), answer)
            && var end := Next(Next(mid, read), answer);
               && InLockstep(end) && !KeyUpdateInFlight(end.At(to.Peer()).snd) && end.At(to.Peer()).snd.flight == []
               && end.At(to.Peer()).snd.appEpoch == mid.At(to.Peer()).snd.appEpoch == Newest(end.At(to).rcv)
  {
    var read, answer := Step(to, ProcessKeyUpdate(true)), Step(to.Peer(), Deliver(|mid.At(to).snd.sent|, garbage));
    assert PairInStep(mid.At(to), mid.At(to.Peer()));
    ProcessAcks(mid.At(to), true);
    UpdateAcknowledged(mid, to, true, garbage);
    NextInLockstep(mid, read);
    NextInLockstep(Next(mid, read), answer);
    var end := Next(Next(mid, read), answer);
    assert DirectionInStep(end.At(to.Peer()).snd, end.At(to).rcv, end.At(to).snd);
  }

  // ----- The ACK of a handshake flight -----

  function Epoch2Count(queue: seq<Item>): nat {
    if queue == [] then 0
    else Epoch2Count(queue[..|queue| - 1]) + if queue[|queue| - 1].epoch == HANDSHAKE_EPOCH then 1 else 0
  }

  /** With room for all, an ACK for the queue lists every epoch-2 record in it. */
  lemma {:induction false} AllListed(queue: seq<Item>)
    requires Epoch2Count(queue) <= MAX_TRACKED
    ensures |HandshakeNumbers(queue)| == Epoch2Count(queue)
    ensures forall n :: Queued(queue, n) ==> n in HandshakeNumbers(queue)
    decreases |queue|
  {
    if queue != [] {
      var rest := queue[..|queue| - 1];
      AllListed(rest);
      forall n | Queued(queue, n)
        ensures n in HandshakeNumbers(queue)
      {
        var j :| 0 <= j < |queue| && queue[j].epoch == HANDSHAKE_EPOCH && n == (queue[j].epoch, queue[j].number);
        if j < |rest| {
          assert rest[j] == queue[j] && Queued(rest, n);
        }
      }
    }
  }

  /** Every epoch-2 record of the flight that is not acknowledged is queued at the other end. */
  ghost predicate FlightQueued(s: Sender, queue: seq<Item>) {
    && (exists i :: 0 <= i < |s.flight| && s.flight[i].epoch == HANDSHAKE_EPOCH)
    && forall i :: 0 <= i < |s.flight| && s.flight[i].epoch == HANDSHAKE_EPOCH && !s.flight[i].acked ==>
      Queued(queue, (s.flight[i].epoch, s.flight[i].sendSeq))
  }

  lemma QueuedEncodable(s: Sender, r: Receiver)
    requires SenderValid(s) && ReceiverValid(r) && Genuine(s, r) && r.peer == s.side && TrackedGenuine(r)
    ensures Encodable(HandshakeNumbers(r.queue))
  {
    var numbers := HandshakeNumbers(r.queue);
    HandshakeNumbersQueued(r.queue);
    assert Power256(8) > 0xFFFF_FFFF_FFFF by {
      assert Power256(3) == 0x100_0000;
      assert Power256(6) == 0x1_0000_0000_0000;
    }
    forall i | 0 <= i < |numbers|
      ensures numbers[i].0 < Power256(8) && numbers[i].1 < Power256(8)
    {
      var n := numbers[i];
      assert Queued(r.queue, n) && AcceptedNumber(r, n);
      var o :| o in r.accepted && o.epoch == n.0 && o.number == n.1 && o.payload.HandshakePart?;
      AcceptedBounds(s, r, o);
    }
  }

  lemma HandshakeAckArrives(s: Sender, r: Receiver, number: nat, body: seq<nat>, garbage: nat)
    requires ReceiverValid(r)
    ensures Acknowledged(s, r, RecordOf(r.peer, HANDSHAKE_EPOCH, number, AckData(body)), garbage)
            == if r.hsSecret.Some? && Hears(r, HANDSHAKE_EPOCH, number) then ProcessAck(s, body) else s
  {
    OpenExact(r, HANDSHAKE_EPOCH, number, AckData(body), garbage);
    OpenSound(r, HANDSHAKE_EPOCH, number, AckData(body), garbage);
  }

  lemma QueuedFlightEnds(s: Sender, queue: seq<Item>)
    requires FlightQueued(s, queue) && Epoch2Count(queue) <= MAX_TRACKED && Encodable(HandshakeNumbers(queue))
    ensures ProcessAck(s, EncodeAck(HandshakeNumbers(queue))).flight == []
  {
    AllListed(queue);
    AckClearsExact(s, HandshakeNumbers(queue));
  }

  /** During the handshake, when all of the peer's flight is queued here and the ACK has room
      for it, the ACK sent from the queue ends the flight exactly when the peer still holds the
      handshake keys, and hears it. */
  lemma HandshakeAckClears(sys: System, who: Side, garbage: nat)
    requires LinkValid(sys) && Enabled(sys, Step(who, Action.SendHandshakeAck))
    requires FlightQueued(sys.At(who.Peer()).snd, sys.At(who).rcv.queue)
    requires Epoch2Count(sys.At(who).rcv.queue) <= MAX_TRACKED
    ensures var mid, n := Next(sys, Step(who, Action.SendHandshakeAck)), |sys.At(who).snd.sent|;
            var p := sys.At(who.Peer());
            && |mid.At(who).snd.sent| == n + 1 && mid.At(who.Peer()) == p
            && mid.At(who).snd.sent[n].payload.AckData?
            && Enabled(mid, Step(who.Peer(), Deliver(n, garbage)))
            && var t := Next(mid, Step(who.Peer(), Deliver(n, garbage))).At(who.Peer()).snd;
               t.flight == []
               <==> p.rcv.hsSecret.Some? && Hears(p.rcv, HANDSHAKE_EPOCH, mid.At(who).snd.sent[n].number)
  {
    var send, n := Step(who, Action.SendHandshakeAck), |sys.At(who).snd.sent|;
    var e, p := sys.At(who), sys.At(who.Peer());
    assert Direction(e.snd, p.rcv, p.snd) && Direction(p.snd, e.rcv, e.snd);
    var body := EncodeAck(HandshakeNumbers(e.rcv.queue));
    EmitCiphertextExtends(e.snd, HANDSHAKE_EPOCH, false, AckData(body));
    var record := RecordOf(e.snd.side, HANDSHAKE_EPOCH, e.snd.hsSeq, AckData(body));
    SentThenDelivered(sys, send, n, record, garbage);
    QueuedEncodable(p.snd, e.rcv);
    QueuedFlightEnds(p.snd, e.rcv.queue);
    HandshakeAckArrives(p.snd, p.rcv, e.snd.hsSeq, body, garbage);
  }
}
