/** A KeyUpdate whose ACK is lost: once it is sent again after the peer has read it, it stays
    in flight for good, and no further update can be started. */
module Stranding {
  import opened Handshakes
  import opened RecordNumbers
  import opened Records
  import opened Reassembly
  import opened SendSide
  import opened ReceiveSide
  import opened Link
  import opened Lockstep
  import opened KeyUpdateRun

  predicate NotIn(n: Number, record: Record) {
    record.payload.AckData? ==> n !in DecodeAck(record.payload.bytes)
  }

  /** Neither tracked for the next ACK nor listed by one already sent. */
  ghost predicate Unlisted(n: Number, r: Receiver, back: Sender) {
    && n !in r.received
    && forall i :: 0 <= i < |back.sent| ==> NotIn(n, back.sent[i])
  }

  function NumberOf(e: Entry): Number {
    (e.epoch, e.sendSeq)
  }

  /** The receiver has read the KeyUpdate in flight, and no ACK names the record that stands
      for it. */
  ghost predicate Stranded(s: Sender, r: Receiver, back: Sender) {
    && KeyUpdateInFlight(s) && s.prevEpoch < Newest(r)
    && forall i :: 0 <= i < |s.flight| ==> Unlisted(NumberOf(s.flight[i]), r, back)
  }

  ghost predicate SideStranded(sys: System, who: Side) {
    Stranded(sys.At(who).snd, sys.At(who.Peer()).rcv, sys.At(who.Peer()).snd)
  }

  // ----- The sender's steps -----

  /** Keys and flight as they were, or the flight dropped. */
  lemma SameFlightStranded(s: Sender, t: Sender, r: Receiver, back: Sender)
    requires Stranded(s, r, back) && t.prevSecret == s.prevSecret && t.prevEpoch == s.prevEpoch
    requires t.flight == s.flight || t.flight == []
    ensures Stranded(t, r, back)
  {
  }

  /** No ACK can list a number that has not been used. */
  lemma FreshUnlisted(s: Sender, r: Receiver, back: Sender, n: Number)
    requires Direction(s, r, back) && n.0 >= HANDSHAKE_EPOCH
    requires forall i :: 0 <= i < |s.sent| ==> !SameSlot(s.sent[i], RecordOf(s.side, n.0, n.1, CloseNotify))
    ensures Unlisted(n, r, back)
  {
    NotAccepted(s, r, n);
    forall i | 0 <= i < |back.sent|
      ensures NotIn(n, back.sent[i])
    {
      assert GenuineAck(r, back.sent[i]);
    }
  }

  lemma NotAccepted(s: Sender, r: Receiver, n: Number)
    requires Genuine(s, r) && n.0 >= HANDSHAKE_EPOCH
    requires forall i :: 0 <= i < |s.sent| ==> !SameSlot(s.sent[i], RecordOf(s.side, n.0, n.1, CloseNotify))
    ensures !AcceptedNumber(r, n)
  {
  }

  /** The entry in flight after a resend stands for a number never used before. */
  lemma ResentEntry(s: Sender, e: Entry)
    requires KeysValid(s) && s.flight == [e] && !e.acked && s.prevSecret.Some? && e.epoch == s.prevEpoch
    requires FlightResend(s).failure.None?
    ensures var t := FlightResend(s).sender;
            && t.flight == [e.(sendSeq := s.prevSeq)] && t.prevSecret == s.prevSecret && t.prevEpoch == s.prevEpoch
  {
    var s0 := s.(flight := [], datagramSealed := true);
    assert s.flight[0] == e && s.flight[1..] == [];
    var o := EmitAgain(s0, e);
    EmitFrame(s0, e.epoch, false, e.payload);
    assert ResendEntries(o.sender, []) == (Outcome(o.sender, None), []);
    assert ResendEntries(s0, [e]).1 == [e.(sendSeq := s.prevSeq)] + [];
  }

  lemma ResendUnlisted(s: Sender, r: Receiver, back: Sender)
    requires Direction(s, r, back) && FlightInStep(s) && KeyUpdateInFlight(s) && FlightResend(s).failure.None?
    ensures var t := FlightResend(s).sender;
            && t.prevSecret == s.prevSecret && t.prevEpoch == s.prevEpoch
            && forall i :: 0 <= i < |t.flight| ==> Unlisted(NumberOf(t.flight[i]), r, back)
  {
    if s.flight != [] {
      assert s.flight == [s.flight[0]];
      ResentEntry(s, s.flight[0]);
      PreviousUnused(s, CloseNotify);
      FreshUnlisted(s, r, back, (s.prevEpoch, s.prevSeq));
    }
  }

  /** An ACK that does not list the update changes nothing. */
  lemma OtherAckIgnored(s: Sender, body: seq<nat>)
    requires KeysValid(s) && FlightInStep(s) && KeyUpdateInFlight(s)
    requires forall i :: 0 <= i < |s.flight| ==> NumberOf(s.flight[i]) !in DecodeAck(body)
    ensures ProcessAck(s, body) == s
  {
    assert MarkAcked(s.flight, DecodeAck(body)) == s.flight;
    assert !HandshakeAcked(s.flight);
    if s.flight != [] {
      assert !s.flight[0].acked;
    }
  }

  lemma AcksIgnored(e: Endpoint, p: Endpoint, record: Record, garbage: nat)
    requires PairInStep(e, p) && Stranded(e.snd, p.rcv, p.snd) && record in p.snd.sent
    ensures Acknowledged(e.snd, e.rcv, record, garbage) == e.snd
  {
    AcknowledgedIs(e.snd, e.rcv, record, garbage);
    if record.payload.AckData? {
      forall i | 0 <= i < |e.snd.flight|
        ensures NumberOf(e.snd.flight[i]) !in DecodeAck(record.payload.bytes)
      {
        var j :| 0 <= j < |p.snd.sent| && p.snd.sent[j] == record;
        assert NotIn(NumberOf(e.snd.flight[i]), p.snd.sent[j]);
      }
      OtherAckIgnored(e.snd, record.payload.bytes);
    }
  }

  /** Whatever the sender itself does. */
  lemma OwnActStranded(e: Endpoint, p: Endpoint, a: Action)
    requires PairInStep(e, p) && Stranded(e.snd, p.rcv, p.snd) && SendOutcome(e, a).failure.None?
    requires a.SendData? || a.Close? || a.Resend? || a.ProcessKeyUpdate? || a.EnableEncryption? || a.Release?
             || a.PollPacket? || a.PurgeHandled?
    ensures Stranded(SendAfter(e, a), p.rcv, p.snd)
  {
    if a.Resend? {
      ResendUnlisted(e.snd, p.rcv, p.snd);
    } else {
      UnsavedKeepsFlight(e, a);
      SameFlightStranded(e.snd, SendAfter(e, a), p.rcv, p.snd);
    }
  }

  lemma UnsavedKeepsFlight(e: Endpoint, a: Action)
    requires a.SendData? || a.Close? || a.ProcessKeyUpdate? || a.EnableEncryption? || a.Release?
             || a.PollPacket? || a.PurgeHandled?
    ensures var t := SendAfter(e, a);
            && t.prevSecret == e.snd.prevSecret && t.prevEpoch == e.snd.prevEpoch
            && (t.flight == e.snd.flight || t.flight == [])
  {
    match a
    case SendData(bytes) => EmitFrame(e.snd, e.snd.appEpoch, false, AppData(bytes));
    case Close => EmitFrame(e.snd, e.snd.appEpoch, false, CloseNotify);
    case ProcessKeyUpdate(_) => AckKeepsFlight(e);
    case _ =>
  }

  lemma AckKeepsFlight(e: Endpoint)
    ensures SameKeys(e.snd, AckOutcome(e).sender) && AckOutcome(e).sender.flight == e.snd.flight
  {
    if e.rcv.received != [] {
      var epoch := if e.snd.appSecret.Some? then e.snd.appEpoch else HANDSHAKE_EPOCH;
      EmitFrame(e.snd, epoch, false, AckData(EncodeAck(e.rcv.received)));
    }
  }

  // ----- The peer's steps -----

  /** Nothing more is listed, and the receiver does not go back. */
  lemma PeerStranded(s: Sender, r: Receiver, r': Receiver, back: Sender, back': Sender)
    requires Stranded(s, r, back) && Newest(r') == Newest(r) && r'.received == r.received
    requires back.sent <= back'.sent
    requires forall i :: |back.sent| <= i < |back'.sent| ==> !back'.sent[i].payload.AckData?
    ensures Stranded(s, r', back')
  {
    forall k, i | 0 <= k < |s.flight| && 0 <= i < |back'.sent|
      ensures NotIn(NumberOf(s.flight[k]), back'.sent[i])
    {
      assert Unlisted(NumberOf(s.flight[k]), r, back);
      if i < |back.sent| {
        assert back'.sent[i] == back.sent[i] && NotIn(NumberOf(s.flight[k]), back.sent[i]);
      }
    }
    forall k | 0 <= k < |s.flight|
      ensures Unlisted(NumberOf(s.flight[k]), r', back')
    {
      assert Unlisted(NumberOf(s.flight[k]), r, back);
      assert forall i :: 0 <= i < |back'.sent| ==> NotIn(NumberOf(s.flight[k]), back'.sent[i]);
    }
  }

  /** The peer has no KeyUpdate to read: it has read the one in flight. */
  lemma NothingToRead(s: Sender, r: Receiver, back: Sender)
    requires Direction(s, r, back) && DirectionInStep(s, r, back) && Stranded(s, r, back)
    ensures !HasComplete(r.queue, KeyUpdate, r.peerMsgSeq)
  {
    if HasComplete(r.queue, KeyUpdate, r.peerMsgSeq) {
      ReadyUpdate(s, r);
      assert false;
    }
  }

  /** A record under the number of the update in flight carries that update, which has been
      read, so it is not tracked again. */
  lemma StaleNotTracked(s: Sender, r: Receiver, back: Sender, o: Opened)
    requires Direction(s, r, back) && DirectionInStep(s, r, back) && Stranded(s, r, back)
    requires RecordOf(s.side, o.epoch, o.number, o.payload) in s.sent
    requires s.flight != [] && NumberOf(s.flight[0]) == (o.epoch, o.number)
    ensures Dispatch(r, o).received == r.received
  {
    var e := s.flight[0];
    assert EntrySent(s, e);
    var i :| 0 <= i < |s.sent| && s.sent[i] == RecordOf(s.side, e.epoch, e.sendSeq, e.payload);
    var j :| 0 <= j < |s.sent| && s.sent[j] == RecordOf(s.side, o.epoch, o.number, o.payload);
    assert SameSlot(s.sent[i], s.sent[j]);
    assert i == j && o.payload == e.payload;
    assert o.payload.part.seqNo < r.peerMsgSeq;
  }

  lemma DispatchTracks(r: Receiver, o: Opened, n: Number)
    requires n !in r.received && n != (o.epoch, o.number)
    ensures n !in Dispatch(r, o).received
  {
  }

  lemma DispatchUnlisted(s: Sender, r: Receiver, back: Sender, o: Opened)
    requires Direction(s, r, back) && DirectionInStep(s, r, back) && Stranded(s, r, back)
    requires RecordOf(s.side, o.epoch, o.number, o.payload) in s.sent
    ensures Stranded(s, Dispatch(r, o), back)
  {
    DispatchSlots(r, o);
    forall k | 0 <= k < |s.flight|
      ensures Unlisted(NumberOf(s.flight[k]), Dispatch(r, o), back)
    {
      assert k == 0 && Unlisted(NumberOf(s.flight[0]), r, back);
      if NumberOf(s.flight[0]) == (o.epoch, o.number) {
        StaleNotTracked(s, r, back, o);
      } else {
        DispatchTracks(r, o, NumberOf(s.flight[0]));
      }
    }
  }

  lemma CommitStranded(s: Sender, r: Receiver, back: Sender, o: Opened)
    requires Stranded(s, r, back)
    ensures Stranded(s, Commit(r, o), back)
  {
    CommitKeepsNewest(r, o);
    CommitTouches(r, o);
    forall k | 0 <= k < |s.flight|
      ensures Unlisted(NumberOf(s.flight[k]), Commit(r, o), back)
    {
      assert Unlisted(NumberOf(s.flight[k]), r, back);
    }
  }

  lemma ReceiveStranded(s: Sender, r: Receiver, back: Sender, record: Record, garbage: nat)
    requires Direction(s, r, back) && DirectionInStep(s, r, back) && Stranded(s, r, back) && record in s.sent
    ensures Stranded(s, Receive(r, record, garbage), back)
  {
    match record
    case Plaintext(number, payload) => DispatchUnlisted(s, r, back, Opened(0, number, payload));
    case Ciphertext(_, _, _, _, _) =>
      if r.peerEncryption && Open(r, record, garbage).Some? {
        var o := Open(r, record, garbage).value;
        OpenedGenuine(s, r, record, garbage);
        CommitDirection(s, r, back, record, garbage);
        CommitInStep(s, r, back, o);
        CommitStranded(s, r, back, o);
        DispatchUnlisted(s, Commit(r, o), back, o);
      }
  }

  /** More records sent back that are no ACKs. */
  lemma BackStranded(s: Sender, r: Receiver, back: Sender, back': Sender)
    requires Stranded(s, r, back) && back.sent <= back'.sent
    requires forall i :: |back.sent| <= i < |back'.sent| ==> !back'.sent[i].payload.AckData?
    ensures Stranded(s, r, back')
  {
    PeerStranded(s, r, r, back, back');
  }

  /** What the peer sends, but for the ACK of an update it reads, which it does not have. */
  lemma SendsNoAck(e: Endpoint, p: Endpoint, a: Action)
    requires PairInStep(e, p) && SendOutcome(e, a).failure.None?
    requires a.SendData? || a.Close? || a.Resend? || a.StartKeyUpdate? || a.RespondKeyUpdate? || a.EnableEncryption?
             || a.Release? || a.PollPacket? || a.PurgeHandled?
    ensures var t := SendAfter(e, a);
            && e.snd.sent <= t.sent
            && forall i :: |e.snd.sent| <= i < |t.sent| ==> !t.sent[i].payload.AckData?
  {
    match a
    case SendData(bytes) => EmitCiphertextExtends(e.snd, e.snd.appEpoch, false, AppData(bytes));
    case Close => EmitCiphertextExtends(e.snd, e.snd.appEpoch, false, CloseNotify);
    case Resend => ResendExtends(e.snd);
    case StartKeyUpdate => KeyUpdateExtends(e.snd, 1);
    case RespondKeyUpdate => KeyUpdateExtends(e.snd, 0);
    case _ =>
  }

  lemma ReceivesNothing(e: Endpoint, a: Action)
    requires a.SendData? || a.Close? || a.Resend? || a.StartKeyUpdate? || a.RespondKeyUpdate? || a.EnableEncryption?
             || a.Release? || a.PollPacket? || a.PurgeHandled?
    ensures RecvAfter(e, a).slots == e.rcv.slots && RecvAfter(e, a).received == e.rcv.received
  {
  }

  /** Whatever the peer does. */
  lemma PeerActStranded(e: Endpoint, p: Endpoint, a: Action)
    requires PairInStep(e, p) && Stranded(p.snd, e.rcv, e.snd) && SendOutcome(e, a).failure.None?
    requires a.SendData? || a.Close? || a.Resend? || a.StartKeyUpdate? || a.RespondKeyUpdate? || a.EnableEncryption?
             || a.Release? || a.PollPacket? || a.PurgeHandled?
    ensures Stranded(p.snd, RecvAfter(e, a), SendAfter(e, a))
  {
    SendsNoAck(e, p, a);
    ReceivesNothing(e, a);
    PeerStranded(p.snd, e.rcv, RecvAfter(e, a), e.snd, SendAfter(e, a));
  }

  // ----- Whole runs -----

  /** What the endpoint `e` that acts shares with `p`, whichever of them is stranded. */
  lemma DeliverStranded(e: Endpoint, p: Endpoint, index: nat, garbage: nat)
    requires PairInStep(e, p) && index < |p.snd.sent|
    ensures var record := p.snd.sent[index];
            var s, r := Acknowledged(e.snd, e.rcv, record, garbage), Receive(e.rcv, record, garbage);
            && (Stranded(e.snd, p.rcv, p.snd) ==> Stranded(s, p.rcv, p.snd))
            && (Stranded(p.snd, e.rcv, e.snd) ==> Stranded(p.snd, r, s))
  {
    var record := p.snd.sent[index];
    var s, r := Acknowledged(e.snd, e.rcv, record, garbage), Receive(e.rcv, record, garbage);
    if Stranded(e.snd, p.rcv, p.snd) {
      AcksIgnored(e, p, record, garbage);
    }
    if Stranded(p.snd, e.rcv, e.snd) {
      ReceiveStranded(p.snd, e.rcv, e.snd, record, garbage);
      AcknowledgedIs(e.snd, e.rcv, record, garbage);
      AckSendsNothing(e.snd, record.payload);
      BackStranded(p.snd, r, e.snd, s);
    }
  }

  lemma ActStrands(e: Endpoint, p: Endpoint, a: Action)
    requires PairInStep(e, p) && SendOutcome(e, a).failure.None?
    requires a.SendData? || a.Close? || a.Resend? || a.StartKeyUpdate? || a.RespondKeyUpdate? || a.EnableEncryption?
             || a.Release? || a.PollPacket? || a.PurgeHandled? || a.ProcessKeyUpdate?
    requires a.StartKeyUpdate? || a.RespondKeyUpdate? ==> !KeyUpdateInFlight(e.snd)
    requires a.ProcessKeyUpdate? ==> HasComplete(e.rcv.queue, KeyUpdate, e.rcv.peerMsgSeq)
    ensures Stranded(e.snd, p.rcv, p.snd) ==> Stranded(SendAfter(e, a), p.rcv, p.snd)
    ensures Stranded(p.snd, e.rcv, e.snd) ==> Stranded(p.snd, RecvAfter(e, a), SendAfter(e, a))
  {
    if Stranded(e.snd, p.rcv, p.snd) {
      OwnActStranded(e, p, a);
    }
    if Stranded(p.snd, e.rcv, e.snd) {
      if a.ProcessKeyUpdate? {
        NothingToRead(p.snd, e.rcv, e.snd);
      } else {
        PeerActStranded(e, p, a);
      }
    }
  }

  lemma NextStranded(sys: System, step: Step, who: Side)
    requires InLockstep(sys) && Enabled(sys, step) && Guarded(sys.At(step.who), step.action)
    requires SideStranded(sys, who)
    ensures SideStranded(Next(sys, step), who)
  {
    var e, p := sys.At(step.who), sys.At(step.who.Peer());
    assert PairInStep(e, p);
    ActHalves(sys, step);
    ConnectedActions(sys, step);
    if step.action.Deliver? {
      DeliverStranded(e, p, step.action.index, step.action.garbage);
    } else {
      ActStrands(e, p, step.action);
    }
    NextSides(sys, step, who);
  }

  lemma NextSides(sys: System, step: Step, who: Side)
    requires Enabled(sys, step)
    ensures Next(sys, step).At(who) == if who == step.who then Act(sys, step) else sys.At(who)
    ensures Next(sys, step).At(who.Peer()) == if who == step.who then sys.At(who.Peer()) else Act(sys, step)
  {
  }

  /** Once stranded, always stranded: whatever is sent, resent, lost or delivered from then
      on, the KeyUpdate stays in flight, and no other can be started. */
  lemma {:induction false} StrandedForever(sys: System, steps: seq<Step>, who: Side)
    requires InLockstep(sys) && SideStranded(sys, who) && GuardedRun(sys, steps)
    ensures EnabledRun(sys, steps)
    ensures var end := Link.Run(sys, steps);
            && KeyUpdateInFlight(end.At(who).snd) && SideStranded(end, who)
            && !Enabled(end, Step(who, StartKeyUpdate))
    decreases |steps|
  {
    GuardedIsEnabled(sys, steps);
    if steps != [] {
      NextInLockstep(sys, steps[0]);
      NextStranded(sys, steps[0], who);
      StrandedForever(Next(sys, steps[0]), steps[1..], who);
    }
  }

  /** Sending the KeyUpdate in flight again strands it exactly when the peer has already read
      it: ACKs name the number it had before, and a copy of what has been read is not tracked
      for another. */
  lemma ResendStrandsExact(sys: System, who: Side)
    requires InLockstep(sys) && KeyUpdateInFlight(sys.At(who).snd)
    requires Enabled(sys, Step(who, Action.Resend))
    ensures SideStranded(Next(sys, Step(who, Action.Resend)), who)
            <==> sys.At(who).snd.prevEpoch < Newest(sys.At(who.Peer()).rcv)
  {
    var e, p := sys.At(who), sys.At(who.Peer());
    assert PairInStep(e, p);
    ActHalves(sys, Step(who, Action.Resend));
    NextSides(sys, Step(who, Action.Resend), who);
    ResendUnlisted(e.snd, p.rcv, p.snd);
  }

  // ----- A run that ends so -----

  /** The server's KeyUpdate is in flight, and there is room to send it again. */
  ghost predicate Repeatable(s: Sender) {
    && s.appSecret.Some? && s.prevSecret.Some? && s.prevEpoch + 1 == s.appEpoch && s.prevEpoch >= FIRST_APP_EPOCH
    && s.prevSeq < MAX_SEQUENCE_NUMBER && |s.flight| == 1 && s.flight[0].epoch == s.prevEpoch && !s.flight[0].acked
    && |s.queueTx| < s.config.maxQueueTx
  }

  lemma RepeatSucceeds(s: Sender)
    requires Repeatable(s)
    ensures FlightResend(s).failure.None?
  {
    var s0, e := s.(flight := [], datagramSealed := true), s.flight[0];
    assert s.flight == [e] && s.flight[1..] == [];
    EmitSucceeds(s0, e.epoch, false, e.payload);
    assert ResendEntries(EmitAgain(s0, e).sender, []) == (Outcome(EmitAgain(s0, e).sender, None), []);
  }

  /** The counter the old keys go on with. */
  lemma UpdateNumbers(s: Sender, request: nat)
    requires s.prevSecret.None? && s.appEpoch >= FIRST_APP_EPOCH && CreateKeyUpdate(s, request).failure.None?
    ensures CreateKeyUpdate(s, request).sender.prevSeq == s.appSeq + 1
  {
    EmittedSender(NextMessage(s), s.appEpoch, true, HandshakePart(KeyUpdatePart(s.nextMsgSeq, request)));
  }

  lemma UpdateRepeatable(config: Config, maxQueueRx: nat)
    requires config.maxQueueTx >= 3
    ensures var sys := ConnectedSystem(config, maxQueueRx);
            Enabled(sys, EXCHANGE[0]) && Repeatable(Next(sys, EXCHANGE[0]).server.snd)
  {
    var sys := ConnectedSystem(config, maxQueueRx);
    ServerUpdates(config, maxQueueRx);
    BothConnect(config, maxQueueRx);
    assert Direction(sys.server.snd, sys.client.rcv, sys.client.snd);
    KeyUpdateSucceeds(sys.server.snd, 1);
    KeyUpdateResult(sys.server.snd, 1);
    UpdateNumbers(sys.server.snd, 1);
  }

  /** The client owes an answer only once it has read the update. */
  lemma ReadHasRotated(sys: System)
    requires InLockstep(sys) && KeyUpdateInFlight(sys.server.snd)
    requires sys.client.rcv.peerMsgSeq == sys.server.snd.nextMsgSeq
    ensures sys.server.snd.prevEpoch < Newest(sys.client.rcv)
  {
    assert DirectionInStep(sys.server.snd, sys.client.rcv, sys.client.snd);
    assert Direction(sys.server.snd, sys.client.rcv, sys.client.snd);
  }

  const REPEATED := [Step(Server, Action.Resend)]

  /** The server's update is sent, read and acknowledged; the ACK never arrives, and the update
      is sent again. */
  lemma Repeats(sys: System)
    requires InLockstep(sys) && Repeatable(sys.server.snd)
    requires sys.client.rcv.peerMsgSeq == sys.server.snd.nextMsgSeq
    ensures EnabledRun(sys, REPEATED) && SideStranded(Run(sys, REPEATED), Server) && InLockstep(Run(sys, REPEATED))
  {
    RepeatSucceeds(sys.server.snd);
    ReadHasRotated(sys);
    ResendStrandsExact(sys, Server);
    OneStep(sys, REPEATED[0]);
    NextInLockstep(sys, REPEATED[0]);
  }

  lemma ReadyToRepeat(config: Config, maxQueueRx: nat)
    requires config.maxQueueTx >= 3 && maxQueueRx >= 1
    ensures var sys := ConnectedSystem(config, maxQueueRx);
            && EnabledRun(sys, EXCHANGE) && InLockstep(Run(sys, EXCHANGE))
            && Repeatable(Run(sys, EXCHANGE).server.snd)
            && Run(sys, EXCHANGE).client.rcv.peerMsgSeq == Run(sys, EXCHANGE).server.snd.nextMsgSeq
  {
    var sys := ConnectedSystem(config, maxQueueRx);
    BothConnect(config, maxQueueRx);
    Exchanges(config, maxQueueRx);
    ConnectedInLockstep(sys);
    RunInLockstep(sys, EXCHANGE);
    UpdateRepeatable(config, maxQueueRx);
    KeyUpdateResult(sys.server.snd, 1) by {
      assert Direction(sys.server.snd, sys.client.rcv, sys.client.snd);
    }
  }

  lemma Composes(sys: System, first: seq<Step>, second: seq<Step>, third: seq<Step>)
    requires EnabledRun(sys, first) && EnabledRun(Run(sys, first), second)
    requires EnabledRun(Run(Run(sys, first), second), third)
    ensures EnabledRun(sys, first + second + third)
    ensures Run(sys, first + second + third) == Run(Run(Run(sys, first), second), third)
  {
    RunAppend(sys, first, second);
    RunAppend(sys, first + second, third);
  }

  /** From two new engines, with room for three datagrams: connect, let the server update and
      the client read it, and send it again before the ACK has come. */
  lemma StrandedRun(config: Config, maxQueueRx: nat)
    requires config.maxQueueTx >= 3 && maxQueueRx >= 1
    ensures var sys := NewSystem(config, maxQueueRx);
            && EnabledRun(sys, ConnectSteps() + EXCHANGE + REPEATED)
            && var end := Run(sys, ConnectSteps() + EXCHANGE + REPEATED);
               InLockstep(end) && SideStranded(end, Server)
  {
    BothConnect(config, maxQueueRx);
    ReadyToRepeat(config, maxQueueRx);
    Repeats(Run(ConnectedSystem(config, maxQueueRx), EXCHANGE));
    Composes(NewSystem(config, maxQueueRx), ConnectSteps(), EXCHANGE, REPEATED);
  }
}
