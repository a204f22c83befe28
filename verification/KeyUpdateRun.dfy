/** A run of two new engines that ends out of step: connected, one of them updates its keys,
    the other reads that, starts an update of its own and then answers. */
module KeyUpdateRun {
  import opened Handshakes
  import opened RecordNumbers
  import opened Records
  import opened Reassembly
  import opened SendSide
  import opened ReceiveSide
  import opened Link
  import opened Lockstep

  // ----- Runs in pieces -----

  lemma {:induction false} RunAppend(sys: System, steps: seq<Step>, more: seq<Step>)
    requires EnabledRun(sys, steps) && EnabledRun(Run(sys, steps), more)
    ensures EnabledRun(sys, steps + more) && Run(sys, steps + more) == Run(Run(sys, steps), more)
    decreases |steps|
  {
    if steps == [] {
      assert steps + more == more;
    } else {
      RunAppend(Next(sys, steps[0]), steps[1..], more);
      RunOne(sys, steps, more);
    }
  }

  lemma RunOne(sys: System, steps: seq<Step>, more: seq<Step>)
    requires steps != [] && Enabled(sys, steps[0]) && EnabledRun(Next(sys, steps[0]), steps[1..] + more)
    ensures EnabledRun(sys, steps + more) && Run(sys, steps + more) == Run(Next(sys, steps[0]), steps[1..] + more)
  {
    assert (steps + more)[1..] == steps[1..] + more;
  }

  lemma OneStep(sys: System, step: Step)
    requires Enabled(sys, step)
    ensures EnabledRun(sys, [step]) && Run(sys, [step]) == Next(sys, step)
  {
    assert [step][1..] == [];
  }

  lemma TwoSteps(sys: System, first: Step, second: Step)
    requires Enabled(sys, first) && Enabled(Next(sys, first), second)
    ensures EnabledRun(sys, [first, second]) && Run(sys, [first, second]) == Next(Next(sys, first), second)
  {
    OneStep(Next(sys, first), second);
    RunOne(sys, [first], [second]);
    assert [first] + [second] == [first, second] && [first][1..] + [second] == [second];
  }

  /** A guarded step in front of a guarded run. */
  lemma GuardedCons(sys: System, step: Step, rest: seq<Step>)
    requires Enabled(sys, step) && Guarded(sys.At(step.who), step.action) && GuardedRun(Next(sys, step), rest)
    ensures GuardedRun(sys, [step] + rest) && EnabledRun(sys, [step] + rest) && EnabledRun(Next(sys, step), rest)
    ensures Run(sys, [step] + rest) == Run(Next(sys, step), rest)
  {
    GuardedIsEnabled(Next(sys, step), rest);
    assert ([step] + rest)[1..] == rest;
  }

  // ----- Sends that do not fail -----

  /** Room in queue and flight, a key and a number: the send goes through. */
  lemma EmitSucceeds(s: Sender, epoch: nat, save: bool, payload: Payload)
    requires SecretFor(s, epoch).Some? && NumberFor(s, epoch) < MAX_SEQUENCE_NUMBER
    requires |s.queueTx| < s.config.maxQueueTx && (save ==> |s.flight| < MAX_FLIGHT)
    ensures var o := EmitCiphertext(s, epoch, save, payload);
            && o.failure.None? && o.sender.config == s.config && |o.sender.queueTx| <= |s.queueTx| + 1
  {
  }

  lemma KeyUpdateSucceeds(s: Sender, request: nat)
    requires s.appSecret.Some? && s.appSeq < MAX_SEQUENCE_NUMBER && s.appEpoch < MAX_EPOCH && s.nextMsgSeq < MAX_EPOCH
    requires |s.queueTx| < s.config.maxQueueTx && s.appEpoch > HANDSHAKE_EPOCH && s.prevEpoch < s.appEpoch
    ensures var o := CreateKeyUpdate(s, request);
            && o.failure.None? && o.sender.config == s.config && |o.sender.queueTx| <= |s.queueTx| + 1
            && o.sender.appSeq == 0
  {
    var part := HandshakePart(KeyUpdatePart(s.nextMsgSeq, request));
    EmitSucceeds(NextMessage(s), s.appEpoch, true, part);
    EmitFrame(NextMessage(s), s.appEpoch, true, part);
  }

  // ----- Connecting -----

  function Opening(side: Side): seq<Step> {
    [Step(side, Action.InstallHandshake), Step(side, Action.InstallApplication)]
  }

  function Releasing(side: Side): seq<Step> {
    [Step(side, Action.EnableEncryption), Step(side, Action.Release)]
  }

  function ConnectedEndpoint(config: Config, side: Side, maxQueueRx: nat): Endpoint {
    var s := NewSender(config, side);
    var r := NewReceiver(side.Peer(), maxQueueRx);
    Endpoint(
      s.(hsSecret := Some(HandshakeTraffic(side)), appSecret := Some(ApplicationTraffic(side))),
      r.(slots := [FreshSlot(FIRST_APP_EPOCH, ApplicationTraffic(side.Peer()))], peerEncryption := true,
         released := true),
      false, false)
  }

  function ConnectedSystem(config: Config, maxQueueRx: nat): System {
    System(ConnectedEndpoint(config, Client, maxQueueRx), ConnectedEndpoint(config, Server, maxQueueRx))
  }

  /** Keys installed, but nothing opened up. */
  function KeyedEndpoint(config: Config, side: Side, maxQueueRx: nat): Endpoint {
    var e := ConnectedEndpoint(config, side, maxQueueRx);
    e.(rcv := e.rcv.(hsSecret := Some(HandshakeTraffic(side.Peer())), peerEncryption := false, released := false))
  }

  lemma Opens(sys: System, config: Config, side: Side, maxQueueRx: nat)
    requires sys.At(side) == NewEndpoint(config, side, maxQueueRx)
    ensures EnabledRun(sys, Opening(side))
    ensures Run(sys, Opening(side)) == sys.Put(side, KeyedEndpoint(config, side, maxQueueRx))
  {
    TwoSteps(sys, Step(side, Action.InstallHandshake), Step(side, Action.InstallApplication));
    assert [] + [FreshSlot(FIRST_APP_EPOCH, ApplicationTraffic(side.Peer()))]
        == [FreshSlot(FIRST_APP_EPOCH, ApplicationTraffic(side.Peer()))];
  }

  lemma Releases(sys: System, config: Config, side: Side, maxQueueRx: nat)
    requires sys.At(side) == KeyedEndpoint(config, side, maxQueueRx)
    ensures EnabledRun(sys, Releasing(side))
    ensures Run(sys, Releasing(side)) == sys.Put(side, ConnectedEndpoint(config, side, maxQueueRx))
  {
    TwoSteps(sys, Step(side, Action.EnableEncryption), Step(side, Action.Release));
  }

  lemma Connects(sys: System, config: Config, side: Side, maxQueueRx: nat)
    requires sys.At(side) == NewEndpoint(config, side, maxQueueRx)
    ensures EnabledRun(sys, Opening(side) + Releasing(side))
    ensures Run(sys, Opening(side) + Releasing(side)) == sys.Put(side, ConnectedEndpoint(config, side, maxQueueRx))
  {
    Opens(sys, config, side, maxQueueRx);
    Releases(Run(sys, Opening(side)), config, side, maxQueueRx);
    RunAppend(sys, Opening(side), Releasing(side));
  }

  function ConnectSteps(): seq<Step> {
    (Opening(Client) + Releasing(Client)) + (Opening(Server) + Releasing(Server))
  }

  /** Two new engines do get connected: the lockstep results are about something. */
  lemma BothConnect(config: Config, maxQueueRx: nat)
    ensures EnabledRun(NewSystem(config, maxQueueRx), ConnectSteps())
    ensures Run(NewSystem(config, maxQueueRx), ConnectSteps()) == ConnectedSystem(config, maxQueueRx)
    ensures LinkValid(ConnectedSystem(config, maxQueueRx)) && Connected(ConnectedSystem(config, maxQueueRx))
  {
    var sys := NewSystem(config, maxQueueRx);
    Connects(sys, config, Client, maxQueueRx);
    var mid := Run(sys, Opening(Client) + Releasing(Client));
    Connects(mid, config, Server, maxQueueRx);
    RunAppend(sys, Opening(Client) + Releasing(Client), Opening(Server) + Releasing(Server));
    NewSystemValid(config, maxQueueRx);
    RunKeeps(sys, ConnectSteps());
  }

  // ----- The server updates, the client reads it -----

  const UPDATE := KeyUpdatePart(0, 1)
  const ARRIVED := Item(UPDATE, FIRST_APP_EPOCH, 0, false)

  lemma ServerUpdates(config: Config, maxQueueRx: nat)
    requires config.maxQueueTx >= 1
    ensures var sys := ConnectedSystem(config, maxQueueRx);
            && Enabled(sys, Step(Server, StartKeyUpdate))
            && var t := Next(sys, Step(Server, StartKeyUpdate));
               && t.client == sys.client && t.server.rcv == sys.server.rcv
               && t.server.snd.sent == [RecordOf(Server, FIRST_APP_EPOCH, 0, HandshakePart(UPDATE))]
  {
    var sys := ConnectedSystem(config, maxQueueRx);
    BothConnect(config, maxQueueRx);
    FirstUpdate(sys.server.snd, sys.client.rcv, sys.client.snd);
  }

  /** The first KeyUpdate of a connected server is its first record. */
  lemma FirstUpdate(s: Sender, r: Receiver, back: Sender)
    requires s == ConnectedEndpoint(s.config, Server, 0).snd && s.config.maxQueueTx >= 1 && Direction(s, r, back)
    ensures var o := CreateKeyUpdate(s, 1);
            && o.failure.None?
            && o.sender.sent == [RecordOf(Server, FIRST_APP_EPOCH, 0, HandshakePart(UPDATE))]
  {
    KeyUpdateSucceeds(s, 1);
    KeyUpdateResult(s, 1);
  }

  lemma UpdateOpens(r: Receiver, garbage: nat)
    requires r == ConnectedEndpoint(Config(0, 0, 0), Client, r.maxQueue).rcv
    ensures Open(r, RecordOf(Server, FIRST_APP_EPOCH, 0, HandshakePart(UPDATE)), garbage)
            == Some(Opened(FIRST_APP_EPOCH, 0, HandshakePart(UPDATE)))
  {
    ConnectedHolds(r);
    Pow2Even(FIELD_BITS);
    OpenExact(r, FIRST_APP_EPOCH, 0, HandshakePart(UPDATE), garbage);
  }

  /** The one epoch a connected client receives in, with nothing seen yet. */
  lemma ConnectedHolds(r: Receiver)
    requires r == ConnectedEndpoint(Config(0, 0, 0), Client, r.maxQueue).rcv
    ensures ReceiverValid(r) && r.peer == Server
    ensures ReceiveSide.Holds(r, FIRST_APP_EPOCH) && Unmistaken(r, FIRST_APP_EPOCH)
    ensures ExpectedAt(r, FIRST_APP_EPOCH) == 0 && ReplayCheck(r, FIRST_APP_EPOCH, 0)
  {
    assert Find(r.slots, FIRST_APP_EPOCH) == 0;
  }

  lemma UpdateQueued(r: Receiver)
    requires r.queue == [] && r.received == [] && r.peerMsgSeq == 0 && r.released && r.maxQueue >= 1
    ensures InsertPart(r, UPDATE, FIRST_APP_EPOCH, 0) == r.(queue := [ARRIVED], received := [(FIRST_APP_EPOCH, 0)])
  {
    assert Classify(r.queue, 0, true, r.maxQueue, ARRIVED) == Inserted(0);
    assert [][..0] + [ARRIVED] + [][0..] == [ARRIVED];
  }

  /** The connected client opens the update and queues it. */
  lemma UpdateArrives(r: Receiver, garbage: nat)
    requires r == ConnectedEndpoint(Config(0, 0, 0), Client, r.maxQueue).rcv && r.maxQueue >= 1
    ensures var t := Receive(r, RecordOf(Server, FIRST_APP_EPOCH, 0, HandshakePart(UPDATE)), garbage);
            && t.queue == [ARRIVED] && t.received == [(FIRST_APP_EPOCH, 0)]
            && t.peerMsgSeq == 0 && t.released && t.slots != []
  {
    var o := Opened(FIRST_APP_EPOCH, 0, HandshakePart(UPDATE));
    UpdateOpens(r, garbage);
    OpenedPartQueued(r, RecordOf(Server, FIRST_APP_EPOCH, 0, o.payload), garbage, o);
    CommitTouches(r, o);
    UpdateQueued(Commit(r, o));
  }

  lemma OpenedPartQueued(r: Receiver, record: Record, garbage: nat, o: Opened)
    requires record.Ciphertext? && r.peerEncryption && r.closeNotify.None?
    requires Open(r, record, garbage) == Some(o) && o.payload.HandshakePart?
    ensures Receive(r, record, garbage) == InsertPart(Commit(r, o), o.payload.part, o.epoch, o.number)
  {
    CommitTouches(r, o);
  }

  /** Recording a number leaves the queue and what goes with it alone. */
  lemma CommitTouches(r: Receiver, o: Opened)
    ensures var c := Commit(r, o);
            && c.queue == r.queue && c.received == r.received && c.peerMsgSeq == r.peerMsgSeq
            && c.released == r.released && c.maxQueue == r.maxQueue && c.closeNotify == r.closeNotify
            && |c.slots| == |r.slots|
  {
  }

  /** The one queued fragment is a whole KeyUpdate, ready to be read. */
  lemma UpdateIsComplete(queue: seq<Item>)
    requires queue == [ARRIVED]
    ensures HasComplete(queue, KeyUpdate, 0)
  {
    assert FirstUnhandled(queue) == 0 && queue[0..] == queue;
    assert Window(queue) == queue;
    assert Reached(UPDATE, 0) == 1;
  }

  // ----- The client answers while its own update is in flight -----

  /** An answer is owed, and nothing stands in the way of two more sends. */
  ghost predicate OwesAnswer(e: Endpoint) {
    && e.pendingResponse && !e.closed && e.rcv.released
    && e.snd.appSecret.Some? && e.snd.prevSecret.None? && e.snd.prevEpoch == 0
    && e.snd.appEpoch == FIRST_APP_EPOCH && e.snd.appSeq <= 1 && e.snd.nextMsgSeq == 0
    && |e.snd.queueTx| <= 1 && e.snd.config.maxQueueTx >= 3
  }

  lemma AckLeavesRoom(e: Endpoint)
    requires e.snd == ConnectedEndpoint(e.snd.config, Client, e.rcv.maxQueue).snd && e.snd.config.maxQueueTx >= 3
    ensures var o := AckOutcome(e);
            && o.failure.None? && |o.sender.queueTx| <= 1 && o.sender.appSeq <= 1 && SameKeys(e.snd, o.sender)
  {
    if e.rcv.received != [] {
      var payload := AckData(EncodeAck(e.rcv.received));
      EmitSucceeds(e.snd, FIRST_APP_EPOCH, false, payload);
      EmitFrame(e.snd, FIRST_APP_EPOCH, false, payload);
      EmittedSender(e.snd, FIRST_APP_EPOCH, false, payload);
    }
  }

  const EXCHANGE := [Step(Server, StartKeyUpdate), Step(Client, Deliver(0, 0)), Step(Client, ProcessKeyUpdate(true))]

  /** The server's update is sent, arrives and is read; the client owes an answer. */
  lemma Exchanges(config: Config, maxQueueRx: nat)
    requires config.maxQueueTx >= 3 && maxQueueRx >= 1
    ensures var sys := ConnectedSystem(config, maxQueueRx);
            && GuardedRun(sys, EXCHANGE) && EnabledRun(sys, EXCHANGE)
            && Enabled(sys, EXCHANGE[0])
            && Run(sys, EXCHANGE).server == Next(sys, EXCHANGE[0]).server
            && OwesAnswer(Run(sys, EXCHANGE).client) && Run(sys, EXCHANGE).client.rcv.peerMsgSeq == 1
  {
    var sys := ConnectedSystem(config, maxQueueRx);
    ServerUpdates(config, maxQueueRx);
    var sent := Next(sys, EXCHANGE[0]);
    ReceivesAndReads(config, maxQueueRx, sent);
    GuardedCons(sys, EXCHANGE[0], [EXCHANGE[1], EXCHANGE[2]]);
    assert [EXCHANGE[0]] + [EXCHANGE[1], EXCHANGE[2]] == EXCHANGE;
  }

  lemma ReceivesAndReads(config: Config, maxQueueRx: nat, sent: System)
    requires config.maxQueueTx >= 3 && maxQueueRx >= 1
    requires sent.client == ConnectedEndpoint(config, Client, maxQueueRx)
    requires sent.server.snd.sent == [RecordOf(Server, FIRST_APP_EPOCH, 0, HandshakePart(UPDATE))]
    ensures var rest := [Step(Client, Deliver(0, 0)), Step(Client, ProcessKeyUpdate(true))];
            && GuardedRun(sent, rest) && EnabledRun(sent, rest)
            && Run(sent, rest).server == sent.server
            && OwesAnswer(Run(sent, rest).client) && Run(sent, rest).client.rcv.peerMsgSeq == 1
  {
    var deliver, process := Step(Client, Deliver(0, 0)), Step(Client, ProcessKeyUpdate(true));
    ClientReceives(config, maxQueueRx, sent);
    ClientReads(Next(sent, deliver));
    GuardedCons(sent, deliver, [process]);
    assert [deliver] + [process] == [deliver, process];
  }

  lemma ClientReads(arrived: System)
    requires var e := arrived.client;
             && e.snd == ConnectedEndpoint(e.snd.config, Client, e.rcv.maxQueue).snd && e.snd.config.maxQueueTx >= 3
             && !e.closed && e.rcv.released && e.rcv.queue == [ARRIVED] && e.rcv.peerMsgSeq == 0
    ensures var process := Step(Client, ProcessKeyUpdate(true));
            && GuardedRun(arrived, [process]) && EnabledRun(arrived, [process])
            && var end := Run(arrived, [process]);
               end.server == arrived.server && OwesAnswer(end.client) && end.client.rcv.peerMsgSeq == 1
  {
    var process := Step(Client, ProcessKeyUpdate(true));
    UpdateIsComplete(arrived.client.rcv.queue);
    AckLeavesRoom(arrived.client);
    ReadOwes(arrived);
    GuardedCons(arrived, process, []);
    assert [process] + [] == [process];
  }

  lemma ClientReceives(config: Config, maxQueueRx: nat, sent: System)
    requires maxQueueRx >= 1 && sent.client == ConnectedEndpoint(config, Client, maxQueueRx)
    requires sent.server.snd.sent == [RecordOf(Server, FIRST_APP_EPOCH, 0, HandshakePart(UPDATE))]
    ensures var step := Step(Client, Deliver(0, 0));
            && Enabled(sent, step)
            && var t := Next(sent, step);
               && t.client.snd == sent.client.snd && !t.client.closed && t.client.rcv.queue == [ARRIVED]
               && t.client.rcv.peerMsgSeq == 0 && t.client.rcv.released
               && t.client.rcv.maxQueue == maxQueueRx
  {
    var r := sent.client.rcv;
    assert r == ConnectedEndpoint(Config(0, 0, 0), Client, r.maxQueue).rcv;
    UpdateArrives(r, 0);
    AcknowledgedIs(sent.client.snd, r, sent.server.snd.sent[0], 0);
    ReceiveKeepsCap(r, sent.server.snd.sent[0], 0);
  }

  lemma ReceiveKeepsCap(r: Receiver, record: Record, garbage: nat)
    ensures Receive(r, record, garbage).maxQueue == r.maxQueue
  {
    match record
    case Plaintext(number, payload) => DispatchKeepsCap(r, Opened(0, number, payload));
    case Ciphertext(_, _, _, _, _) =>
      if r.peerEncryption && Open(r, record, garbage).Some? {
        var o := Open(r, record, garbage).value;
        CommitTouches(r, o);
        DispatchKeepsCap(Commit(r, o), o);
      }
  }

  lemma DispatchKeepsCap(r: Receiver, o: Opened)
    ensures Dispatch(r, o).maxQueue == r.maxQueue
  {
  }

  lemma ReadOwes(sys: System)
    requires var e := sys.client;
             && e.snd == ConnectedEndpoint(e.snd.config, Client, e.rcv.maxQueue).snd
             && e.snd.config.maxQueueTx >= 3 && !e.closed && e.rcv.released
    requires Enabled(sys, Step(Client, ProcessKeyUpdate(true)))
    ensures var t := Next(sys, Step(Client, ProcessKeyUpdate(true)));
            && OwesAnswer(t.client) && t.client.rcv.peerMsgSeq == sys.client.rcv.peerMsgSeq + 1
            && t.server == sys.server
  {
    AckLeavesRoom(sys.client);
  }

  const OVERLAP := [Step(Client, StartKeyUpdate), Step(Client, RespondKeyUpdate)]

  /** Its own update has just gone out; the answer is still owed. */
  ghost predicate Starts(sys: System, mid: System) {
    && mid.server == sys.server && mid.client.rcv == sys.client.rcv && mid.client.pendingResponse && !mid.client.closed
    && var s := mid.client.snd;
       && s.appSecret.Some? && s.appEpoch == FIRST_APP_EPOCH + 1 && s.appSeq == 0 && s.nextMsgSeq == 1
       && s.prevEpoch == FIRST_APP_EPOCH && |s.queueTx| < s.config.maxQueueTx
  }

  lemma ClientStarts(sys: System)
    requires InLockstep(sys) && OwesAnswer(sys.client)
    ensures Enabled(sys, OVERLAP[0]) && Starts(sys, Next(sys, OVERLAP[0])) && InLockstep(Next(sys, OVERLAP[0]))
  {
    var e := sys.client;
    KeyUpdateSucceeds(e.snd, 1);
    assert DirectionInStep(e.snd, sys.server.rcv, sys.server.snd);
    assert Direction(e.snd, sys.server.rcv, sys.server.snd);
    KeyUpdateResult(e.snd, 1);
    NextInLockstep(sys, OVERLAP[0]);
  }

  lemma ClientAnswers(sys: System, mid: System)
    requires InLockstep(mid) && Starts(sys, mid)
    ensures Enabled(mid, OVERLAP[1])
    ensures var end := Next(mid, OVERLAP[1]);
            && end.server == sys.server && end.client.snd.appEpoch == FIRST_APP_EPOCH + 2
            && forall e :: e in end.client.snd.flight ==> e.epoch == FIRST_APP_EPOCH + 1
  {
    var s := mid.client.snd;
    KeyUpdateSucceeds(s, 0);
    assert DirectionInStep(s, mid.server.rcv, mid.server.snd);
    assert Direction(s, mid.server.rcv, mid.server.snd);
    KeyUpdateResult(s, 0);
  }

  lemma Overlaps(sys: System)
    requires InLockstep(sys) && OwesAnswer(sys.client)
    ensures EnabledRun(sys, OVERLAP) && OutOfStep(Run(sys, OVERLAP))
  {
    ClientStarts(sys);
    ClientAnswers(sys, Next(sys, OVERLAP[0]));
    TwoSteps(sys, OVERLAP[0], OVERLAP[1]);
    UnguardedResponseLosesStep(sys, Client);
    NewestBefore(sys);
  }

  /** Before the client's own update both sides were in its first application epoch. */
  lemma NewestBefore(sys: System)
    requires InLockstep(sys) && OwesAnswer(sys.client)
    ensures Newest(sys.server.rcv) == FIRST_APP_EPOCH
  {
    assert DirectionInStep(sys.client.snd, sys.server.rcv, sys.server.snd);
  }

  /** The client sends two epochs past the newest the server receives, and what it still
      repeats is not the update the server is missing. */
  ghost predicate OutOfStep(sys: System) {
    && !InLockstep(sys)
    && sys.client.snd.appEpoch == Newest(sys.server.rcv) + 2
    && forall e :: e in sys.client.snd.flight ==> e.epoch == Newest(sys.server.rcv) + 1
  }

  /** From two new engines, whatever their configuration leaves room for three datagrams:
      connect, let the server update and the client read it, then start and answer. */
  lemma UnguardedAnswerRun(config: Config, maxQueueRx: nat)
    requires config.maxQueueTx >= 3 && maxQueueRx >= 1
    ensures var sys := NewSystem(config, maxQueueRx);
            && EnabledRun(sys, ConnectSteps() + EXCHANGE + OVERLAP)
            && OutOfStep(Run(sys, ConnectSteps() + EXCHANGE + OVERLAP))
  {
    var sys, connected := NewSystem(config, maxQueueRx), ConnectedSystem(config, maxQueueRx);
    BothConnect(config, maxQueueRx);
    Exchanges(config, maxQueueRx);
    RunAppend(sys, ConnectSteps(), EXCHANGE);
    var owing := Run(connected, EXCHANGE);
    ConnectedInLockstep(connected);
    RunInLockstep(connected, EXCHANGE);
    Overlaps(owing);
    RunAppend(sys, ConnectSteps() + EXCHANGE, OVERLAP);
  }
}
