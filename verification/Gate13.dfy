/** Whole runs of the DTLS 1.3 client against any messages at all: when its record numbers keep
    apart, and that it reports a connection once, after every check. */
module Gate13 {
  import opened Handshakes
  import opened Records
  import opened SendSide
  import opened Client13
  import F = Fragmentation

  /** What happens to a client: its transitions, and what comes between them. Any transition
      may fail: `Fail` is one that ends in an error although the checks made here would pass. */
  datatype Input =
    | Move(choice: Choice)
    | Fail(choice: Choice)
    | Deliver(seqNo: nat, body: Body)
    | CloseNotified
    | CloseLocally
    | FlightTimeout
    | AckArrives(ack: seq<nat>)
    | HandshakeAckDue(numbers: seq<Number>)
    | PollPacket

  /** `close`: a close_notify once connected, and otherwise the end. */
  function Closing(c: Connection): Connection {
    if c.state.Closed? || c.state.HalfClosedLocal? then c
    else c.(snd := Farewell(c.snd, c.state).0, state := Farewell(c.snd, c.state).1)
  }

  function Farewell(s: Sender, state: State): (Sender, State) {
    if !state.AwaitApplicationData? then (Perform(s, Abort), Closed)
    else
      var o := EmitCiphertext(s, s.appEpoch, false, CloseNotify);
      if o.failure.Some? then (o.sender, state) else (Perform(o.sender, CancelFlights), HalfClosedLocal)
  }

  /** The record layer's own activity; an ACK of the handshake is sent while it is going on. */
  function Meanwhile(s: Sender, input: Input): Sender {
    match input
    case FlightTimeout => Perform(s, Resend)
    case AckArrives(ack) => Perform(s, ReceiveAck(ack))
    case HandshakeAckDue(numbers) =>
      if s.hsSecret.Some? && s.appSecret.None? then Perform(s, SendHandshakeAck(numbers)) else s
    case PollPacket => Perform(s, PopPacket)
    case _ => s
  }

  /** What is neither a transition nor `close`. */
  function Aside(c: Connection, input: Input): Connection {
    match input
    case Deliver(seqNo, body) =>
      if seqNo < c.peerSeqNo || seqNo in c.received then c else c.(received := c.received[seqNo := body])
    case CloseNotified => c.(closeNotify := true)
    case _ => c.(snd := Meanwhile(c.snd, input))
  }

  function Take(c: Connection, input: Input): Connection
    requires F.Progresses(c.snd.config)
  {
    match input
    case Move(choice) => After(c, choice)
    case Fail(choice) => Fails(c, choice)
    case CloseLocally => Closing(c)
    case _ => Aside(c, input)
  }

  // ----- Record numbers -----

  predicate BeforeKeys(state: State) {
    state.SendClientHello? || state.AwaitServerHello?
  }

  predicate BeforeApplication(state: State) {
    BeforeKeys(state) || state.AwaitEncryptedExtensions? || state.AwaitCertificateRequest? || state.AwaitCertificate?
    || state.AwaitCertificateVerify? || state.AwaitFinished?
  }

  predicate Writing(state: State) {
    state.SendClientHello? || state.SendCertificate? || state.SendCertificateVerify? || state.SendFinished?
  }

  lemma UnsentKeepsConfig(c: Connection, body: Body, choice: Choice)
    requires F.Progresses(c.snd.config)
    ensures Unsent(c, body, choice).snd.config == c.snd.config
  {
    F.CreateHandshakeConfig(c.snd, TypeOf(body), choice.content);
  }

  lemma SendFailsKeepsConfig(c: Connection, choice: Choice)
    requires F.Progresses(c.snd.config) && Writing(c.state)
    ensures Fails(c, choice).snd.config == c.snd.config
  {
    if c.state.SendClientHello? {
      GreetsNotKeepsConfig(c, choice);
    } else if c.state.SendCertificate? {
      UnsentKeepsConfig(NewFlight(c), CertificateBody(c.hasCertificate), choice);
    } else if c.state.SendCertificateVerify? {
      UnsentKeepsConfig(c, CertificateVerifyBody(c.transcript), choice);
    } else {
      FinishFailsKeepsConfig(c, choice);
    }
  }

  lemma GreetsNotKeepsConfig(c: Connection, choice: Choice)
    requires F.Progresses(c.snd.config)
    ensures GreetsNot(c, choice).snd.config == c.snd.config
  {
    if choice.begins {
      UnsentKeepsConfig(HelloFlight(c), ClientHelloBody(c.helloRetry), choice);
    }
  }

  lemma FinishFailsKeepsConfig(c: Connection, choice: Choice)
    requires F.Progresses(c.snd.config)
    ensures FinishFails(c, choice).snd.config == c.snd.config
  {
    if c.handshakeSecret.Some? {
      UnsentKeepsConfig(LastFlight(c), FinishedBody(true, c.handshakeSecret.value, c.transcript), choice);
    }
  }

  lemma ServeFailsKeepsConfig(c: Connection, choice: Choice)
    ensures ServeFails(c, choice).snd.config == c.snd.config
  {
    SendsKeepConfig(c.snd, c.pendingKeyUpdateResponse, choice);
    var s := Sends(c.snd, c.pendingKeyUpdateResponse, choice).sender;
    EmitFrame(s, s.appEpoch, false, AckData(EncodeAck(choice.numbers)));
    ServeFailsSender(c, choice);
  }

  lemma ServeFailsSender(c: Connection, choice: Choice)
    ensures var c' := ServeFails(c, choice);
            var s := Sends(c.snd, c.pendingKeyUpdateResponse, choice).sender;
            && Touches(c, c') && c'.retired == c.retired
            && (|| c'.snd == s
                || c'.snd == EmitCiphertext(s, s.appEpoch, false, AckData(EncodeAck(choice.numbers))).sender)
  {
    var o := Sends(c.snd, c.pendingKeyUpdateResponse, choice);
    if o.failure.None? {
      ReadFailsSender(c.(snd := o.sender, pendingKeyUpdateResponse := false), choice.numbers);
    }
  }

  lemma ReadFailsSender(c: Connection, numbers: seq<Number>)
    ensures var c' := ReadFails(c, numbers);
            && Touches(c, c') && c'.retired == c.retired
            && (|| c'.snd == c.snd
                || c'.snd == EmitCiphertext(c.snd, c.snd.appEpoch, false, AckData(EncodeAck(numbers))).sender)
  {
    if HasComplete(c, KeyUpdate) {
    }
  }

  /** A ServerHello that ends in an error may still have put keys in place. */
  lemma GreetingFailsSender(c: Connection)
    requires c.state.AwaitServerHello?
    ensures var c' := GreetingFails(c);
            && c'.state == c.state && c'.helloRetry == c.helloRetry && c'.events == c.events
            && ((c'.snd == c.snd && c'.retired == c.retired)
                || (c'.snd == Install(c).snd && c'.retired == Install(c).retired))
  {
    if HasComplete(c, ServerHello) {
      ReadFrame(c);
      AnswerFailsSender(Read(c).1, Read(c).0);
    }
  }

  lemma AnswerFailsSender(c: Connection, body: Body)
    requires body.ServerHelloBody?
    ensures var c' := AnswerFails(c, body);
            && c'.state == c.state && c'.helloRetry == c.helloRetry && c'.events == c.events
            && ((c'.snd == c.snd && c'.retired == c.retired)
                || (c'.snd == Install(c).snd && c'.retired == Install(c).retired))
  {
    if body.retryRequest || !body.acceptable || !c.keyExchange {
    } else if !body.completes {
    } else {
    }
  }

  lemma ReadFailsKeepsSender(c: Connection, choice: Choice)
    requires F.Progresses(c.snd.config)
    requires !c.state.AwaitServerHello? && !Writing(c.state) && !c.state.AwaitApplicationData?
    ensures var c' := Fails(c, choice);
            && c'.snd == c.snd && c'.retired == c.retired && Touches(c, c')
  {
    if Awaited(c).Some? {
      RefusedTouches(c, Awaited(c).value);
    }
  }

  /** What an error behind the ServerHello may change at most: the sending half, the
      transcript, which grows, and what is not looked at here. */
  predicate Touches(c: Connection, c': Connection) {
    && c'.state == c.state && c'.events == c.events && c.transcript <= c'.transcript
    && c'.serverCertificates == c.serverCertificates && c'.handshakeSecret == c.handshakeSecret
    && c'.helloRetry == c.helloRetry
  }

  lemma RefusedTouches(c: Connection, wanted: MessageType)
    ensures Touches(c, Refused(c, wanted)) && Refused(c, wanted).snd == c.snd && Refused(c, wanted).retired == c.retired
  {
    if HasComplete(c, wanted) {
      ReadFrame(c);
    }
  }

  lemma FailKeepsConfig(c: Connection, choice: Choice)
    requires F.Progresses(c.snd.config)
    ensures Fails(c, choice).snd.config == c.snd.config
  {
    if Writing(c.state) {
      SendFailsKeepsConfig(c, choice);
    } else if c.state.AwaitServerHello? {
      GreetingFailsSender(c);
    } else if c.state.AwaitApplicationData? {
      ServeFailsKeepsConfig(c, choice);
    } else {
      ReadFailsKeepsSender(c, choice);
    }
  }

  /** The record layer's own activity moves the handshake counter only by sending. */
  lemma MeanwhileAdvances(s: Sender, input: Input)
    ensures Advances(s, Meanwhile(s, input))
  {
    match input
    case FlightTimeout => PerformAdvances(s, Resend);
    case AckArrives(ack) => PerformAdvances(s, ReceiveAck(ack));
    case HandshakeAckDue(numbers) => PerformAdvances(s, SendHandshakeAck(numbers));
    case PollPacket => PerformAdvances(s, PopPacket);
    case _ =>
  }

  predicate Between(input: Input) {
    !input.Move? && !input.Fail? && !input.CloseLocally?
  }

  /** What comes between transitions touches the sending half at most, and what is waiting. */
  lemma BetweenFrame(c: Connection, input: Input)
    ensures var c' := Aside(c, input);
            && c'.snd == Meanwhile(c.snd, input) && c'.retired == c.retired
            && Touches(c, c') && c'.transcript == c.transcript
  {
    if input.Deliver? {
      DeliverFrame(c, input.seqNo, input.body);
    } else if input.CloseNotified? {
    } else {
      NewSenderTouches(c, Meanwhile(c.snd, input));
    }
  }

  lemma DeliverFrame(c: Connection, seqNo: nat, body: Body)
    ensures var c' := Aside(c, Deliver(seqNo, body));
            c'.snd == c.snd && c'.retired == c.retired && Touches(c, c') && c'.transcript == c.transcript
  {
    if seqNo < c.peerSeqNo || seqNo in c.received {
    } else {
      WaitingTouches(c, c.received[seqNo := body]);
    }
  }

  lemma WaitingTouches(c: Connection, received: map<nat, Body>)
    ensures var c' := c.(received := received);
            c'.snd == c.snd && c'.retired == c.retired && Touches(c, c') && c'.transcript == c.transcript
  {
  }

  lemma NewSenderTouches(c: Connection, snd: Sender)
    ensures Touches(c, c.(snd := snd)) && c.(snd := snd).snd == snd && c.(snd := snd).retired == c.retired
  {
  }

  lemma FarewellConfig(s: Sender, state: State)
    ensures var (t, next) := Farewell(s, state);
            && t.config == s.config
            && (next.Closed? || (state.AwaitApplicationData? && (next == state || next.HalfClosedLocal?)))
  {
    if state.AwaitApplicationData? {
      EmitFrame(s, s.appEpoch, false, CloseNotify);
    }
  }

  lemma TakeKeepsConfig(c: Connection, input: Input)
    requires F.Progresses(c.snd.config)
    ensures Take(c, input).snd.config == c.snd.config
  {
    match input
    case Move(choice) => MoveKeepsConfig(c, choice);
    case Fail(choice) => FailKeepsConfig(c, choice);
    case CloseLocally => FarewellConfig(c.snd, c.state);
    case _ =>
      BetweenFrame(c, input);
      MeanwhileAdvances(c.snd, input);
  }

  lemma MoveKeepsConfig(c: Connection, choice: Choice)
    requires F.Progresses(c.snd.config)
    ensures After(c, choice).snd.config == c.snd.config
  {
    if Step(c, choice).Some? {
      StepDescends(c, choice);
    } else {
      FailKeepsConfig(c, choice);
    }
  }

  /** A run goes on after an error, with what the error left behind. */
  function Run(c: Connection, inputs: seq<Input>): (end: Connection)
    requires F.Progresses(c.snd.config)
    ensures end.snd.config == c.snd.config
    decreases |inputs|
  {
    if inputs == [] then c
    else
      TakeKeepsConfig(c, inputs[0]);
      Run(Take(c, inputs[0]), inputs[1..])
  }

  lemma {:induction false} RunAppend(c: Connection, first: seq<Input>, second: seq<Input>)
    requires F.Progresses(c.snd.config)
    ensures Run(c, first + second) == Run(Run(c, first), second)
    decreases |first|
  {
    if first == [] {
      assert first + second == second;
    } else {
      TakeKeepsConfig(c, first[0]);
      RunAppend(Take(c, first[0]), first[1..], second);
      assert (first + second)[1..] == first[1..] + second;
    }
  }

  // ----- What keeps them apart -----

  /** The client accepts a HelloRetryRequest next, although it has sealed records under its
      handshake key. */
  predicate LateReset(c: Connection, input: Input) {
    && input.Move? && c.state.AwaitServerHello? && HasComplete(c, ServerHello)
    && Accepted(c.received[c.peerSeqNo], c.helloRetry)
    && c.snd.hsSecret.Some? && c.snd.hsSeq > 0
  }

  predicate Accepted(body: Body, helloRetry: bool) {
    body.ServerHelloBody? && body.retryRequest && body.acceptable && !helloRetry
  }

  predicate NoLateReset(c: Connection, inputs: seq<Input>)
    requires F.Progresses(c.snd.config)
    decreases |inputs|
  {
    inputs == []
    || (&& !LateReset(c, inputs[0])
        && (TakeKeepsConfig(c, inputs[0]);
            NoLateReset(Take(c, inputs[0]), inputs[1..])))
  }

  /** No two sealed records share a key and a number, under the keys in use and under those
      they took the place of. */
  ghost predicate NeverRepeated(c: Connection) {
    Unrepeated(c.snd.sent) && forall i :: 0 <= i < |c.retired| ==> Unrepeated(c.retired[i])
  }

  /** Application keys are installed on leaving AwaitFinished. */
  ghost predicate KeysInOrder(c: Connection) {
    && F.Progresses(c.snd.config) && SenderValid(c.snd)
    && (BeforeApplication(c.state) ==> c.snd.appSecret.None?)
    && forall i :: 0 <= i < |c.retired| ==> Unrepeated(c.retired[i])
  }

  /** Another valid sender will do, as long as the application keys come in time. */
  lemma SenderChanges(c: Connection, c': Connection)
    requires KeysInOrder(c) && SenderValid(c'.snd) && c'.snd.config == c.snd.config && c'.retired == c.retired
    requires BeforeApplication(c'.state) ==> c'.snd.appSecret.None?
    ensures KeysInOrder(c')
  {
  }

  lemma HandshakeSent(s: Sender, msgType: MessageType, content: seq<nat>)
    requires F.Progresses(s.config) && SenderValid(s)
    ensures var t := F.CreateHandshake(s, msgType, content).sender;
            SenderValid(t) && t.config == s.config && t.appSecret == s.appSecret
  {
    F.CreateHandshakeKeeps(s, msgType, content);
    F.CreateHandshakeConfig(s, msgType, content);
  }

  lemma WriteInOrder(c: Connection, body: Body, choice: Choice, state: State)
    requires KeysInOrder(c) && Write(c, body, choice, state).Some?
    requires BeforeApplication(state) ==> BeforeApplication(c.state)
    ensures KeysInOrder(Write(c, body, choice, state).value)
  {
    HandshakeSent(c.snd, TypeOf(body), choice.content);
    SenderChanges(c, Write(c, body, choice, state).value);
  }

  lemma UnsentInOrder(c: Connection, body: Body, choice: Choice)
    requires KeysInOrder(c)
    ensures KeysInOrder(Unsent(c, body, choice))
  {
    HandshakeSent(c.snd, TypeOf(body), choice.content);
    SenderChanges(c, Unsent(c, body, choice));
  }

  lemma FlightsInOrder(c: Connection)
    requires KeysInOrder(c)
    ensures KeysInOrder(NewFlight(c)) && KeysInOrder(HelloFlight(c)) && KeysInOrder(LastFlight(c))
    ensures NewFlight(c).state == c.state && HelloFlight(c).state == c.state && LastFlight(c).state == c.state
  {
  }

  lemma SendsInOrder(c: Connection, choice: Choice)
    requires KeysInOrder(c) && Step(c, choice).Some? && Writing(c.state)
    ensures KeysInOrder(Step(c, choice).value)
  {
    FlightsInOrder(c);
    if c.state.SendClientHello? {
      WriteInOrder(HelloFlight(c), ClientHelloBody(c.helloRetry), choice, AwaitServerHello);
    } else if c.state.SendCertificate? {
      WriteInOrder(NewFlight(c), CertificateBody(c.hasCertificate), choice,
                   if c.hasCertificate then SendCertificateVerify else SendFinished);
    } else if c.state.SendCertificateVerify? {
      WriteInOrder(c, CertificateVerifyBody(c.transcript), choice, SendFinished);
    } else {
      FinishInOrder(c, choice);
    }
  }

  lemma FinishInOrder(c: Connection, choice: Choice)
    requires KeysInOrder(c) && Finish(c, choice).Some?
    ensures KeysInOrder(Finish(c, choice).value)
  {
    FlightsInOrder(c);
    ConcludesInOrder(LastFlight(c), choice);
  }

  lemma ConcludesInOrder(c: Connection, choice: Choice)
    requires KeysInOrder(c) && Concludes(c, choice).Some?
    ensures KeysInOrder(Concludes(c, choice).value)
  {
    var finished := FinishedBody(true, c.handshakeSecret.value, c.transcript);
    WriteInOrder(c, finished, choice, AwaitApplicationData);
    SenderChanges(Write(c, finished, choice, AwaitApplicationData).value, Concludes(c, choice).value);
  }

  lemma SendFails(c: Connection, choice: Choice)
    requires KeysInOrder(c) && Writing(c.state)
    ensures KeysInOrder(Fails(c, choice))
  {
    FlightsInOrder(c);
    if c.state.SendClientHello? {
      if choice.begins {
        UnsentInOrder(HelloFlight(c), ClientHelloBody(c.helloRetry), choice);
      }
    } else if c.state.SendCertificate? {
      UnsentInOrder(NewFlight(c), CertificateBody(c.hasCertificate), choice);
    } else if c.state.SendCertificateVerify? {
      UnsentInOrder(c, CertificateVerifyBody(c.transcript), choice);
    } else if c.handshakeSecret.Some? {
      UnsentInOrder(LastFlight(c), FinishedBody(true, c.handshakeSecret.value, c.transcript), choice);
    }
  }

  /** Keys in the place of others begin a log of their own. */
  lemma InstallInOrder(c: Connection)
    requires KeysInOrder(c)
    ensures var i := Install(c);
            && SenderValid(i.snd) && i.snd.config == c.snd.config && i.snd.appSecret == c.snd.appSecret
            && forall k :: 0 <= k < |i.retired| ==> Unrepeated(i.retired[k])
  {
    if c.snd.hsSecret.None? {
      PerformKeeps(c.snd, InstallHandshake);
    }
  }

  lemma GreetedInOrder(c: Connection, choice: Choice)
    requires KeysInOrder(c) && c.state.AwaitServerHello? && Greeted(c, choice.reparses).Some?
    requires !LateReset(c, Move(choice))
    ensures KeysInOrder(Greeted(c, choice.reparses).value)
  {
    if HasComplete(c, ServerHello) {
      ReadFrame(c);
      AnswersInOrder(Read(c).1, Read(c).0, c.transcript, choice.reparses);
    }
  }

  lemma AnswersInOrder(c: Connection, body: Body, before: seq<Spoken>, reparses: bool)
    requires KeysInOrder(c) && c.state.AwaitServerHello? && body.ServerHelloBody?
    requires Answers(c, body, before, reparses).Some?
    requires Accepted(body, c.helloRetry) ==> c.snd.hsSecret.None? || c.snd.hsSeq == 0
    ensures KeysInOrder(Answers(c, body, before, reparses).value)
  {
    if body.retryRequest && c.helloRetry {
    } else if body.retryRequest {
      RetriedFrame(c, before, body);
      PerformKeeps(c.snd, HelloRetry);
    } else {
      InstalledFrame(c);
      InstallInOrder(c);
    }
  }

  lemma GreetingFailsInOrder(c: Connection)
    requires KeysInOrder(c) && c.state.AwaitServerHello?
    ensures KeysInOrder(GreetingFails(c))
  {
    GreetingFailsSender(c);
    InstallInOrder(c);
  }

  lemma FinishedSender(c: Connection, choice: Choice)
    requires F.Progresses(c.snd.config) && c.state.AwaitFinished? && Step(c, choice).Some?
    ensures var c' := Step(c, choice).value;
            && c'.retired == c.retired
            && ((c'.snd == c.snd && c'.state == c.state)
                || (&& c'.snd == Perform(c.snd, InstallApplication)
                    && (c'.state.SendCertificate? || c'.state.SendFinished?)))
  {
    if HasComplete(c, Finished) {
      ReadFrame(c);
    }
  }

  lemma MiddleSender(c: Connection, choice: Choice)
    requires F.Progresses(c.snd.config) && Step(c, choice).Some?
    requires Listening(c.state) && !c.state.AwaitServerHello? && !c.state.AwaitFinished?
    ensures var c' := Step(c, choice).value; c'.snd == c.snd && c'.retired == c.retired
  {
    if c.state.AwaitCertificateRequest? && HasComplete(c, Certificate) {
    } else if HasComplete(c, Awaited(c).value) {
      ReadFrame(c);
      MiddleKeeps(Read(c).1, Read(c).0, c.transcript);
    }
  }

  lemma MiddleKeeps(c: Connection, body: Body, before: seq<Spoken>)
    requires Accepts(c, body, before).Some? && !body.FinishedBody?
    ensures var c' := Accepts(c, body, before).value; c'.snd == c.snd && c'.retired == c.retired
  {
    match body
    case EncryptedExtensionsBody =>
    case CertificateRequestBody(parses) =>
    case CertificateBody(present) =>
    case CertificateVerifyBody(signed) =>
  }

  /** Reading changes the sending half only where keys are installed or a retry resets it. */
  lemma ReadsInOrder(c: Connection, choice: Choice)
    requires KeysInOrder(c) && Step(c, choice).Some? && Listening(c.state) && !LateReset(c, Move(choice))
    ensures KeysInOrder(Step(c, choice).value)
  {
    if c.state.AwaitServerHello? {
      GreetedInOrder(c, choice);
    } else if c.state.AwaitFinished? {
      FinishedSender(c, choice);
      PerformKeeps(c.snd, InstallApplication);
    } else {
      MiddleSender(c, choice);
    }
  }

  lemma {:induction false} SendAllKeeps(s: Sender, epoch: nat, data: seq<seq<nat>>)
    requires SenderValid(s) && HeldEpoch(s, epoch)
    ensures SenderValid(SendAll(s, epoch, data).sender) && SameKeys(s, SendAll(s, epoch, data).sender)
    decreases |data|
  {
    if data != [] {
      EmitFrame(s, epoch, false, AppData(data[0]));
      EmitCiphertextKeeps(s, epoch, false, AppData(data[0]));
      SendAllKeeps(EmitCiphertext(s, epoch, false, AppData(data[0])).sender, epoch, data[1..]);
    }
  }

  lemma SendsKeep(s: Sender, pending: bool, choice: Choice)
    requires SenderValid(s)
    ensures SenderValid(Sends(s, pending, choice).sender) && Sends(s, pending, choice).sender.config == s.config
  {
    SendsKeepConfig(s, pending, choice);
    var o1 := if choice.keyUpdateDue && !KeyUpdateInFlight(s) then CreateKeyUpdate(s, 1) else Outcome(s, None);
    CreateKeyUpdateKeeps(s, 1);
    SendAllKeeps(o1.sender, o1.sender.appEpoch, choice.data);
    CreateKeyUpdateKeeps(SendAll(o1.sender, o1.sender.appEpoch, choice.data).sender, 0);
  }

  lemma AckKeeps(s: Sender, numbers: seq<Number>)
    requires SenderValid(s)
    ensures var t := EmitCiphertext(s, s.appEpoch, false, AckData(EncodeAck(numbers))).sender;
            SenderValid(t) && t.config == s.config
  {
    EmitCiphertextKeeps(s, s.appEpoch, false, AckData(EncodeAck(numbers)));
    EmitFrame(s, s.appEpoch, false, AckData(EncodeAck(numbers)));
  }

  lemma ServeInOrder(c: Connection, choice: Choice)
    requires KeysInOrder(c) && c.state.AwaitApplicationData? && Serve(c, choice).Some?
    ensures KeysInOrder(Serve(c, choice).value)
  {
    SendsKeep(c.snd, c.pendingKeyUpdateResponse, choice);
    var s := Sends(c.snd, c.pendingKeyUpdateResponse, choice).sender;
    AckKeeps(s, choice.numbers);
    ReadSender(c.(snd := s, pendingKeyUpdateResponse := false), choice.numbers);
    SenderChanges(c, Serve(c, choice).value);
  }

  lemma ReadSender(c: Connection, numbers: seq<Number>)
    requires ReadKeyUpdate(c, numbers).Some?
    ensures var c' := ReadKeyUpdate(c, numbers).value;
            && c'.state == c.state && c'.retired == c.retired
            && (|| c'.snd == c.snd
                || c'.snd == EmitCiphertext(c.snd, c.snd.appEpoch, false, AckData(EncodeAck(numbers))).sender)
  {
    if HasComplete(c, KeyUpdate) {
    }
  }

  lemma ServeFailsInOrder(c: Connection, choice: Choice)
    requires KeysInOrder(c) && c.state.AwaitApplicationData?
    ensures KeysInOrder(ServeFails(c, choice))
  {
    SendsKeep(c.snd, c.pendingKeyUpdateResponse, choice);
    var s := Sends(c.snd, c.pendingKeyUpdateResponse, choice).sender;
    AckKeeps(s, choice.numbers);
    ServeFailsSender(c, choice);
    SenderChanges(c, ServeFails(c, choice));
  }

  lemma StepInOrder(c: Connection, choice: Choice)
    requires KeysInOrder(c) && Step(c, choice).Some? && !LateReset(c, Move(choice))
    ensures KeysInOrder(Step(c, choice).value)
  {
    if Writing(c.state) {
      SendsInOrder(c, choice);
    } else if Listening(c.state) {
      ReadsInOrder(c, choice);
    } else if c.state.AwaitApplicationData? {
      ServeInOrder(c, choice);
    } else if c.state.HalfClosedLocal? {
      DrainDescends(c);
    }
  }

  lemma FailInOrder(c: Connection, choice: Choice)
    requires KeysInOrder(c)
    ensures KeysInOrder(Fails(c, choice))
  {
    if Writing(c.state) {
      SendFails(c, choice);
    } else if c.state.AwaitServerHello? {
      GreetingFailsInOrder(c);
    } else if c.state.AwaitApplicationData? {
      ServeFailsInOrder(c, choice);
    } else {
      ReadFailsKeepsSender(c, choice);
    }
  }

  lemma MeanwhileKeeps(s: Sender, input: Input)
    requires SenderValid(s)
    ensures var t := Meanwhile(s, input); SenderValid(t) && t.config == s.config && t.appSecret == s.appSecret
  {
    MeanwhileAdvances(s, input);
    match input
    case FlightTimeout =>
      PerformKeeps(s, Resend);
      ResendEntriesKeeps(s.(flight := [], datagramSealed := true), s.flight);
    case AckArrives(ack) => PerformKeeps(s, ReceiveAck(ack));
    case HandshakeAckDue(numbers) =>
      PerformKeeps(s, SendHandshakeAck(numbers));
      EmitFrame(s, HANDSHAKE_EPOCH, false, AckData(EncodeAck(numbers)));
    case _ =>
  }

  lemma FarewellKeeps(s: Sender, state: State)
    requires SenderValid(s)
    ensures SenderValid(Farewell(s, state).0)
  {
    if state.AwaitApplicationData? {
      EmitCiphertextKeeps(s, s.appEpoch, false, CloseNotify);
      PerformKeeps(EmitCiphertext(s, s.appEpoch, false, CloseNotify).sender, CancelFlights);
    } else {
      PerformKeeps(s, Abort);
    }
  }

  lemma ClosingKeeps(c: Connection)
    requires KeysInOrder(c)
    ensures KeysInOrder(Closing(c))
  {
    if !c.state.Closed? && !c.state.HalfClosedLocal? {
      FarewellKeeps(c.snd, c.state);
      FarewellConfig(c.snd, c.state);
      SenderChanges(c, Closing(c));
    }
  }

  lemma TakeInOrder(c: Connection, input: Input)
    requires KeysInOrder(c) && !LateReset(c, input)
    ensures KeysInOrder(Take(c, input))
  {
    match input
    case Move(choice) => MoveInOrder(c, choice);
    case Fail(choice) => FailInOrder(c, choice);
    case CloseLocally => ClosingKeeps(c);
    case _ => BetweenInOrder(c, input);
  }

  lemma MoveInOrder(c: Connection, choice: Choice)
    requires KeysInOrder(c) && !LateReset(c, Move(choice))
    ensures KeysInOrder(After(c, choice))
  {
    if Step(c, choice).Some? {
      StepInOrder(c, choice);
    } else {
      FailInOrder(c, choice);
    }
  }

  lemma BetweenInOrder(c: Connection, input: Input)
    requires KeysInOrder(c) && Between(input)
    ensures KeysInOrder(Take(c, input))
  {
    BetweenFrame(c, input);
    MeanwhileKeeps(c.snd, input);
    SenderChanges(c, Take(c, input));
  }

  lemma {:induction false} RunInOrder(c: Connection, inputs: seq<Input>)
    requires KeysInOrder(c) && NoLateReset(c, inputs)
    ensures KeysInOrder(Run(c, inputs))
    decreases |inputs|
  {
    if inputs != [] {
      TakeInOrder(c, inputs[0]);
      RunInOrder(Take(c, inputs[0]), inputs[1..]);
    }
  }

  ghost predicate Starts(c: Connection, config: Config) {
    && F.Progresses(config)
    && exists hasCertificate :: c == NewClient(config, hasCertificate) || c == NewFromHybrid(config, hasCertificate)
  }

  lemma StartInOrder(c: Connection, config: Config)
    requires Starts(c, config)
    ensures KeysInOrder(c) && ZeroUsed(c.snd) && Untouched(c.snd)
  {
  }

  /** Whatever arrives and whatever fails, no two sealed records of a client share a key and a
      number, as long as the handshake counter is not reset late. */
  lemma ClientNumbersUnique(c: Connection, config: Config, inputs: seq<Input>)
    requires Starts(c, config)
    ensures F.Progresses(c.snd.config) && (NoLateReset(c, inputs) ==> NeverRepeated(Run(c, inputs)))
  {
    StartInOrder(c, config);
    if NoLateReset(c, inputs) {
      RunInOrder(c, inputs);
    }
  }

  // ----- And what a late reset does -----

  /** Until the handshake keys are in use for good: the counter has moved only by sending, and
      nothing has been queued where there is no room. */
  ghost predicate Tracked(c: Connection) {
    BeforeKeys(c.state) ==> ZeroUsed(c.snd) && (c.snd.config.maxQueueTx == 0 ==> Untouched(c.snd))
  }

  lemma AdvancesTracked(c: Connection, c': Connection)
    requires Tracked(c) && (BeforeKeys(c'.state) ==> BeforeKeys(c.state)) && Advances(c.snd, c'.snd)
    ensures Tracked(c')
  {
    if BeforeKeys(c.state) {
      AdvancesKeepsZeroUsed(c.snd, c'.snd);
    }
  }

  lemma HelloTracked(c: Connection, choice: Choice)
    requires F.Progresses(c.snd.config) && Tracked(c) && c.state.SendClientHello?
    ensures Tracked(After(c, choice))
  {
    if Step(c, choice).Some? {
      AdvancesTracked(c, HelloFlight(c));
      WriteTracked(HelloFlight(c), ClientHelloBody(c.helloRetry), choice, AwaitServerHello);
    } else {
      HelloFailsTracked(c, choice);
    }
  }

  lemma WriteTracked(c: Connection, body: Body, choice: Choice, state: State)
    requires F.Progresses(c.snd.config) && Tracked(c) && BeforeKeys(c.state) && Write(c, body, choice, state).Some?
    ensures Tracked(Write(c, body, choice, state).value)
  {
    F.CreateHandshakeAdvances(c.snd, TypeOf(body), choice.content);
    AdvancesTracked(c, Write(c, body, choice, state).value);
  }

  lemma HelloFailsTracked(c: Connection, choice: Choice)
    requires F.Progresses(c.snd.config) && Tracked(c) && c.state.SendClientHello?
    ensures Tracked(GreetsNot(c, choice))
  {
    if choice.begins {
      AdvancesTracked(c, HelloFlight(c));
      UnsentTracked(HelloFlight(c), ClientHelloBody(c.helloRetry), choice);
    } else {
      AdvancesTracked(c, NewFlight(c));
    }
  }

  lemma UnsentTracked(c: Connection, body: Body, choice: Choice)
    requires F.Progresses(c.snd.config) && Tracked(c)
    ensures Tracked(Unsent(c, body, choice))
  {
    if choice.built {
      F.CreateHandshakeAdvances(c.snd, TypeOf(body), choice.content);
      AdvancesTracked(c, Unsent(c, body, choice));
    }
  }

  /** A counter at zero needs no witness. */
  lemma ZeroTracked(c: Connection, c': Connection)
    requires Tracked(c) && BeforeKeys(c.state) && c'.snd.hsSeq == 0
    requires c'.snd.queueTx == c.snd.queueTx && c'.snd.config == c.snd.config
    ensures Tracked(c')
  {
  }

  lemma GreetingFailsTracked(c: Connection)
    requires Tracked(c) && c.state.AwaitServerHello?
    ensures Tracked(GreetingFails(c))
  {
    GreetingFailsSender(c);
    if GreetingFails(c).snd != c.snd {
      ZeroTracked(c, GreetingFails(c));
    }
  }

  lemma GreetedTracked(c: Connection, reparses: bool)
    requires Tracked(c) && c.state.AwaitServerHello? && Greeted(c, reparses).Some?
    ensures Tracked(Greeted(c, reparses).value)
  {
    if HasComplete(c, ServerHello) {
      ReadFrame(c);
      AnswersTracked(Read(c).1, Read(c).0, c.transcript, reparses);
    }
  }

  lemma AnswersTracked(c: Connection, body: Body, before: seq<Spoken>, reparses: bool)
    requires Tracked(c) && c.state.AwaitServerHello? && body.ServerHelloBody?
    requires Answers(c, body, before, reparses).Some?
    ensures Tracked(Answers(c, body, before, reparses).value)
  {
    if body.retryRequest && c.helloRetry {
    } else if body.retryRequest {
      RetriedFrame(c, before, body);
      ZeroTracked(c, Retried(c, before, body));
    } else {
      InstalledFrame(c);
    }
  }

  /** A client past the ServerHello does not go back. */
  lemma NeverBack(c: Connection, input: Input)
    requires F.Progresses(c.snd.config) && !BeforeKeys(c.state)
    ensures !BeforeKeys(Take(c, input).state)
  {
    match input
    case Move(choice) => MoveSpends(c, choice);
    case Fail(choice) => FailKeepsState(c, choice);
    case CloseLocally => ClosingTouches(c);
    case _ => BetweenFrame(c, input);
  }

  /** A transition keeps its state, fails, or leads on; only a HelloRetryRequest spends the
      retry. */
  lemma MoveSpends(c: Connection, choice: Choice)
    requires F.Progresses(c.snd.config)
    ensures var c' := After(c, choice); Stays(c, c') || (Leads(c, c') && Descends(c, c'))
  {
    if Step(c, choice).Some? {
      StepDescends(c, choice);
    } else {
      FailKeepsState(c, choice);
    }
  }

  lemma TakeTracked(c: Connection, input: Input)
    requires F.Progresses(c.snd.config) && Tracked(c)
    ensures Tracked(Take(c, input))
  {
    if !BeforeKeys(c.state) {
      NeverBack(c, input);
    } else {
      match input
      case Move(choice) => MoveTracked(c, choice);
      case Fail(choice) => FailTracked(c, choice);
      case CloseLocally => ClosingTouches(c);
      case _ => BetweenTracked(c, input);
    }
  }

  lemma BetweenTracked(c: Connection, input: Input)
    requires F.Progresses(c.snd.config) && Tracked(c) && Between(input)
    ensures Tracked(Take(c, input))
  {
    BetweenFrame(c, input);
    MeanwhileAdvances(c.snd, input);
    AdvancesTracked(c, Take(c, input));
  }

  lemma MoveTracked(c: Connection, choice: Choice)
    requires F.Progresses(c.snd.config) && Tracked(c) && BeforeKeys(c.state)
    ensures Tracked(After(c, choice))
  {
    if c.state.SendClientHello? {
      HelloTracked(c, choice);
    } else if Greeted(c, choice.reparses).Some? {
      GreetedTracked(c, choice.reparses);
    } else {
      GreetingFailsTracked(c);
    }
  }

  lemma FailTracked(c: Connection, choice: Choice)
    requires F.Progresses(c.snd.config) && Tracked(c) && BeforeKeys(c.state)
    ensures Tracked(Fails(c, choice))
  {
    if c.state.SendClientHello? {
      HelloFailsTracked(c, choice);
    } else {
      GreetingFailsTracked(c);
    }
  }

  lemma {:induction false} RunTracked(c: Connection, inputs: seq<Input>)
    requires F.Progresses(c.snd.config) && Tracked(c)
    ensures Tracked(Run(c, inputs))
    decreases |inputs|
  {
    if inputs != [] {
      TakeKeepsConfig(c, inputs[0]);
      TakeTracked(c, inputs[0]);
      RunTracked(Take(c, inputs[0]), inputs[1..]);
    }
  }

  /** Empty the queue, then send an ACK of the handshake. */
  function Probe(n: nat): seq<Input> {
    if n == 0 then [HandshakeAckDue([])] else [PollPacket] + Probe(n - 1)
  }

  lemma {:induction false} ProbeHarmless(c: Connection, n: nat)
    requires F.Progresses(c.snd.config)
    ensures NoLateReset(c, Probe(n))
    decreases n
  {
    var input, rest := Probe(n)[0], Probe(n)[1..];
    TakeKeepsConfig(c, input);
    if n == 0 {
      assert rest == [];
    } else {
      assert rest == Probe(n - 1);
      ProbeHarmless(Take(c, input), n - 1);
    }
  }

  /** The counter stands at zero again although number 0 has been used. */
  ghost predicate Rewound(s: Sender) {
    && s.hsSecret.Some? && s.appSecret.None? && s.hsSeq == 0 && s.config.maxQueueTx > 0
    && exists i :: 0 <= i < |s.sent| && IsHandshakeZero(s, s.sent[i])
  }

  lemma {:induction false} ProbeRepeats(c: Connection, n: nat)
    requires F.Progresses(c.snd.config) && Rewound(c.snd) && |c.snd.queueTx| <= n
    ensures !Unrepeated(Run(c, Probe(n)).snd.sent)
    decreases n
  {
    ProbeStep(c, n);
    if n == 0 {
      RewoundRepeats(c.snd);
    } else {
      PopRewound(c.snd);
      ProbeRepeats(Take(c, PollPacket), n - 1);
    }
  }

  lemma ProbeStep(c: Connection, n: nat)
    requires F.Progresses(c.snd.config)
    ensures Take(c, PollPacket).snd == Perform(c.snd, PopPacket)
    ensures Run(c, Probe(n))
            == if n == 0 then Take(c, HandshakeAckDue([])) else Run(Take(c, PollPacket), Probe(n - 1))
  {
    if n == 0 {
      RunStep(c, HandshakeAckDue([]), []);
    } else {
      RunStep(c, PollPacket, Probe(n - 1));
    }
  }

  lemma RunStep(c: Connection, input: Input, rest: seq<Input>)
    requires F.Progresses(c.snd.config)
    ensures Take(c, input).snd.config == c.snd.config
    ensures Run(c, [input] + rest) == Run(Take(c, input), rest)
    ensures [input] + [] == [input]
  {
    TakeKeepsConfig(c, input);
    assert ([input] + rest)[1..] == rest;
  }

  lemma PopRewound(s: Sender)
    requires Rewound(s)
    ensures Rewound(Perform(s, PopPacket))
  {
    var i :| 0 <= i < |s.sent| && IsHandshakeZero(s, s.sent[i]);
    assert IsHandshakeZero(Perform(s, PopPacket), Perform(s, PopPacket).sent[i]);
  }

  lemma RewoundRepeats(s: Sender)
    requires Rewound(s) && s.queueTx == []
    ensures !Unrepeated(Perform(s, SendHandshakeAck([])).sent)
  {
    AckAsZero(s);
    var sent := Perform(s, SendHandshakeAck([])).sent;
    var i :| 0 <= i < |s.sent| && IsHandshakeZero(s, s.sent[i]);
    assert sent[i] == s.sent[i] && SameSlot(sent[i], sent[|s.sent|]);
  }

  lemma LateResetRewinds(c: Connection, input: Input)
    requires KeysInOrder(c) && Tracked(c) && LateReset(c, input)
    ensures Rewound(Take(c, input).snd)
  {
    ReadFrame(c);
    var body := Read(c).0;
    RetriedFrame(Read(c).1, c.transcript, body);
    assert Take(c, input) == Retried(Read(c).1, c.transcript, body);
    var i :| 0 <= i < |c.snd.sent| && IsHandshakeZero(c.snd, c.snd.sent[i]);
    assert IsHandshakeZero(Take(c, input).snd, Take(c, input).snd.sent[i]);
  }

  /** A run that is not free of late resets comes to a first one. */
  lemma {:induction false} FirstReset(c: Connection, inputs: seq<Input>) returns (k: nat)
    requires F.Progresses(c.snd.config) && !NoLateReset(c, inputs)
    ensures k < |inputs| && NoLateReset(c, inputs[..k]) && LateReset(Run(c, inputs[..k]), inputs[k])
    decreases |inputs|
  {
    if LateReset(c, inputs[0]) {
      assert inputs[..0] == [];
      return 0;
    }
    TakeKeepsConfig(c, inputs[0]);
    var j := FirstReset(Take(c, inputs[0]), inputs[1..]);
    k := j + 1;
    assert inputs[..k][0] == inputs[0] && inputs[..k][1..] == inputs[1..][..j];
  }

  lemma {:induction false} NoneInPrefix(c: Connection, inputs: seq<Input>, i: nat)
    requires F.Progresses(c.snd.config) && NoLateReset(c, inputs) && i <= |inputs|
    ensures NoLateReset(c, inputs[..i])
    decreases |inputs|
  {
    if i > 0 {
      TakeKeepsConfig(c, inputs[0]);
      NoneInPrefix(Take(c, inputs[0]), inputs[1..], i - 1);
      assert inputs[..i][0] == inputs[0] && inputs[..i][1..] == inputs[1..][..i - 1];
    }
  }

  /** From no moment of the run on can a number be repeated without another late reset. */
  ghost predicate KeepsApart(c: Connection, inputs: seq<Input>)
    requires F.Progresses(c.snd.config)
  {
    forall i, more :: 0 <= i <= |inputs| && NoLateReset(Run(c, inputs[..i]), more) ==>
      NeverRepeated(Run(Run(c, inputs[..i]), more))
  }

  lemma ResetRewinds(c: Connection, config: Config, inputs: seq<Input>, k: nat)
    requires Starts(c, config)
    requires F.Progresses(c.snd.config) && k < |inputs|
    requires NoLateReset(c, inputs[..k]) && LateReset(Run(c, inputs[..k]), inputs[k])
    ensures Rewound(Run(c, inputs[..k + 1]).snd)
  {
    StartInOrder(c, config);
    RunInOrder(c, inputs[..k]);
    RunTracked(c, inputs[..k]);
    LateResetRewinds(Run(c, inputs[..k]), inputs[k]);
    RunAppend(c, inputs[..k], [inputs[k]]);
    RunStep(Run(c, inputs[..k]), inputs[k], []);
    assert inputs[..k] + [inputs[k]] == inputs[..k + 1];
  }

  lemma LateResetSpoils(c: Connection, config: Config, inputs: seq<Input>)
    requires Starts(c, config)
    requires F.Progresses(c.snd.config) && !NoLateReset(c, inputs)
    ensures !KeepsApart(c, inputs)
  {
    var k := FirstReset(c, inputs);
    var after := Run(c, inputs[..k + 1]);
    ResetRewinds(c, config, inputs, k);
    var more := Probe(|after.snd.queueTx|);
    ProbeHarmless(after, |after.snd.queueTx|);
    ProbeRepeats(after, |after.snd.queueTx|);
    assert NoLateReset(Run(c, inputs[..k + 1]), more);
  }

  /** The numbers of a client's sealed records keep apart exactly when it accepts no
      HelloRetryRequest after it has sealed records under its handshake key. */
  lemma NumbersUniqueExact(c: Connection, config: Config, inputs: seq<Input>)
    requires Starts(c, config)
    ensures F.Progresses(c.snd.config) && (NoLateReset(c, inputs) <==> KeepsApart(c, inputs))
  {
    StartInOrder(c, config);
    if NoLateReset(c, inputs) {
      forall i, more | 0 <= i <= |inputs| && NoLateReset(Run(c, inputs[..i]), more)
        ensures NeverRepeated(Run(Run(c, inputs[..i]), more))
      {
        NoneInPrefix(c, inputs, i);
        RunInOrder(c, inputs[..i]);
        RunInOrder(Run(c, inputs[..i]), more);
      }
    } else {
      LateResetSpoils(c, config, inputs);
    }
  }

  lemma ThreeInputs(c: Connection, first: Input, second: Input, third: Input)
    requires F.Progresses(c.snd.config)
    ensures Take(c, first).snd.config == c.snd.config && Take(Take(c, first), second).snd.config == c.snd.config
    ensures Run(c, [first, second, third]) == Take(Take(Take(c, first), second), third)
  {
    RunStep(c, first, [second, third]);
    RunStep(Take(c, first), second, [third]);
    RunStep(Take(Take(c, first), second), third, []);
    assert [first] + [second, third] == [first, second, third] && [second] + [third] == [second, third];
  }

  /** A ServerHello whose keys are installed although it fails. */
  lemma HelloFails(c: Connection, choice: Choice)
    requires F.Progresses(c.snd.config) && c.state.AwaitServerHello? && c.peerSeqNo == 0 && c.received == map[]
    requires c.keyExchange && !c.helloRetry && c.snd.hsSecret.None? && !choice.reparses
    ensures var c' := Take(Take(c, Deliver(0, ServerHelloBody(false, true, true))), Move(choice));
            && c'.state == c.state && c'.peerSeqNo == 0 && c'.received == map[] && !c'.helloRetry
            && c'.snd == InstallHandshakeKeys(c.snd)
  {
    var c1 := Take(c, Deliver(0, ServerHelloBody(false, true, true)));
    assert HasComplete(c1, ServerHello) && Read(c1).0 == ServerHelloBody(false, true, true);
    ReadFrame(c1);
    assert Read(c1).1.received == map[];
    assert Greeted(c1, choice.reparses).None?;
    assert GreetingFails(c1) == Install(Read(c1).1);
  }

  lemma RetryAccepted(c: Connection, choice: Choice)
    requires F.Progresses(c.snd.config) && c.state.AwaitServerHello? && c.peerSeqNo == 0 && c.received == map[]
    requires !c.helloRetry
    ensures var c' := Take(Take(c, Deliver(0, ServerHelloBody(true, true, true))), Move(choice));
            c'.snd == ResetForHelloRetry(c.snd)
  {
    var c1 := Take(c, Deliver(0, ServerHelloBody(true, true, true)));
    assert HasComplete(c1, ServerHello) && Read(c1).0 == ServerHelloBody(true, true, true);
    ReadFrame(c1);
    RetriedFrame(Read(c1).1, c1.transcript, Read(c1).0);
  }

  /** Such a ServerHello, and an ACK sealed under its keys. */
  lemma HelloThenAck(c: Connection, choice: Choice)
    requires F.Progresses(c.snd.config) && c.state.AwaitServerHello? && c.peerSeqNo == 0 && c.received == map[]
    requires c.keyExchange && !c.helloRetry && c.snd.hsSecret.None? && c.snd.appSecret.None? && !choice.reparses
    requires c.snd.sent == [] && |c.snd.queueTx| + 1 < c.snd.config.maxQueueTx
    ensures var end := Run(c, [Deliver(0, ServerHelloBody(false, true, true)), Move(choice), HandshakeAckDue([])]);
            && end.state == c.state && end.peerSeqNo == 0 && end.received == map[] && !end.helloRetry
            && end.snd.hsSecret == Some(HandshakeTraffic(c.snd.side)) && end.snd.appSecret.None?
            && |end.snd.sent| == 1 && IsHandshakeZero(end.snd, end.snd.sent[0])
            && |end.snd.queueTx| < end.snd.config.maxQueueTx
  {
    ThreeInputs(c, Deliver(0, ServerHelloBody(false, true, true)), Move(choice), HandshakeAckDue([]));
    HelloFails(c, choice);
    var keyed := Take(Take(c, Deliver(0, ServerHelloBody(false, true, true))), Move(choice));
    AckAsZero(keyed.snd);
  }

  lemma RetryThenAck(c: Connection, choice: Choice)
    requires F.Progresses(c.snd.config) && c.state.AwaitServerHello? && c.peerSeqNo == 0 && c.received == map[]
    requires !c.helloRetry && c.snd.hsSecret.Some? && c.snd.appSecret.None?
    requires |c.snd.sent| == 1 && IsHandshakeZero(c.snd, c.snd.sent[0])
    requires |c.snd.queueTx| < c.snd.config.maxQueueTx
    ensures !NeverRepeated(
              Run(c, [Deliver(0, ServerHelloBody(true, true, true)), Move(choice), HandshakeAckDue([])]))
  {
    ThreeInputs(c, Deliver(0, ServerHelloBody(true, true, true)), Move(choice), HandshakeAckDue([]));
    RetryAccepted(c, choice);
    AckRepeats(Take(Take(c, Deliver(0, ServerHelloBody(true, true, true))), Move(choice)));
  }

  lemma AckRepeats(c: Connection)
    requires F.Progresses(c.snd.config) && c.snd.hsSecret.Some? && c.snd.appSecret.None? && c.snd.hsSeq == 0
    requires |c.snd.sent| == 1 && IsHandshakeZero(c.snd, c.snd.sent[0])
    requires |c.snd.queueTx| < c.snd.config.maxQueueTx
    ensures !NeverRepeated(Take(c, HandshakeAckDue([])))
  {
    AckAsZero(c.snd);
    var sent := Take(c, HandshakeAckDue([])).snd.sent;
    assert SameSlot(sent[0], sent[1]);
  }

  /** A sealed fatal alert kept back until its key came makes the ServerHello that brought the
      key fail; an ACK goes out under the key; a HelloRetryRequest is accepted in the place of
      that ServerHello; and the next ACK goes out under the same number. */
  lemma LateResetRun()
    ensures var c := NewFromHybrid(Config(1200, 10, 16), false);
            var choice := Choice([], true, true, false, false, [], []);
            var hello := [Deliver(0, ServerHelloBody(false, true, true)), Move(choice), HandshakeAckDue([])];
            var retry := [Deliver(0, ServerHelloBody(true, true, true)), Move(choice), HandshakeAckDue([])];
            F.Progresses(c.snd.config) && !NeverRepeated(Run(c, hello + retry))
  {
    var c := NewFromHybrid(Config(1200, 10, 16), false);
    var choice := Choice([], true, true, false, false, [], []);
    var hello := [Deliver(0, ServerHelloBody(false, true, true)), Move(choice), HandshakeAckDue([])];
    HelloThenAck(c, choice);
    RetryThenAck(Run(c, hello), choice);
    RunAppend(c, hello, [Deliver(0, ServerHelloBody(true, true, true)), Move(choice), HandshakeAckDue([])]);
  }

  // ----- When a connection is reported -----

  /** A CertificateVerify over everything before it, the server's certificates included. */
  ghost predicate VerifiedAt(t: seq<Spoken>, i: nat, j: nat) {
    i < j < |t| && t[i] == Said(CertificateBody(true)) && t[j] == Said(CertificateVerifyBody(t[..j]))
  }

  ghost predicate VerifyChecked(t: seq<Spoken>) {
    exists i: nat, j: nat :: VerifiedAt(t, i, j)
  }

  /** The server's Finished, under the handshake secret and over everything before it, the
      CertificateVerify included. */
  ghost predicate FinishedAt(t: seq<Spoken>, secret: seq<Spoken>, k: nat) {
    k < |t| && t[k] == Said(FinishedBody(false, secret, t[..k])) && VerifyChecked(t[..k])
  }

  ghost predicate Checked(c: Connection) {
    && c.serverCertificates && c.handshakeSecret.Some?
    && exists k: nat :: FinishedAt(c.transcript, c.handshakeSecret.value, k)
  }

  /** The states between the server's certificates and the report of the connection. */
  predicate Certified(state: State) {
    state.AwaitCertificateVerify? || state.AwaitFinished? || state.SendCertificate? || state.SendCertificateVerify?
    || state.SendFinished?
  }

  predicate CertificateAhead(state: State) {
    BeforeApplication(state) && !Certified(state)
  }

  /** What has been reported in each state: the certificates, then the connection. */
  predicate Reported(c: Connection) {
    && (CertificateAhead(c.state) ==> c.events == [])
    && (Certified(c.state) ==> c.events == [PeerCert])
    && (c.state.AwaitApplicationData? || c.state.HalfClosedLocal? ==> c.events == [PeerCert, Connected])
    && (c.state.Closed? ==> c.events <= [PeerCert, Connected])
  }

  ghost predicate Gated(c: Connection) {
    && Reported(c)
    && (c.state.AwaitCertificateVerify? ==> c.serverCertificates && Said(CertificateBody(true)) in c.transcript)
    && (c.state.AwaitFinished? ==> c.serverCertificates && VerifyChecked(c.transcript))
    && (c.state.SendCertificate? || c.state.SendCertificateVerify? || c.state.SendFinished? || Connected in c.events ==>
          Checked(c))
  }

  lemma VerifyStays(before: seq<Spoken>, after: seq<Spoken>)
    requires VerifyChecked(before) && before <= after
    ensures VerifyChecked(after)
  {
    var i: nat, j: nat :| VerifiedAt(before, i, j);
    assert after[i] == before[i] && after[j] == before[j] && after[..j] == before[..j];
    assert VerifiedAt(after, i, j);
  }

  lemma ChecksStay(c: Connection, c': Connection)
    requires Checked(c) && c.transcript <= c'.transcript
    requires c'.serverCertificates && c'.handshakeSecret == c.handshakeSecret
    ensures Checked(c')
  {
    var k: nat :| FinishedAt(c.transcript, c.handshakeSecret.value, k);
    assert c'.transcript[k] == c.transcript[k] && c'.transcript[..k] == c.transcript[..k];
    assert FinishedAt(c'.transcript, c.handshakeSecret.value, k);
  }

  lemma LastEntry(before: seq<Spoken>, body: Body)
    ensures (before + [Said(body)])[..|before|] == before && (before + [Said(body)])[|before|] == Said(body)
  {
  }

  /** What the transcript has been checked for survives its growth. */
  lemma GrowthGates(c: Connection, c': Connection)
    requires Gated(c) && c.transcript <= c'.transcript && c'.state == c.state && c'.events == c.events
    requires c'.serverCertificates == c.serverCertificates && c'.handshakeSecret == c.handshakeSecret
    ensures Gated(c')
  {
    if VerifyChecked(c.transcript) {
      VerifyStays(c.transcript, c'.transcript);
    }
    if Checked(c) {
      ChecksStay(c, c');
    }
    if c.state.AwaitCertificateVerify? {
      var i :| 0 <= i < |c.transcript| && c.transcript[i] == Said(CertificateBody(true));
      assert c'.transcript[i] == c.transcript[i];
    }
  }

  /** While the ServerHello is awaited, nothing has been reported. */
  lemma FailGates(c: Connection, choice: Choice)
    requires F.Progresses(c.snd.config) && Gated(c)
    ensures Gated(Fails(c, choice))
  {
    if c.state.AwaitServerHello? {
      GreetingFailsSender(c);
    } else {
      FailTouches(c, choice);
      GrowthGates(c, Fails(c, choice));
    }
  }

  lemma FailTouches(c: Connection, choice: Choice)
    requires F.Progresses(c.snd.config) && !c.state.AwaitServerHello?
    ensures Touches(c, Fails(c, choice))
  {
    if c.state.AwaitApplicationData? {
      ServeFailsSender(c, choice);
    } else if Writing(c.state) {
      SendFailsTouches(c, choice);
    } else {
      ReadFailsKeepsSender(c, choice);
    }
  }

  lemma UnsentTouches(c: Connection, body: Body, choice: Choice)
    requires F.Progresses(c.snd.config)
    ensures Touches(c, Unsent(c, body, choice))
  {
    if choice.built {
    }
  }

  lemma SendFailsTouches(c: Connection, choice: Choice)
    requires F.Progresses(c.snd.config) && Writing(c.state)
    ensures Touches(c, Fails(c, choice))
  {
    if c.state.SendClientHello? {
      GreetsNotTouches(c, choice);
    } else if c.state.SendCertificate? {
      UnsentTouches(NewFlight(c), CertificateBody(c.hasCertificate), choice);
    } else if c.state.SendCertificateVerify? {
      UnsentTouches(c, CertificateVerifyBody(c.transcript), choice);
    } else {
      FinishFailsTouches(c, choice);
    }
  }

  lemma GreetsNotTouches(c: Connection, choice: Choice)
    requires F.Progresses(c.snd.config)
    ensures Touches(c, GreetsNot(c, choice))
  {
    if choice.begins {
      UnsentTouches(HelloFlight(c), ClientHelloBody(c.helloRetry), choice);
    }
  }

  lemma FinishFailsTouches(c: Connection, choice: Choice)
    requires F.Progresses(c.snd.config)
    ensures Touches(c, FinishFails(c, choice))
  {
    if c.handshakeSecret.Some? {
      UnsentTouches(LastFlight(c), FinishedBody(true, c.handshakeSecret.value, c.transcript), choice);
    }
  }

  lemma FailKeepsState(c: Connection, choice: Choice)
    requires F.Progresses(c.snd.config)
    ensures Fails(c, choice).state == c.state && Fails(c, choice).helloRetry == c.helloRetry
  {
    if c.state.AwaitServerHello? {
      GreetingFailsSender(c);
    } else {
      FailTouches(c, choice);
    }
  }

  lemma VerifyGates(c: Connection)
    requires c.state.AwaitCertificateVerify? && Gated(c) && Reads(c, CertificateVerify).Some?
    ensures Gated(Reads(c, CertificateVerify).value)
  {
    if HasComplete(c, CertificateVerify) {
      var body := c.received[c.peerSeqNo];
      LastEntry(c.transcript, body);
      var i: nat :| i < |c.transcript| && c.transcript[i] == Said(CertificateBody(true));
      assert (c.transcript + [Said(body)])[i] == c.transcript[i];
      if body.signed == c.transcript {
        assert VerifiedAt(c.transcript + [Said(body)], i, |c.transcript|);
      }
    }
  }

  lemma FinishedGates(c: Connection)
    requires c.state.AwaitFinished? && Gated(c) && Reads(c, Finished).Some?
    ensures Gated(Reads(c, Finished).value)
  {
    if HasComplete(c, Finished) {
      var body := c.received[c.peerSeqNo];
      LastEntry(c.transcript, body);
      VerifyStays(c.transcript, c.transcript + [Said(body)]);
      if body.over == c.transcript && c.handshakeSecret == Some(body.secret) && !body.byClient {
        assert FinishedAt(c.transcript + [Said(body)], body.secret, |c.transcript|);
      }
    }
  }

  lemma CertificateGates(c: Connection)
    requires c.state.AwaitCertificate? && Gated(c) && Reads(c, Certificate).Some?
    ensures Gated(Reads(c, Certificate).value)
  {
    if HasComplete(c, Certificate) {
      LastEntry(c.transcript, c.received[c.peerSeqNo]);
    }
  }

  predicate StillEarly(c: Connection, c': Connection) {
    CertificateAhead(c'.state) && c'.events == c.events
  }

  lemma HelloStillEarly(c: Connection, reparses: bool)
    requires c.state.AwaitServerHello? && Greeted(c, reparses).Some?
    ensures StillEarly(c, Greeted(c, reparses).value)
  {
    if HasComplete(c, ServerHello) {
      ReadFrame(c);
      AnswersStillEarly(Read(c).1, Read(c).0, c.transcript, reparses);
    }
  }

  lemma AnswersStillEarly(c: Connection, body: Body, before: seq<Spoken>, reparses: bool)
    requires c.state.AwaitServerHello? && body.ServerHelloBody? && Answers(c, body, before, reparses).Some?
    ensures StillEarly(c, Answers(c, body, before, reparses).value)
  {
    if body.retryRequest && c.helloRetry {
    } else if body.retryRequest {
      RetriedFrame(c, before, body);
    } else {
      InstalledFrame(c);
    }
  }

  lemma ExtensionsStillEarly(c: Connection)
    requires c.state.AwaitEncryptedExtensions? && Reads(c, EncryptedExtensions).Some?
    ensures StillEarly(c, Reads(c, EncryptedExtensions).value)
  {
    if HasComplete(c, EncryptedExtensions) {
      ReadFrame(c);
    }
  }

  lemma RequestStillEarly(c: Connection)
    requires c.state.AwaitCertificateRequest? && ReadsRequest(c).Some?
    ensures StillEarly(c, ReadsRequest(c).value)
  {
    if HasComplete(c, Certificate) {
    } else if HasComplete(c, CertificateRequest) {
      ReadFrame(c);
    }
  }

  lemma EarlyGated(c: Connection, c': Connection)
    requires Gated(c) && CertificateAhead(c.state) && StillEarly(c, c')
    ensures Gated(c')
  {
  }

  lemma EarlierGates(c: Connection, choice: Choice)
    requires F.Progresses(c.snd.config) && Gated(c) && Step(c, choice).Some?
    requires c.state.AwaitServerHello? || c.state.AwaitEncryptedExtensions? || c.state.AwaitCertificateRequest?
    ensures Gated(Step(c, choice).value)
  {
    if c.state.AwaitServerHello? {
      HelloStillEarly(c, choice.reparses);
    } else if c.state.AwaitEncryptedExtensions? {
      ExtensionsStillEarly(c);
    } else {
      RequestStillEarly(c);
    }
    EarlyGated(c, Step(c, choice).value);
  }

  lemma WriteGates(c: Connection, body: Body, choice: Choice, state: State)
    requires F.Progresses(c.snd.config) && Gated(c) && Write(c, body, choice, state).Some?
    ensures var c' := Write(c, body, choice, state).value;
            && c'.state == state && c'.events == c.events && c'.handshakeSecret == c.handshakeSecret
            && (Checked(c) ==> Checked(c'))
  {
    if Checked(c) {
      ChecksStay(c, Write(c, body, choice, state).value);
    }
  }

  lemma SendsGate(c: Connection, choice: Choice)
    requires F.Progresses(c.snd.config) && Gated(c) && Step(c, choice).Some?
    requires c.state.SendClientHello? || c.state.SendCertificate? || c.state.SendCertificateVerify?
    ensures Gated(Step(c, choice).value)
  {
    if c.state.SendClientHello? {
      WriteGates(HelloFlight(c), ClientHelloBody(c.helloRetry), choice, AwaitServerHello);
    } else if c.state.SendCertificate? {
      WriteGates(NewFlight(c), CertificateBody(c.hasCertificate), choice,
                 if c.hasCertificate then SendCertificateVerify else SendFinished);
    } else {
      WriteGates(c, CertificateVerifyBody(c.transcript), choice, SendFinished);
    }
  }

  lemma ConnectGates(c: Connection, choice: Choice)
    requires F.Progresses(c.snd.config) && Gated(c) && Finish(c, choice).Some? && c.state.SendFinished?
    ensures Gated(Finish(c, choice).value)
  {
    WriteGates(LastFlight(c), FinishedBody(true, c.handshakeSecret.value, c.transcript), choice,
               AwaitApplicationData);
  }

  lemma ServeGates(c: Connection, choice: Choice)
    requires c.state.AwaitApplicationData? && Gated(c) && Serve(c, choice).Some?
    ensures Gated(Serve(c, choice).value)
  {
    ServeTouches(c, choice);
  }

  lemma ServeTouches(c: Connection, choice: Choice)
    requires Serve(c, choice).Some?
    ensures var c' := Serve(c, choice).value;
            && c'.state == c.state && c'.events == c.events && c'.transcript == c.transcript
            && c'.handshakeSecret == c.handshakeSecret && c'.serverCertificates == c.serverCertificates
  {
  }

  lemma StepGated(c: Connection, choice: Choice)
    requires F.Progresses(c.snd.config) && Gated(c) && Step(c, choice).Some?
    ensures Gated(Step(c, choice).value)
  {
    match c.state
    case AwaitCertificate => CertificateGates(c);
    case AwaitCertificateVerify => VerifyGates(c);
    case AwaitFinished => FinishedGates(c);
    case SendFinished => ConnectGates(c, choice);
    case AwaitApplicationData => ServeGates(c, choice);
    case HalfClosedLocal =>
    case Closed =>
    case SendClientHello => SendsGate(c, choice);
    case SendCertificate => SendsGate(c, choice);
    case SendCertificateVerify => SendsGate(c, choice);
    case _ => EarlierGates(c, choice);
  }

  lemma TakeGated(c: Connection, input: Input)
    requires F.Progresses(c.snd.config) && Gated(c)
    ensures Gated(Take(c, input))
  {
    match input
    case Move(choice) => MoveGated(c, choice);
    case Fail(choice) => FailGates(c, choice);
    case CloseLocally => ClosingGates(c);
    case _ => BetweenGated(c, input);
  }

  lemma BetweenGated(c: Connection, input: Input)
    requires F.Progresses(c.snd.config) && Gated(c) && Between(input)
    ensures Gated(Take(c, input))
  {
    BetweenFrame(c, input);
    GrowthGates(c, Take(c, input));
  }

  lemma MoveGated(c: Connection, choice: Choice)
    requires F.Progresses(c.snd.config) && Gated(c)
    ensures Gated(After(c, choice))
  {
    if Step(c, choice).Some? {
      StepGated(c, choice);
    } else {
      FailGates(c, choice);
    }
  }

  lemma ClosingGates(c: Connection)
    requires Gated(c)
    ensures Gated(Closing(c))
  {
    ClosingTouches(c);
    if Checked(c) {
      ChecksStay(c, Closing(c));
    }
  }

  lemma ClosingTouches(c: Connection)
    ensures var c' := Closing(c);
            && c'.events == c.events && c'.transcript == c.transcript && c'.serverCertificates == c.serverCertificates
            && c'.handshakeSecret == c.handshakeSecret && c'.helloRetry == c.helloRetry
            && (c'.state == c.state || c'.state.Closed? || (c.state.AwaitApplicationData? && c'.state.HalfClosedLocal?))
  {
    if !c.state.Closed? && !c.state.HalfClosedLocal? {
      FarewellConfig(c.snd, c.state);
      assert Closing(c) == c.(snd := Farewell(c.snd, c.state).0, state := Farewell(c.snd, c.state).1);
    }
  }

  lemma {:induction false} RunGated(c: Connection, inputs: seq<Input>)
    requires F.Progresses(c.snd.config) && Gated(c)
    ensures Gated(Run(c, inputs))
    decreases |inputs|
  {
    if inputs != [] {
      TakeKeepsConfig(c, inputs[0]);
      TakeGated(c, inputs[0]);
      RunGated(Take(c, inputs[0]), inputs[1..]);
    }
  }

  /** Whatever arrives and whatever fails, the client reports the server's certificates first
      and the connection second, each at most once, and the connection only with, in this
      order in its transcript, the server's certificates, a CertificateVerify over all before
      it, and the server's Finished over all before it under the handshake secret. */
  lemma ConnectedChecked(c: Connection, config: Config, inputs: seq<Input>)
    requires Starts(c, config)
    ensures F.Progresses(c.snd.config)
    ensures var end := Run(c, inputs);
            end.events <= [PeerCert, Connected] && (Connected in end.events ==> Checked(end))
  {
    StartInOrder(c, config);
    RunGated(c, inputs);
  }

  // ----- The retry -----

  /** How often a run goes back to sending a ClientHello. */
  ghost function BackEdges(c: Connection, inputs: seq<Input>): nat
    requires F.Progresses(c.snd.config)
    decreases |inputs|
  {
    if inputs == [] then 0
    else
      TakeKeepsConfig(c, inputs[0]);
      var c' := Take(c, inputs[0]);
      (if !c.state.SendClientHello? && c'.state.SendClientHello? then 1 else 0) + BackEdges(c', inputs[1..])
  }

  /** Only an edge back changes how many are left. */
  lemma TakeSpends(c: Connection, input: Input)
    requires F.Progresses(c.snd.config)
    ensures var c' := Take(c, input);
            && Retries(c') <= Retries(c)
            && (!c.state.SendClientHello? && c'.state.SendClientHello? ==> Retries(c') < Retries(c))
  {
    match input
    case Move(choice) => MoveSpends(c, choice);
    case Fail(choice) => FailKeepsState(c, choice);
    case CloseLocally => ClosingTouches(c);
    case _ => BetweenFrame(c, input);
  }

  /** At most once per connection. */
  lemma {:induction false} BackEdgeOnce(c: Connection, inputs: seq<Input>)
    requires F.Progresses(c.snd.config)
    ensures BackEdges(c, inputs) <= Retries(c)
    decreases |inputs|
  {
    if inputs != [] {
      TakeKeepsConfig(c, inputs[0]);
      TakeSpends(c, inputs[0]);
      BackEdgeOnce(Take(c, inputs[0]), inputs[1..]);
    }
  }
}
