/** The whole conversation of a DTLS 1.3 client: what is said in a run in which nothing fails, and
    that a server's flight that is what it should be is accepted. */
module Conversation13 {
  import opened Handshakes
  import opened Records
  import opened SendSide
  import opened Client13
  import opened Gate13
  import opened Speaking13
  import F = Fragmentation

  // ----- The whole conversation -----

  const ACCEPTED_HELLO := ServerHelloBody(false, true, true)

  /** What precedes the accepted ServerHello: the ClientHello, or the hash of one that was sent
      back, the HelloRetryRequest, and the second one. */
  ghost predicate Greeting(t: seq<Spoken>, retry: bool) {
    if retry then |t| == 3 && SentBack(t[..2]) && t[2] == Said(ClientHelloBody(true))
    else t == [Said(ClientHelloBody(false))]
  }

  ghost predicate SentBack(t: seq<Spoken>) {
    && |t| == 2 && t[0] == MessageHash([Said(ClientHelloBody(false))])
    && exists completes :: t[1] == Said(ServerHelloBody(true, true, completes))
  }

  function WithHello(g: seq<Spoken>): seq<Spoken> {
    g + [Said(ACCEPTED_HELLO)]
  }

  function WithExtensions(g: seq<Spoken>): seq<Spoken> {
    WithHello(g) + [Said(EncryptedExtensionsBody)]
  }

  function WithRequest(g: seq<Spoken>, asked: bool): seq<Spoken> {
    if asked then WithExtensions(g) + [Said(CertificateRequestBody(true))] else WithExtensions(g)
  }

  function WithCertificate(g: seq<Spoken>, asked: bool): seq<Spoken> {
    WithRequest(g, asked) + [Said(CertificateBody(true))]
  }

  function WithVerify(g: seq<Spoken>, asked: bool): seq<Spoken> {
    WithCertificate(g, asked) + [Said(CertificateVerifyBody(WithCertificate(g, asked)))]
  }

  function WithFinished(g: seq<Spoken>, asked: bool): seq<Spoken> {
    WithVerify(g, asked) + [Said(FinishedBody(false, WithHello(g), WithVerify(g, asked)))]
  }

  function WithOwnCertificate(g: seq<Spoken>, asked: bool, has: bool): seq<Spoken> {
    if asked then WithFinished(g, asked) + [Said(CertificateBody(has))] else WithFinished(g, asked)
  }

  function WithOwnVerify(g: seq<Spoken>, asked: bool, has: bool): seq<Spoken> {
    var t := WithOwnCertificate(g, asked, has);
    if asked && has then t + [Said(CertificateVerifyBody(t))] else t
  }

  /** All that is said until the connection is reported. */
  function Conversation(g: seq<Spoken>, asked: bool, has: bool): seq<Spoken> {
    var t := WithOwnVerify(g, asked, has);
    t + [Said(FinishedBody(true, WithHello(g), t))]
  }

  /** How far it has come in each state behind the ServerHello. */
  function Stage(state: State, g: seq<Spoken>, asked: bool, has: bool): seq<Spoken> {
    match state
    case AwaitEncryptedExtensions => WithHello(g)
    case AwaitCertificateRequest => WithExtensions(g)
    case AwaitCertificate => WithRequest(g, asked)
    case AwaitCertificateVerify => WithCertificate(g, asked)
    case AwaitFinished => WithVerify(g, asked)
    case SendCertificate => WithFinished(g, asked)
    case SendCertificateVerify => WithOwnCertificate(g, asked, has)
    case SendFinished => WithOwnVerify(g, asked, has)
    case _ => Conversation(g, asked, has)
  }

  ghost predicate Staged(c: Connection, g: seq<Spoken>) {
    && Greeting(g, c.helloRetry) && c.handshakeSecret == Some(WithHello(g))
    && c.transcript == Stage(c.state, g, c.clientAuthRequested, c.hasCertificate)
    && (c.state.AwaitEncryptedExtensions? || c.state.AwaitCertificateRequest? ==> !c.clientAuthRequested)
    && (c.state.SendCertificate? ==> c.clientAuthRequested)
    && (c.state.SendCertificateVerify? ==> c.clientAuthRequested && c.hasCertificate)
  }

  ghost predicate Talks(c: Connection) {
    if c.state.SendClientHello? then
      !c.clientAuthRequested && if c.helloRetry then SentBack(c.transcript) else c.transcript == []
    else if c.state.AwaitServerHello? then !c.clientAuthRequested && Greeting(c.transcript, c.helloRetry)
    else (c.state.Closed? && Connected !in c.events) || exists g :: Staged(c, g)
  }

  lemma GreetTalks(c: Connection, choice: Choice)
    requires F.Progresses(c.snd.config) && c.state.SendClientHello? && Talks(c) && Step(c, choice).Some?
    ensures Talks(Step(c, choice).value)
  {
    var c' := Step(c, choice).value;
    WriteShape(HelloFlight(c), ClientHelloBody(c.helloRetry), choice, AwaitServerHello);
    GreetKeepsRetry(c, choice);
    if c.helloRetry {
      assert c'.transcript[..2] == c.transcript;
    }
  }

  lemma GreetKeepsRetry(c: Connection, choice: Choice)
    requires F.Progresses(c.snd.config) && Greets(c, choice).Some?
    ensures Greets(c, choice).value.helloRetry == c.helloRetry
  {
  }

  lemma HelloTalks(c: Connection, reparses: bool)
    requires c.state.AwaitServerHello? && Talks(c) && Greeted(c, reparses).Some?
    ensures Talks(Greeted(c, reparses).value)
  {
    if HasComplete(c, ServerHello) {
      ReadFrame(c);
      AnswerTalks(c, Read(c).1, Read(c).0, reparses);
    }
  }

  lemma AnswerTalks(c: Connection, r: Connection, body: Body, reparses: bool)
    requires c.state.AwaitServerHello? && Talks(c) && body.ServerHelloBody?
    requires SameButRead(c, r) && r.transcript == c.transcript + [Said(body)]
    requires r.clientAuthRequested == c.clientAuthRequested && r.hasCertificate == c.hasCertificate
    requires Answers(r, body, c.transcript, reparses).Some?
    ensures Talks(Answers(r, body, c.transcript, reparses).value)
  {
    var c' := Answers(r, body, c.transcript, reparses).value;
    if body.retryRequest && c.helloRetry {
      assert Talks(c');
    } else if body.retryRequest {
      RetriedFrame(r, c.transcript, body);
      RetriedTalk(r, c.transcript, body);
      assert c'.transcript[1] == Said(ServerHelloBody(true, true, body.completes));
      assert SentBack(c'.transcript);
    } else {
      InstalledFrame(r);
      InstalledTalk(r);
      assert body == ACCEPTED_HELLO;
      assert Staged(c', c.transcript);
    }
  }

  predicate Reading13(state: State) {
    state.AwaitEncryptedExtensions? || state.AwaitCertificateRequest? || state.AwaitCertificate?
    || state.AwaitCertificateVerify? || state.AwaitFinished?
  }

  lemma ReadTalks(c: Connection, wanted: MessageType)
    requires (Expected13(c.state, wanted) || (c.state.AwaitFinished? && wanted == Finished))
    requires Talks(c) && Reads(c, wanted).Some?
    ensures Talks(Reads(c, wanted).value)
  {
    if HasComplete(c, wanted) {
      ReadFrame(c);
      AcceptTalks(c, Read(c).1, Read(c).0, wanted);
    }
  }

  lemma AcceptTalks(c: Connection, r: Connection, body: Body, wanted: MessageType)
    requires (Expected13(c.state, wanted) || (c.state.AwaitFinished? && wanted == Finished))
    requires Talks(c) && TypeOf(body) == wanted
    requires SameButRead(c, r) && r.transcript == c.transcript + [Said(body)] && SameTerms(c, r)
    requires Accepts(r, body, c.transcript).Some?
    ensures Talks(Accepts(r, body, c.transcript).value)
  {
    var g :| Staged(c, g);
    var c' := Accepts(r, body, c.transcript).value;
    AcceptFrame(r, body, c.transcript);
    assert Staged(c', g);
  }

  /** What accepting a message may change. */
  lemma AcceptFrame(c: Connection, body: Body, before: seq<Spoken>)
    requires Accepts(c, body, before).Some?
    ensures var c' := Accepts(c, body, before).value;
            && c'.transcript == c.transcript && c'.helloRetry == c.helloRetry && c'.hasCertificate == c.hasCertificate
            && c'.handshakeSecret == c.handshakeSecret
            && c'.clientAuthRequested == (c.clientAuthRequested || body.CertificateRequestBody?)
            && c'.state == NextState(c, body)
    ensures Passes(c, body, before)
  {
    match body
    case EncryptedExtensionsBody =>
    case CertificateRequestBody(_) =>
    case CertificateBody(_) =>
    case CertificateVerifyBody(_) =>
    case FinishedBody(_, _, _) =>
  }

  function NextState(c: Connection, body: Body): State {
    match body
    case EncryptedExtensionsBody => AwaitCertificateRequest
    case CertificateRequestBody(_) => AwaitCertificate
    case CertificateBody(_) => AwaitCertificateVerify
    case CertificateVerifyBody(_) => AwaitFinished
    case _ => if c.clientAuthRequested then SendCertificate else SendFinished
  }

  predicate Passes(c: Connection, body: Body, before: seq<Spoken>) {
    match body
    case CertificateRequestBody(parses) => parses
    case CertificateBody(present) => present
    case CertificateVerifyBody(signed) => signed == before
    case FinishedBody(byClient, secret, over) => !byClient && c.handshakeSecret == Some(secret) && over == before
    case _ => true
  }

  /** A server that sends its certificate next requests none. */
  lemma RequestTalks(c: Connection)
    requires c.state.AwaitCertificateRequest? && Talks(c) && ReadsRequest(c).Some?
    ensures Talks(ReadsRequest(c).value)
  {
    if HasComplete(c, Certificate) {
      var g :| Staged(c, g);
      assert Staged(ReadsRequest(c).value, g);
    } else {
      ReadTalks(c, CertificateRequest);
    }
  }

  lemma SayTalks(c: Connection, c': Connection, body: Body, state: State)
    requires Speaking(c.state) && Talks(c) && SaidOnly(c, c', body, state) && c'.helloRetry == c.helloRetry
    requires match c.state
             case SendCertificate => body == CertificateBody(c.hasCertificate) && state == AfterCertificate(c)
             case SendCertificateVerify => body == CertificateVerifyBody(c.transcript) && state == SendFinished
             case _ =>
               c.handshakeSecret.Some? && body == FinishedBody(true, c.handshakeSecret.value, c.transcript)
               && state == AwaitApplicationData
    ensures Talks(c')
  {
    var g :| Staged(c, g);
    assert Staged(c', g);
  }

  lemma WriteTalks(c: Connection, choice: Choice)
    requires F.Progresses(c.snd.config) && Speaking(c.state) && Talks(c) && Step(c, choice).Some?
    ensures Talks(Step(c, choice).value)
  {
    var c' := Step(c, choice).value;
    StepDescends(c, choice);
    if c.state.SendCertificate? {
      WriteShape(NewFlight(c), CertificateBody(c.hasCertificate), choice, AfterCertificate(c));
      SayTalks(c, c', CertificateBody(c.hasCertificate), AfterCertificate(c));
    } else if c.state.SendCertificateVerify? {
      WriteShape(c, CertificateVerifyBody(c.transcript), choice, SendFinished);
      SayTalks(c, c', CertificateVerifyBody(c.transcript), SendFinished);
    } else {
      FinishTalks(c, choice);
    }
  }

  lemma FinishTalks(c: Connection, choice: Choice)
    requires F.Progresses(c.snd.config) && c.state.SendFinished? && Talks(c) && Finish(c, choice).Some?
    ensures Talks(Finish(c, choice).value)
  {
    var g :| Staged(c, g);
    LastFlightShape(c);
    ConcludesShape(LastFlight(c), choice);
    StepDescends(c, choice);
    SayTalks(c, Finish(c, choice).value, FinishedBody(true, c.handshakeSecret.value, c.transcript),
             AwaitApplicationData);
  }

  /** Nothing said. */
  lemma SilentTalks(c: Connection, c': Connection)
    requires Talks(c) && SameTerms(c, c') && c'.transcript == c.transcript && c'.events == c.events
    requires c'.helloRetry == c.helloRetry
    requires c'.state == c.state
             || ((c'.state.Closed? || c'.state.HalfClosedLocal?)
                 && (c.state.AwaitApplicationData? || c.state.HalfClosedLocal?))
             || (c'.state.Closed? && Connected !in c.events)
    ensures Talks(c')
  {
    if !BeforeKeys(c.state) && !(c'.state.Closed? && Connected !in c'.events) {
      var g :| Staged(c, g);
      assert Staged(c', g);
    }
  }

  lemma LaterTalks(c: Connection, choice: Choice)
    requires c.state.AwaitApplicationData? || c.state.HalfClosedLocal? || c.state.Closed?
    requires F.Progresses(c.snd.config) && Talks(c) && Step(c, choice).Some?
    ensures Talks(Step(c, choice).value)
  {
    LaterStep(c, choice);
    StepDescends(c, choice);
    SilentTalks(c, Step(c, choice).value);
  }

  lemma StepTalks(c: Connection, choice: Choice)
    requires F.Progresses(c.snd.config) && Talks(c) && Step(c, choice).Some?
    ensures Talks(Step(c, choice).value)
  {
    match c.state
    case SendClientHello => GreetTalks(c, choice);
    case AwaitServerHello => HelloTalks(c, choice.reparses);
    case AwaitEncryptedExtensions => ReadTalks(c, EncryptedExtensions);
    case AwaitCertificateRequest => RequestTalks(c);
    case AwaitCertificate => ReadTalks(c, Certificate);
    case AwaitCertificateVerify => ReadTalks(c, CertificateVerify);
    case AwaitFinished => ReadTalks(c, Finished);
    case SendCertificate => WriteTalks(c, choice);
    case SendCertificateVerify => WriteTalks(c, choice);
    case SendFinished => WriteTalks(c, choice);
    case _ => LaterTalks(c, choice);
  }

  lemma AsideTalks(c: Connection, input: Input)
    requires Between(input) && Talks(c)
    ensures Talks(Aside(c, input))
  {
    AsideTerms(c, input);
    BetweenFrame(c, input);
    SilentTalks(c, Aside(c, input));
  }

  lemma ClosingTalks(c: Connection)
    requires Gated(c) && Talks(c)
    ensures Talks(Closing(c))
  {
    ClosingTouches(c);
    ClosingTerms(c);
    SilentTalks(c, Closing(c));
  }

  /** An input that is no error, whatever arrives. */
  predicate Smooth(c: Connection, input: Input)
    requires F.Progresses(c.snd.config)
  {
    !input.Fail? && (input.Move? ==> Step(c, input.choice).Some?)
  }

  ghost predicate SmoothRun(c: Connection, inputs: seq<Input>)
    requires F.Progresses(c.snd.config)
    decreases |inputs|
  {
    inputs == []
    || (Smooth(c, inputs[0])
        && (TakeKeepsConfig(c, inputs[0]); SmoothRun(Take(c, inputs[0]), inputs[1..])))
  }

  lemma TakeTalks(c: Connection, input: Input)
    requires F.Progresses(c.snd.config) && Gated(c) && Talks(c) && Smooth(c, input)
    ensures Talks(Take(c, input))
  {
    match input
    case Move(choice) => StepTalks(c, choice);
    case CloseLocally => ClosingTalks(c);
    case _ => AsideTalks(c, input);
  }

  lemma OneSmooth(c: Connection, inputs: seq<Input>) returns (next: Connection)
    requires F.Progresses(c.snd.config) && inputs != [] && Gated(c) && Talks(c) && SmoothRun(c, inputs)
    ensures F.Progresses(next.snd.config) && Gated(next) && Talks(next) && SmoothRun(next, inputs[1..])
    ensures Run(c, inputs) == Run(next, inputs[1..])
  {
    next := Take(c, inputs[0]);
    TakeKeepsConfig(c, inputs[0]);
    TakeGated(c, inputs[0]);
    TakeTalks(c, inputs[0]);
  }

  lemma {:induction false} RunTalks(c: Connection, inputs: seq<Input>)
    requires F.Progresses(c.snd.config) && Gated(c) && Talks(c) && SmoothRun(c, inputs)
    ensures Talks(Run(c, inputs)) && Gated(Run(c, inputs))
    decreases |inputs|
  {
    if inputs != [] {
      var next := OneSmooth(c, inputs);
      RunTalks(next, inputs[1..]);
    }
  }

  /** In a run without errors, whatever else arrives, the transcript behind a reported connection
      is the whole TLS 1.3 conversation and nothing else: the hellos, one sent back or none, the
      server's flight, in it a CertificateRequest exactly if the client answers one, and the
      client's, every signature and MAC over all before it. */
  lemma ConversationExact(c: Connection, config: Config, inputs: seq<Input>)
    requires Starts(c, config)
    ensures F.Progresses(c.snd.config)
    ensures var end := Run(c, inputs);
            SmoothRun(c, inputs) && Connected in end.events ==>
              exists g :: Greeting(g, end.helloRetry)
                          && end.transcript == Conversation(g, end.clientAuthRequested, end.hasCertificate)
  {
    StartInOrder(c, config);
    if SmoothRun(c, inputs) {
      RunTalks(c, inputs);
      var end := Run(c, inputs);
      if Connected in end.events {
        var g :| Staged(end, g);
        assert !Speaking(end.state) && !BeforeApplication(end.state);
      }
    }
  }

  // ----- What the client accepts -----

  /** The server's flight as it should be. */
  function ServerFlight(g: seq<Spoken>, asked: bool): seq<Body> {
    [ACCEPTED_HELLO, EncryptedExtensionsBody] + (if asked then [CertificateRequestBody(true)] else [])
    + [CertificateBody(true), CertificateVerifyBody(WithCertificate(g, asked)),
       FinishedBody(false, WithHello(g), WithVerify(g, asked))]
  }

  /** The message `ahead` of the next one has come. */
  predicate Has(c: Connection, ahead: nat, body: Body) {
    c.peerSeqNo + ahead in c.received && c.received[c.peerSeqNo + ahead] == body
  }

  /** These messages have come, and are the next to be read. */
  predicate Waiting(c: Connection, bodies: seq<Body>) {
    forall i :: 0 <= i < |bodies| ==> Has(c, i, bodies[i])
  }

  /** One message read, the others still waiting. */
  predicate TookOne(c: Connection, c': Connection) {
    && c'.peerSeqNo == c.peerSeqNo + 1 && c'.received == c.received - {c.peerSeqNo}
    && c'.hasCertificate == c.hasCertificate && c'.helloRetry == c.helloRetry && c'.snd.config == c.snd.config
  }

  lemma OthersWait(c: Connection, c': Connection, bodies: seq<Body>)
    requires bodies != [] && Waiting(c, bodies) && TookOne(c, c')
    ensures Waiting(c', bodies[1..])
  {
    forall i | 0 <= i < |bodies[1..]|
      ensures Has(c', i, bodies[1..][i])
    {
      assert Has(c, i + 1, bodies[i + 1]);
    }
  }

  lemma HelloAccepted(c: Connection, reparses: bool)
    requires c.state.AwaitServerHello? && c.keyExchange && reparses && !c.clientAuthRequested
    requires Greeting(c.transcript, c.helloRetry) && Has(c, 0, ACCEPTED_HELLO)
    ensures Greeted(c, reparses).Some?
    ensures var c' := Greeted(c, reparses).value;
            && c'.state.AwaitEncryptedExtensions? && Staged(c', c.transcript) && TookOne(c, c')
            && !c'.clientAuthRequested && c'.events == c.events
  {
    ReadFrame(c);
    ExchangeCompletes(Read(c).1, c.transcript);
    assert Greeted(c, reparses) == Exchanged(Read(c).1, ACCEPTED_HELLO, reparses);
  }

  lemma ExchangeCompletes(c: Connection, g: seq<Spoken>)
    requires c.keyExchange && c.transcript == WithHello(g) && Greeting(g, c.helloRetry) && !c.clientAuthRequested
    ensures Exchanged(c, ACCEPTED_HELLO, true).Some?
    ensures var c' := Exchanged(c, ACCEPTED_HELLO, true).value;
            && c'.state.AwaitEncryptedExtensions? && Staged(c', g) && !c'.clientAuthRequested && c'.events == c.events
            && c'.peerSeqNo == c.peerSeqNo + 1 && c'.received == c.received
            && c'.hasCertificate == c.hasCertificate && c'.helloRetry == c.helloRetry && c'.snd.config == c.snd.config
  {
    InstalledFrame(c);
    InstalledTalk(c);
  }

  lemma BodyAccepted(c: Connection, wanted: MessageType, g: seq<Spoken>, body: Body)
    requires Expected13(c.state, wanted) || (c.state.AwaitFinished? && wanted == Finished)
    requires Staged(c, g) && TypeOf(body) == wanted && Has(c, 0, body) && Passes(c, body, c.transcript)
    requires c.state.AwaitCertificateVerify? ==> c.serverCertificates
    ensures Reads(c, wanted).Some?
    ensures var c' := Reads(c, wanted).value;
            && Staged(c', g) && c'.state == NextState(c, body) && TookOne(c, c')
            && c'.clientAuthRequested == (c.clientAuthRequested || body.CertificateRequestBody?)
            && c'.serverCertificates == (c.serverCertificates || body.CertificateBody?)
            && c'.events == c.events + if body.CertificateBody? then [PeerCert] else []
  {
    var r := BodyRead(c, wanted, body);
    AcceptSucceeds(r, body, c.transcript);
    AcceptFrame(r, body, c.transcript);
    NextStaged(c, r, Reads(c, wanted).value, g, body);
  }

  lemma BodyRead(c: Connection, wanted: MessageType, body: Body) returns (r: Connection)
    requires TypeOf(body) == wanted && Has(c, 0, body)
    ensures Reads(c, wanted) == Accepts(r, body, c.transcript)
    ensures SameButRead(c, r) && SameTerms(c, r) && r.transcript == c.transcript + [Said(body)]
    ensures r.received == c.received - {c.peerSeqNo} && r.serverCertificates == c.serverCertificates
  {
    r := Read(c).1;
  }

  /** What has been accepted takes the conversation one stage further. */
  lemma NextStaged(c: Connection, r: Connection, c': Connection, g: seq<Spoken>, body: Body)
    requires Expected13(c.state, TypeOf(body)) || (c.state.AwaitFinished? && body.FinishedBody?)
    requires Staged(c, g) && Passes(c, body, c.transcript)
    requires SameButRead(c, r) && SameTerms(c, r) && r.transcript == c.transcript + [Said(body)]
    requires c'.transcript == r.transcript && c'.helloRetry == r.helloRetry && c'.hasCertificate == r.hasCertificate
    requires c'.handshakeSecret == r.handshakeSecret && c'.state == NextState(c, body)
    requires c'.clientAuthRequested == (c.clientAuthRequested || body.CertificateRequestBody?)
    ensures Staged(c', g)
  {
  }

  lemma AcceptSucceeds(c: Connection, body: Body, before: seq<Spoken>)
    requires Passes(c, body, before) && (body.CertificateVerifyBody? ==> c.serverCertificates)
    requires body.EncryptedExtensionsBody? || body.CertificateRequestBody? || body.CertificateBody?
             || body.CertificateVerifyBody? || body.FinishedBody?
    ensures Accepts(c, body, before).Some?
    ensures var c' := Accepts(c, body, before).value;
            && c'.peerSeqNo == c.peerSeqNo + 1 && c'.received == c.received && c'.snd.config == c.snd.config
            && c'.serverCertificates == (c.serverCertificates || body.CertificateBody?)
            && c'.events == c.events + if body.CertificateBody? then [PeerCert] else []
  {
    match body
    case EncryptedExtensionsBody =>
    case CertificateRequestBody(_) =>
    case CertificateBody(_) =>
    case CertificateVerifyBody(_) =>
    case FinishedBody(_, _, _) =>
  }

  /** How the client stands before the flight, and after so many of its messages. */
  ghost predicate Following(c: Connection, g: seq<Spoken>, bodies: seq<Body>, state: State, asked: bool) {
    && F.Progresses(c.snd.config) && Staged(c, g) && Waiting(c, bodies) && c.state == state
    && c.clientAuthRequested == asked
  }

  lemma Follows(c: Connection, choice: Choice, wanted: MessageType, g: seq<Spoken>, bodies: seq<Body>, asked: bool)
    requires bodies != [] && Following(c, g, bodies, c.state, asked) && TypeOf(bodies[0]) == wanted
    requires Expected13(c.state, wanted) || (c.state.AwaitFinished? && wanted == Finished)
    requires Passes(c, bodies[0], c.transcript)
    requires c.state.AwaitCertificateVerify? ==> c.serverCertificates
    ensures Step(c, choice).Some?
    ensures var c' := Step(c, choice).value;
            && Following(c', g, bodies[1..], NextState(c, bodies[0]), asked || bodies[0].CertificateRequestBody?)
            && c'.serverCertificates == (c.serverCertificates || bodies[0].CertificateBody?)
            && c'.events == c.events + if bodies[0].CertificateBody? then [PeerCert] else []
  {
    assert Has(c, 0, bodies[0]);
    BodyAccepted(c, wanted, g, bodies[0]);
    StepReads(c, choice, wanted, bodies[0]);
    OthersWait(c, Reads(c, wanted).value, bodies);
  }

  lemma StepReads(c: Connection, choice: Choice, wanted: MessageType, body: Body)
    requires F.Progresses(c.snd.config) && TypeOf(body) == wanted && Has(c, 0, body)
    requires Expected13(c.state, wanted) || (c.state.AwaitFinished? && wanted == Finished)
    ensures Step(c, choice) == Reads(c, wanted)
  {
  }

  /** From the ServerHello to the server's certificates, with or without a request for the
      client's. */
  lemma RequestPassed(c: Connection, choice: Choice, g: seq<Spoken>, asked: bool)
    requires c.state.AwaitCertificateRequest?
    requires Following(c, g, ServerFlight(g, asked)[2..], c.state, false)
    ensures Step(c, choice).Some?
    ensures var c' := Step(c, choice).value;
            && Following(c', g, ServerFlight(g, asked)[if asked then 3 else 2..], AwaitCertificate, asked)
            && c'.events == c.events
  {
    if asked {
      Follows(c, choice, CertificateRequest, g, ServerFlight(g, asked)[2..], false);
      assert ServerFlight(g, asked)[2..][1..] == ServerFlight(g, asked)[3..];
    } else {
      NoneRequested(c, choice, g, ServerFlight(g, asked)[2..]);
    }
  }

  lemma NoneRequested(c: Connection, choice: Choice, g: seq<Spoken>, bodies: seq<Body>)
    requires bodies != [] && bodies[0].CertificateBody? && Following(c, g, bodies, AwaitCertificateRequest, false)
    ensures Step(c, choice) == Some(c.(state := AwaitCertificate))
    ensures Following(c.(state := AwaitCertificate), g, bodies, AwaitCertificate, false)
  {
    assert Has(c, 0, bodies[0]);
    var c' := c.(state := AwaitCertificate);
    assert forall i :: 0 <= i < |bodies| ==> Has(c, i, bodies[i]) && Has(c', i, bodies[i]);
  }

  function Moves(choice: Choice, n: nat): seq<Input> {
    if n == 0 then [] else [Move(choice)] + Moves(choice, n - 1)
  }

  lemma MovesOn(c: Connection, choice: Choice, n: nat)
    requires F.Progresses(c.snd.config) && Step(c, choice).Some?
    ensures F.Progresses(Step(c, choice).value.snd.config)
    ensures Run(c, Moves(choice, n + 1)) == Run(Step(c, choice).value, Moves(choice, n))
  {
    TakeKeepsConfig(c, Move(choice));
    assert Moves(choice, n + 1)[1..] == Moves(choice, n);
  }

  /** A server's flight that is what it should be, all of it there, is read to the end in six
      transitions: keys are installed, the certificates reported, and the client is about to
      answer the request for its certificate, if there was one. */
  lemma FlightRead(c: Connection, choice: Choice, asked: bool)
    requires F.Progresses(c.snd.config) && c.state.AwaitServerHello? && c.keyExchange && !c.clientAuthRequested
    requires Greeting(c.transcript, c.helloRetry) && Waiting(c, ServerFlight(c.transcript, asked)) && choice.reparses
    ensures var end := Run(c, Moves(choice, 6));
            && end.state == (if asked then SendCertificate else SendFinished)
            && end.transcript == WithFinished(c.transcript, asked) && end.clientAuthRequested == asked
            && end.handshakeSecret == Some(WithHello(c.transcript)) && end.events == c.events + [PeerCert]
  {
    var g, bodies := c.transcript, ServerFlight(c.transcript, asked);
    HelloFollowed(c, choice, asked);
    var c1 := Step(c, choice).value;
    MovesOn(c, choice, 5);
    Follows(c1, choice, EncryptedExtensions, g, bodies[1..], false);
    MovesOn(c1, choice, 4);
    assert bodies[1..][1..] == bodies[2..];
    RequestAndRest(Step(c1, choice).value, choice, g, asked);
  }

  lemma HelloFollowed(c: Connection, choice: Choice, asked: bool)
    requires F.Progresses(c.snd.config) && c.state.AwaitServerHello? && c.keyExchange && !c.clientAuthRequested
    requires Greeting(c.transcript, c.helloRetry) && Waiting(c, ServerFlight(c.transcript, asked)) && choice.reparses
    ensures Step(c, choice).Some?
    ensures var c' := Step(c, choice).value;
            && Following(c', c.transcript, ServerFlight(c.transcript, asked)[1..], AwaitEncryptedExtensions, false)
            && c'.events == c.events
  {
    assert Has(c, 0, ServerFlight(c.transcript, asked)[0]);
    HelloAccepted(c, choice.reparses);
    OthersWait(c, Step(c, choice).value, ServerFlight(c.transcript, asked));
  }

  lemma RequestAndRest(c: Connection, choice: Choice, g: seq<Spoken>, asked: bool)
    requires c.state.AwaitCertificateRequest?
    requires Following(c, g, ServerFlight(g, asked)[2..], c.state, false)
    ensures var end := Run(c, Moves(choice, 4));
            && end.state == (if asked then SendCertificate else SendFinished)
            && end.transcript == WithFinished(g, asked) && end.clientAuthRequested == asked
            && end.handshakeSecret == Some(WithHello(g)) && end.events == c.events + [PeerCert]
  {
    RequestPassed(c, choice, g, asked);
    MovesOn(c, choice, 3);
    CertificatesRead(Step(c, choice).value, choice, g, asked);
  }

  /** From the server's certificates on. */
  lemma CertificatesRead(c: Connection, choice: Choice, g: seq<Spoken>, asked: bool)
    requires Following(c, g, ServerFlight(g, asked)[if asked then 3 else 2..], AwaitCertificate, asked)
    ensures var end := Run(c, Moves(choice, 3));
            && end.state == (if asked then SendCertificate else SendFinished)
            && end.transcript == WithFinished(g, asked) && end.clientAuthRequested == asked
            && end.handshakeSecret == Some(WithHello(g)) && end.events == c.events + [PeerCert]
  {
    var bodies := ServerFlight(g, asked)[if asked then 3 else 2..];
    assert bodies == [CertificateBody(true), CertificateVerifyBody(WithCertificate(g, asked)),
                      FinishedBody(false, WithHello(g), WithVerify(g, asked))];
    Follows(c, choice, Certificate, g, bodies, asked);
    MovesOn(c, choice, 2);
    VerifyRead(Step(c, choice).value, choice, g, bodies[1..], asked);
  }

  lemma VerifyRead(c: Connection, choice: Choice, g: seq<Spoken>, bodies: seq<Body>, asked: bool)
    requires bodies == [CertificateVerifyBody(WithCertificate(g, asked)),
                        FinishedBody(false, WithHello(g), WithVerify(g, asked))]
    requires Following(c, g, bodies, AwaitCertificateVerify, asked) && c.serverCertificates
    ensures var end := Run(c, Moves(choice, 2));
            && end.state == (if asked then SendCertificate else SendFinished)
            && end.transcript == WithFinished(g, asked) && end.clientAuthRequested == asked
            && end.handshakeSecret == Some(WithHello(g)) && end.events == c.events
  {
    Follows(c, choice, CertificateVerify, g, bodies, asked);
    MovesOn(c, choice, 1);
    FinishedRead(Step(c, choice).value, choice, g, bodies[1..], asked);
  }

  lemma FinishedRead(c: Connection, choice: Choice, g: seq<Spoken>, bodies: seq<Body>, asked: bool)
    requires bodies == [FinishedBody(false, WithHello(g), WithVerify(g, asked))]
    requires Following(c, g, bodies, AwaitFinished, asked)
    ensures var end := Run(c, Moves(choice, 1));
            && end.state == (if asked then SendCertificate else SendFinished)
            && end.transcript == WithFinished(g, asked) && end.clientAuthRequested == asked
            && end.handshakeSecret == Some(WithHello(g)) && end.events == c.events
  {
    Follows(c, choice, Finished, g, bodies, asked);
    MovesOn(c, choice, 0);
  }
}
