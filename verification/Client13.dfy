/** The DTLS 1.3 client, one state function at a time, sending through the record layer of
    `SendSide`. */
module Client13 {
  import opened Handshakes
  import opened Records
  import opened SendSide
  import F = Fragmentation

  /** What the state machine looks at in a message; MACs and signatures are named by what
      they are taken over, the handshake secret by the transcript it is derived from. */
  datatype Body =
    | ClientHelloBody(retry: bool)
    | ServerHelloBody(retryRequest: bool, acceptable: bool, completes: bool)
    | EncryptedExtensionsBody
    | CertificateRequestBody(parses: bool)
    | CertificateBody(present: bool)
    | CertificateVerifyBody(signed: seq<Spoken>)
    | FinishedBody(byClient: bool, secret: seq<Spoken>, over: seq<Spoken>)
    | KeyUpdateBody(requested: bool)

  /** A transcript entry: a message, or the hash a HelloRetryRequest puts in the place of
      what came before. */
  datatype Spoken = Said(body: Body) | MessageHash(of: seq<Spoken>)

  function TypeOf(b: Body): MessageType {
    match b
    case ClientHelloBody(_) => ClientHello
    case ServerHelloBody(_, _, _) => ServerHello
    case EncryptedExtensionsBody => EncryptedExtensions
    case CertificateRequestBody(_) => CertificateRequest
    case CertificateBody(_) => Certificate
    case CertificateVerifyBody(_) => CertificateVerify
    case FinishedBody(_, _, _) => Finished
    case KeyUpdateBody(_) => KeyUpdate
  }

  datatype State =
    | SendClientHello
    | AwaitServerHello
    | AwaitEncryptedExtensions
    | AwaitCertificateRequest
    | AwaitCertificate
    | AwaitCertificateVerify
    | AwaitFinished
    | SendCertificate
    | SendCertificateVerify
    | SendFinished
    | AwaitApplicationData
    | HalfClosedLocal
    | Closed

  datatype Event = PeerCert | Connected

  /** `received` holds complete messages not yet read, by number; `keyExchange` says whether
      the client still has the secret half of its key share.  `snd` names its handshake key
      by the side alone: when another takes its place, derived from another exchange and
      transcript, what was sent until then goes to `retired`. */
  datatype Connection = Connection(
    state: State,
    snd: Sender,
    transcript: seq<Spoken>,
    peerSeqNo: nat,
    received: map<nat, Body>,
    helloRetry: bool,
    serverCertificates: bool,
    clientAuthRequested: bool,
    hasCertificate: bool,
    keyExchange: bool,
    handshakeSecret: Option<seq<Spoken>>,
    pendingKeyUpdateResponse: bool,
    closeNotify: bool,
    events: seq<Event>,
    retired: seq<seq<Record>>)

  function NewClient(config: Config, hasCertificate: bool): Connection {
    Connection(SendClientHello, NewSender(config, Client), [], 0, map[], false, false, false, hasCertificate, false,
               None, false, false, [], [])
  }

  /** Taking over after a hybrid ClientHello: it is in the transcript, and message and
      record numbering start behind it. */
  function NewFromHybrid(config: Config, hasCertificate: bool): Connection {
    var snd := NewSender(config, Client).(nextMsgSeq := 1, plainSeq := 1);
    NewClient(config, hasCertificate).(
      state := AwaitServerHello, snd := snd, transcript := [Said(ClientHelloBody(false))], keyExchange := true)
  }

  /** What is left to chance: message contents, whether a key exchange can begin, whether a
      body can be built, whether the sealed records buffered until the keys came can all be
      parsed, whether the AEAD limit is near, queued application data, and the record numbers
      to acknowledge. */
  datatype Choice = Choice(
    content: seq<nat>, begins: bool, built: bool, reparses: bool, keyUpdateDue: bool, data: seq<seq<nat>>,
    numbers: seq<Number>)

  predicate HasComplete(c: Connection, wanted: MessageType) {
    c.peerSeqNo in c.received && TypeOf(c.received[c.peerSeqNo]) == wanted
  }

  /** Read the next message into the transcript; its number is passed only once it has been
      validated. */
  function Read(c: Connection): (Body, Connection)
    requires c.peerSeqNo in c.received
  {
    var body := c.received[c.peerSeqNo];
    (body, c.(transcript := c.transcript + [Said(body)], received := c.received - {c.peerSeqNo}))
  }

  function Advance(c: Connection, state: State): Connection {
    c.(peerSeqNo := c.peerSeqNo + 1, state := state)
  }

  /** Build a message, write it into the transcript and send it, or fail. */
  function Write(c: Connection, body: Body, choice: Choice, state: State): Option<Connection>
    requires F.Progresses(c.snd.config)
  {
    var o := F.CreateHandshake(c.snd, TypeOf(body), choice.content);
    if !choice.built || o.failure.Some? then None
    else Some(c.(snd := o.sender, transcript := c.transcript + [Said(body)], state := state))
  }

  function NewFlight(c: Connection): Connection {
    c.(snd := FlightBegin(c.snd))
  }

  /** The first flight begins with a key share. */
  function HelloFlight(c: Connection): Connection {
    c.(snd := FlightBegin(c.snd), keyExchange := true)
  }

  /** Where a transition leads; nothing when it ends the connection with an error. */
  function Step(c: Connection, choice: Choice): Option<Connection>
    requires F.Progresses(c.snd.config)
  {
    match c.state
    case SendClientHello => Greets(c, choice)
    case AwaitServerHello => Greeted(c, choice.reparses)
    case AwaitEncryptedExtensions => Reads(c, EncryptedExtensions)
    case AwaitCertificateRequest => ReadsRequest(c)
    case AwaitCertificate => Reads(c, Certificate)
    case AwaitCertificateVerify => Reads(c, CertificateVerify)
    case AwaitFinished => Reads(c, Finished)
    case SendCertificate => Certify(c, choice)
    case SendCertificateVerify => Write(c, CertificateVerifyBody(c.transcript), choice, SendFinished)
    case SendFinished => Finish(c, choice)
    case AwaitApplicationData => Serve(c, choice)
    case HalfClosedLocal => Drain(c)
    case Closed => Some(c)
  }

  function Greets(c: Connection, choice: Choice): Option<Connection>
    requires F.Progresses(c.snd.config)
  {
    if !choice.begins then None
    else Write(HelloFlight(c), ClientHelloBody(c.helloRetry), choice, AwaitServerHello)
  }

  function Certify(c: Connection, choice: Choice): Option<Connection>
    requires F.Progresses(c.snd.config)
  {
    Write(NewFlight(c), CertificateBody(c.hasCertificate), choice,
          if c.hasCertificate then SendCertificateVerify else SendFinished)
  }

  /** The last flight's Finished, and the report of the connection. */
  function Finish(c: Connection, choice: Choice): Option<Connection>
    requires F.Progresses(c.snd.config)
  {
    Concludes(LastFlight(c), choice)
  }

  function Concludes(c: Connection, choice: Choice): Option<Connection>
    requires F.Progresses(c.snd.config)
  {
    if c.handshakeSecret.None? then None
    else
      var o := Write(c, FinishedBody(true, c.handshakeSecret.value, c.transcript), choice, AwaitApplicationData);
      if o.None? then None else Some(o.value.(events := c.events + [Connected]))
  }

  /** The client's last flight begins with its Certificate, if it sends one. */
  function LastFlight(c: Connection): Connection {
    if c.clientAuthRequested then c else NewFlight(c)
  }

  /** A ServerHello or a HelloRetryRequest, if one has come.  The keys are installed before
      the records buffered for them are parsed, and the number is passed only after that. */
  function Greeted(c: Connection, reparses: bool): Option<Connection> {
    if !HasComplete(c, ServerHello) then Some(c)
    else
      var (body, c') := Read(c);
      Answers(c', body, c.transcript, reparses)
  }

  /** What the client makes of it; `before` is the transcript without it. */
  function Answers(c: Connection, body: Body, before: seq<Spoken>, reparses: bool): Option<Connection>
    requires body.ServerHelloBody?
  {
    if body.retryRequest && c.helloRetry then Some(c.(transcript := before))
    else if !body.acceptable then None
    else if body.retryRequest then Some(Retried(c, before, body))
    else Exchanged(c, body, reparses)
  }

  function Exchanged(c: Connection, body: Body, reparses: bool): Option<Connection>
    requires body.ServerHelloBody?
  {
    if !c.keyExchange || !body.completes || !reparses then None
    else Some(Advance(Install(c), AwaitEncryptedExtensions))
  }

  /** The hash of what was said before stands for it, and the handshake counter is reset,
      whether or not its keys exist. */
  function Retried(c: Connection, before: seq<Spoken>, body: Body): Connection {
    Advance(c.(transcript := [MessageHash(before), Said(body)], snd := ResetForHelloRetry(c.snd), helloRetry := true,
               keyExchange := false),
            SendClientHello)
  }

  /** Handshake keys from the transcript so far, in the place of any there were. */
  function Install(c: Connection): Connection {
    c.(handshakeSecret := Some(c.transcript), keyExchange := false, snd := InstallHandshakeKeys(Fresh(c.snd)),
       retired := if c.snd.hsSecret.None? then c.retired else c.retired + [c.snd.sent])
  }

  /** The log of a sender starts anew when its handshake key is about to be replaced. */
  function Fresh(s: Sender): Sender {
    if s.hsSecret.None? then s else s.(sent := [])
  }

  /** A server that sends its certificate next requests none. */
  function ReadsRequest(c: Connection): Option<Connection> {
    if HasComplete(c, Certificate) then Some(c.(state := AwaitCertificate)) else Reads(c, CertificateRequest)
  }

  function Reads(c: Connection, wanted: MessageType): Option<Connection> {
    if !HasComplete(c, wanted) then Some(c)
    else
      var (body, c') := Read(c);
      Accepts(c', body, c.transcript)
  }

  /** What the client makes of it; `before` is the transcript without it. */
  function Accepts(c: Connection, body: Body, before: seq<Spoken>): Option<Connection> {
    match body
    case EncryptedExtensionsBody => Some(Advance(c, AwaitCertificateRequest))
    case CertificateRequestBody(parses) =>
      if !parses then None else Some(Advance(c.(clientAuthRequested := true), AwaitCertificate))
    case CertificateBody(present) =>
      if !present then None
      else Some(Advance(c.(serverCertificates := true, events := c.events + [PeerCert]), AwaitCertificateVerify))
    case CertificateVerifyBody(signed) =>
      if !c.serverCertificates || signed != before then None else Some(Advance(c, AwaitFinished))
    case FinishedBody(byClient, secret, over) =>
      if byClient || c.handshakeSecret != Some(secret) || over != before then None
      else
        Some(Advance(c.(snd := InstallApplicationKeys(c.snd)),
                     if c.clientAuthRequested then SendCertificate else SendFinished))
    case _ => None
  }

  /** Queued application data, all under the epoch current when the loop starts. */
  function SendAll(s: Sender, epoch: nat, data: seq<seq<nat>>): Outcome
    decreases |data|
  {
    if data == [] then Outcome(s, None)
    else
      var o := EmitCiphertext(s, epoch, false, AppData(data[0]));
      if o.failure.Some? then o else SendAll(o.sender, epoch, data[1..])
  }

  /** An update when one is due, what is queued, and the answer to the peer's last update. */
  function Sends(s: Sender, pending: bool, choice: Choice): Outcome {
    var o1 := if choice.keyUpdateDue && !KeyUpdateInFlight(s) then CreateKeyUpdate(s, 1) else Outcome(s, None);
    if o1.failure.Some? then o1
    else
      var o2 := SendAll(o1.sender, o1.sender.appEpoch, choice.data);
      if o2.failure.Some? || !pending then o2 else CreateKeyUpdate(o2.sender, 0)
  }

  /** Connected: send, and read the peer's next update. */
  function Serve(c: Connection, choice: Choice): Option<Connection> {
    var o := Sends(c.snd, c.pendingKeyUpdateResponse, choice);
    if o.failure.Some? then None
    else ReadKeyUpdate(c.(snd := o.sender, pendingKeyUpdateResponse := false), choice.numbers)
  }

  function ReadKeyUpdate(c: Connection, numbers: seq<Number>): Option<Connection> {
    if !HasComplete(c, KeyUpdate) then Some(c)
    else
      var requested := c.received[c.peerSeqNo].requested;
      var o := if numbers == [] then Outcome(c.snd, None)
               else EmitCiphertext(c.snd, c.snd.appEpoch, false, AckData(EncodeAck(numbers)));
      if o.failure.Some? then None
      else
        Some(c.(snd := o.sender, received := c.received - {c.peerSeqNo}, peerSeqNo := c.peerSeqNo + 1,
                pendingKeyUpdateResponse := requested))
  }

  function Drain(c: Connection): Option<Connection> {
    var c' := Skipped(c);
    Some(if c.closeNotify then c'.(state := Closed) else c')
  }

  /** A KeyUpdate read and left at that. */
  function Skipped(c: Connection): Connection {
    if HasComplete(c, KeyUpdate) then c.(received := c.received - {c.peerSeqNo}, peerSeqNo := c.peerSeqNo + 1) else c
  }

  // ----- What an error leaves behind -----

  /** A message read only to be refused: it stays in the transcript, and its number is not
      passed. */
  function Refused(c: Connection, wanted: MessageType): Connection {
    if HasComplete(c, wanted) then Read(c).1 else c
  }

  /** A message that could not be sent whole is in the transcript, and part of it may be
      queued; one that could not even be built has left no trace. */
  function Unsent(c: Connection, body: Body, choice: Choice): Connection
    requires F.Progresses(c.snd.config)
  {
    if !choice.built then c
    else
      c.(snd := F.CreateHandshake(c.snd, TypeOf(body), choice.content).sender,
         transcript := c.transcript + [Said(body)])
  }

  /** A ServerHello that is refused, one the key exchange fails on, or one whose keys are
      installed although a record buffered for them cannot be parsed. */
  function GreetingFails(c: Connection): Connection {
    if !HasComplete(c, ServerHello) then c
    else
      var (body, c') := Read(c);
      AnswerFails(c', body)
  }

  function AnswerFails(c: Connection, body: Body): Connection
    requires body.ServerHelloBody?
  {
    if body.retryRequest || !body.acceptable then c else ExchangeFails(c, body)
  }

  function ExchangeFails(c: Connection, body: Body): Connection
    requires body.ServerHelloBody?
  {
    if !c.keyExchange then c
    else if !body.completes then c.(keyExchange := false)
    else Install(c)
  }

  /** What a transition that ends in an error leaves behind; the state is the old one. */
  function Fails(c: Connection, choice: Choice): Connection
    requires F.Progresses(c.snd.config)
  {
    match c.state
    case SendClientHello => GreetsNot(c, choice)
    case AwaitServerHello => GreetingFails(c)
    case SendCertificate => CertifyFails(c, choice)
    case SendCertificateVerify => Unsent(c, CertificateVerifyBody(c.transcript), choice)
    case SendFinished => FinishFails(c, choice)
    case AwaitCertificateRequest => RequestFails(c)
    case AwaitApplicationData => ServeFails(c, choice)
    case _ => if Awaited(c).Some? then Refused(c, Awaited(c).value) else c
  }

  function GreetsNot(c: Connection, choice: Choice): Connection
    requires F.Progresses(c.snd.config)
  {
    if !choice.begins then NewFlight(c) else Unsent(HelloFlight(c), ClientHelloBody(c.helloRetry), choice)
  }

  function CertifyFails(c: Connection, choice: Choice): Connection
    requires F.Progresses(c.snd.config)
  {
    Unsent(NewFlight(c), CertificateBody(c.hasCertificate), choice)
  }

  function RequestFails(c: Connection): Connection {
    if HasComplete(c, Certificate) then c else Refused(c, CertificateRequest)
  }

  /** What the client is about to read behind the ServerHello, if its state has it read. */
  function Awaited(c: Connection): Option<MessageType> {
    match c.state
    case AwaitEncryptedExtensions => Some(EncryptedExtensions)
    case AwaitCertificateRequest => if HasComplete(c, Certificate) then None else Some(CertificateRequest)
    case AwaitCertificate => Some(Certificate)
    case AwaitCertificateVerify => Some(CertificateVerify)
    case AwaitFinished => Some(Finished)
    case _ => None
  }

  /** An answer to the peer's update that could not be sent stays due. */
  function ServeFails(c: Connection, choice: Choice): Connection {
    var o := Sends(c.snd, c.pendingKeyUpdateResponse, choice);
    if o.failure.Some? then c.(snd := o.sender)
    else ReadFails(c.(snd := o.sender, pendingKeyUpdateResponse := false), choice.numbers)
  }

  function FinishFails(c: Connection, choice: Choice): Connection
    requires F.Progresses(c.snd.config)
  {
    ConcludeFails(LastFlight(c), choice)
  }

  function ConcludeFails(c: Connection, choice: Choice): Connection
    requires F.Progresses(c.snd.config)
  {
    if c.handshakeSecret.None? then c
    else Unsent(c, FinishedBody(true, c.handshakeSecret.value, c.transcript), choice)
  }

  /** A KeyUpdate whose ACK could not be sent is consumed, and its number is not passed. */
  function ReadFails(c: Connection, numbers: seq<Number>): Connection {
    if !HasComplete(c, KeyUpdate) then c
    else
      c.(snd := EmitCiphertext(c.snd, c.snd.appEpoch, false, AckData(EncodeAck(numbers))).sender,
         received := c.received - {c.peerSeqNo})
  }

  /** Where a transition leads, in success or failure. */
  function After(c: Connection, choice: Choice): Connection
    requires F.Progresses(c.snd.config)
  {
    if Step(c, choice).Some? then Step(c, choice).value else Fails(c, choice)
  }

  // ----- The progress loop -----

  /** States still ahead; the one edge backwards spends the retry. */
  function Rank(state: State): nat {
    match state
    case SendClientHello => 12
    case AwaitServerHello => 11
    case AwaitEncryptedExtensions => 10
    case AwaitCertificateRequest => 9
    case AwaitCertificate => 8
    case AwaitCertificateVerify => 7
    case AwaitFinished => 6
    case SendCertificate => 5
    case SendCertificateVerify => 4
    case SendFinished => 3
    case AwaitApplicationData => 2
    case HalfClosedLocal => 1
    case Closed => 0
  }

  function Retries(c: Connection): nat {
    if c.helloRetry then 0 else 1
  }

  predicate Descends(c: Connection, c': Connection) {
    Retries(c') < Retries(c) || (Retries(c') == Retries(c) && Rank(c'.state) < Rank(c.state))
  }

  predicate Stays(c: Connection, c': Connection) {
    c'.state == c.state && c'.helloRetry == c.helloRetry
  }

  /** Where a transition may lead; only a HelloRetryRequest spends the retry. */
  predicate Leads(c: Connection, c': Connection) {
    && c'.snd.config == c.snd.config && (Stays(c, c') || Descends(c, c'))
    && (!c.state.AwaitServerHello? ==> c'.helloRetry == c.helloRetry)
  }

  /** Reading a message leaves everything but the transcript and the queue alone. */
  predicate SameButRead(c: Connection, c': Connection) {
    && c'.state == c.state && c'.snd == c.snd && c'.peerSeqNo == c.peerSeqNo && c'.helloRetry == c.helloRetry
    && c'.keyExchange == c.keyExchange && c'.handshakeSecret == c.handshakeSecret && c'.events == c.events
    && c'.retired == c.retired
  }

  lemma ReadFrame(c: Connection)
    requires c.peerSeqNo in c.received
    ensures SameButRead(c, Read(c).1)
  {
  }

  lemma RetriedFrame(c: Connection, before: seq<Spoken>, body: Body)
    ensures var c' := Retried(c, before, body);
            && c'.state.SendClientHello? && c'.helloRetry && c'.snd == ResetForHelloRetry(c.snd)
            && c'.events == c.events && c'.retired == c.retired
  {
  }

  lemma InstalledFrame(c: Connection)
    ensures var c' := Advance(Install(c), AwaitEncryptedExtensions);
            && c'.state.AwaitEncryptedExtensions? && c'.helloRetry == c.helloRetry
            && c'.snd == Install(c).snd && c'.snd.config == c.snd.config
            && c'.events == c.events && c'.retired == Install(c).retired
  {
  }

  lemma AnswersDescend(c: Connection, body: Body, before: seq<Spoken>, reparses: bool)
    requires c.state.AwaitServerHello? && body.ServerHelloBody? && Answers(c, body, before, reparses).Some?
    ensures Leads(c, Answers(c, body, before, reparses).value)
  {
    if body.retryRequest && c.helloRetry {
    } else if body.retryRequest {
      RetriedFrame(c, before, body);
    } else {
      InstalledFrame(c);
    }
  }

  lemma HelloDescends(c: Connection, reparses: bool)
    requires c.state.AwaitServerHello? && Greeted(c, reparses).Some?
    ensures Leads(c, Greeted(c, reparses).value)
  {
    if HasComplete(c, ServerHello) {
      ReadFrame(c);
      AnswersDescend(Read(c).1, Read(c).0, c.transcript, reparses);
    }
  }

  /** The same, or a later state with the retry untouched. */
  predicate Ahead(c: Connection, c': Connection) {
    && c'.snd.config == c.snd.config && c'.helloRetry == c.helloRetry
    && (c'.state == c.state || Rank(c'.state) < Rank(c.state))
  }

  /** Whatever is accepted in its state leads ahead. */
  lemma AcceptsAhead(c: Connection, body: Body, before: seq<Spoken>)
    requires Accepts(c, body, before).Some? && Expected(c.state, TypeOf(body))
    ensures Ahead(c, Accepts(c, body, before).value)
  {
    match body
    case EncryptedExtensionsBody =>
    case CertificateRequestBody(parses) =>
    case CertificateBody(present) =>
    case CertificateVerifyBody(signed) =>
    case FinishedBody(byClient, secret, over) =>
  }

  predicate Expected(state: State, read: MessageType) {
    match read
    case EncryptedExtensions => state.AwaitEncryptedExtensions?
    case CertificateRequest => state.AwaitCertificateRequest?
    case Certificate => state.AwaitCertificate?
    case CertificateVerify => state.AwaitCertificateVerify?
    case Finished => state.AwaitFinished?
    case _ => false
  }

  lemma ExtensionsDescend(c: Connection)
    requires c.state.AwaitEncryptedExtensions? && Reads(c, EncryptedExtensions).Some?
    ensures Ahead(c, Reads(c, EncryptedExtensions).value)
  {
    if HasComplete(c, EncryptedExtensions) {
      ReadFrame(c);
      AcceptsAhead(Read(c).1, Read(c).0, c.transcript);
    }
  }

  lemma RequestDescends(c: Connection)
    requires c.state.AwaitCertificateRequest? && Reads(c, CertificateRequest).Some?
    ensures Ahead(c, Reads(c, CertificateRequest).value)
  {
    if HasComplete(c, CertificateRequest) {
      ReadFrame(c);
      AcceptsAhead(Read(c).1, Read(c).0, c.transcript);
    }
  }

  lemma CertificateDescends(c: Connection)
    requires c.state.AwaitCertificate? && Reads(c, Certificate).Some?
    ensures Ahead(c, Reads(c, Certificate).value)
  {
    if HasComplete(c, Certificate) {
      ReadFrame(c);
      AcceptsAhead(Read(c).1, Read(c).0, c.transcript);
    }
  }

  lemma VerifyDescends(c: Connection)
    requires c.state.AwaitCertificateVerify? && Reads(c, CertificateVerify).Some?
    ensures Ahead(c, Reads(c, CertificateVerify).value)
  {
    if HasComplete(c, CertificateVerify) {
      ReadFrame(c);
      AcceptsAhead(Read(c).1, Read(c).0, c.transcript);
    }
  }

  lemma FinishedDescends(c: Connection)
    requires c.state.AwaitFinished? && Reads(c, Finished).Some?
    ensures Ahead(c, Reads(c, Finished).value)
  {
    if HasComplete(c, Finished) {
      ReadFrame(c);
      AcceptsAhead(Read(c).1, Read(c).0, c.transcript);
    }
  }

  lemma WriteKeepsConfig(c: Connection, body: Body, choice: Choice, state: State)
    requires F.Progresses(c.snd.config) && Write(c, body, choice, state).Some?
    ensures Write(c, body, choice, state).value.snd.config == c.snd.config
  {
    F.CreateHandshakeConfig(c.snd, TypeOf(body), choice.content);
  }

  lemma WritesDescend(c: Connection, choice: Choice)
    requires F.Progresses(c.snd.config) && Step(c, choice).Some?
    requires c.state.SendClientHello? || c.state.SendCertificate? || c.state.SendCertificateVerify?
    ensures Leads(c, Step(c, choice).value)
  {
    if c.state.SendClientHello? {
      WriteKeepsConfig(HelloFlight(c), ClientHelloBody(c.helloRetry), choice, AwaitServerHello);
    } else if c.state.SendCertificate? {
      WriteKeepsConfig(NewFlight(c), CertificateBody(c.hasCertificate), choice,
                       if c.hasCertificate then SendCertificateVerify else SendFinished);
    } else {
      WriteKeepsConfig(c, CertificateVerifyBody(c.transcript), choice, SendFinished);
    }
  }

  lemma FinishDescends(c: Connection, choice: Choice)
    requires F.Progresses(c.snd.config) && c.state.SendFinished? && Step(c, choice).Some?
    ensures Leads(c, Step(c, choice).value)
  {
    WriteKeepsConfig(LastFlight(c), FinishedBody(true, c.handshakeSecret.value, c.transcript), choice,
                     AwaitApplicationData);
  }

  lemma {:induction false} SendAllKeepsConfig(s: Sender, epoch: nat, data: seq<seq<nat>>)
    ensures SendAll(s, epoch, data).sender.config == s.config
    decreases |data|
  {
    if data != [] {
      EmitFrame(s, epoch, false, AppData(data[0]));
      SendAllKeepsConfig(EmitCiphertext(s, epoch, false, AppData(data[0])).sender, epoch, data[1..]);
    }
  }

  lemma KeyUpdateKeepsConfig(s: Sender, request: nat)
    ensures CreateKeyUpdate(s, request).sender.config == s.config
  {
    EmitFrame(NextMessage(s), s.appEpoch, true, HandshakePart(KeyUpdatePart(s.nextMsgSeq, request)));
  }

  lemma SendsKeepConfig(s: Sender, pending: bool, choice: Choice)
    ensures Sends(s, pending, choice).sender.config == s.config
  {
    var o1 := if choice.keyUpdateDue && !KeyUpdateInFlight(s) then CreateKeyUpdate(s, 1) else Outcome(s, None);
    KeyUpdateKeepsConfig(s, 1);
    SendAllKeepsConfig(o1.sender, o1.sender.appEpoch, choice.data);
    KeyUpdateKeepsConfig(SendAll(o1.sender, o1.sender.appEpoch, choice.data).sender, 0);
  }

  /** Connected, the client keeps its state. */
  lemma ServeStays(c: Connection, choice: Choice)
    requires Serve(c, choice).Some?
    ensures var c' := Serve(c, choice).value; c'.snd.config == c.snd.config && Stays(c, c')
  {
    SendsKeepConfig(c.snd, c.pendingKeyUpdateResponse, choice);
    var o := Sends(c.snd, c.pendingKeyUpdateResponse, choice);
    ReadKeepsConfig(c.(snd := o.sender, pendingKeyUpdateResponse := false), choice.numbers);
  }

  lemma ReadKeepsConfig(c: Connection, numbers: seq<Number>)
    requires ReadKeyUpdate(c, numbers).Some?
    ensures var c' := ReadKeyUpdate(c, numbers).value; c'.snd.config == c.snd.config && Stays(c, c')
  {
    EmitFrame(c.snd, c.snd.appEpoch, false, AckData(EncodeAck(numbers)));
  }

  /** Waiting for one of the server's messages. */
  predicate Listening(state: State) {
    state.AwaitServerHello? || state.AwaitEncryptedExtensions? || state.AwaitCertificateRequest?
    || state.AwaitCertificate? || state.AwaitCertificateVerify? || state.AwaitFinished?
  }

  lemma ListensDescend(c: Connection, choice: Choice)
    requires F.Progresses(c.snd.config) && Listening(c.state) && Step(c, choice).Some?
    ensures Leads(c, Step(c, choice).value)
  {
    match c.state
    case AwaitServerHello => HelloDescends(c, choice.reparses);
    case AwaitEncryptedExtensions => ExtensionsDescend(c);
    case AwaitCertificateRequest =>
      if !HasComplete(c, Certificate) {
        RequestDescends(c);
      }
    case AwaitCertificate => CertificateDescends(c);
    case AwaitCertificateVerify => VerifyDescends(c);
    case AwaitFinished => FinishedDescends(c);
  }

  lemma DrainDescends(c: Connection)
    requires c.state.HalfClosedLocal?
    ensures var c' := Drain(c).value; c'.snd == c.snd && (Stays(c, c') || Descends(c, c'))
  {
  }

  /** Every transition out of a state descends: first the retry, then the states ahead. */
  lemma StepDescends(c: Connection, choice: Choice)
    requires F.Progresses(c.snd.config) && Step(c, choice).Some?
    ensures Leads(c, Step(c, choice).value)
  {
    if Listening(c.state) {
      ListensDescend(c, choice);
    } else if c.state.SendFinished? {
      FinishDescends(c, choice);
    } else if c.state.AwaitApplicationData? {
      ServeStays(c, choice);
    } else if c.state.HalfClosedLocal? {
      DrainDescends(c);
    } else if !c.state.Closed? {
      WritesDescend(c, choice);
    }
  }

  /** Transitions until the state stays the same or one fails, `choose` settling what is left
      to chance in each state, before and after a retry: the client then, and whether all
      went well. */
  function Progress(c: Connection, choose: (State, bool) -> Choice): (Connection, bool)
    requires F.Progresses(c.snd.config)
    decreases Retries(c), Rank(c.state)
  {
    match Step(c, choose(c.state, c.helloRetry))
    case None => (Fails(c, choose(c.state, c.helloRetry)), false)
    case Some(c') =>
      StepDescends(c, choose(c.state, c.helloRetry));
      if c'.state == c.state then (c', true) else Progress(c', choose)
  }

  /** One round of the loop. */
  lemma ProgressRound(c: Connection, choose: (State, bool) -> Choice, o: Option<Connection>)
    requires F.Progresses(c.snd.config) && o == Step(c, choose(c.state, c.helloRetry))
    ensures o.None? ==> Progress(c, choose) == (Fails(c, choose(c.state, c.helloRetry)), false)
    ensures o.Some? ==>
              && Leads(c, o.value)
              && Progress(c, choose) == if o.value.state == c.state then (o.value, true) else Progress(o.value, choose)
  {
    if o.Some? {
      StepDescends(c, choose(c.state, c.helloRetry));
    }
  }
}
