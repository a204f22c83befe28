/** An honest DTLS 1.2 handshake never gets stuck: from every state a run reaches there is
    a way on to both sides being connected, unless the client has named an identity the
    server does not know. */
module Completion12 {
  import opened Handshakes
  import opened Messages12
  import opened Agreement12
  import C = Client12
  import S = Server12
  import Gate = Gate12

  // ----- What the two sides say, message by message -----

  /** Whether the server asks for a client certificate. */
  predicate Asks(config: S.ServerConfig) {
    !config.psk && config.requireClientCertificate
  }

  /** Place of the ServerHelloDone in the server's flight. */
  function DoneAt(config: S.ServerConfig): nat {
    if config.psk then (if config.identityHint then 2 else 1) else if config.requireClientCertificate then 4 else 3
  }

  /** Message `k` of the server, its HelloVerifyRequest not counted. */
  predicate ServerSays(config: S.ServerConfig, k: nat, body: Body) {
    if k == 0 then body == ServerHelloBody(config.psk, true)
    else if k == DoneAt(config) then body == ServerHelloDoneBody
    else if k > DoneAt(config) then k == DoneAt(config) + 1 && body.FinishedBody?
    else if config.psk then body.ServerKeyExchangeBody?
    else if k == 1 then body == CertificateBody(true)
    else if k == 2 then body == ServerKeyExchangeBody(true)
    else body == CertificateRequestBody(true)
  }

  function KeyAt(asked: bool): nat {
    if asked then 2 else 1
  }

  function FinAt(asked: bool): nat {
    if asked then 4 else 2
  }

  /** Message `k` of the client, from its accepted hello on. */
  predicate ClientSays(asked: bool, k: nat, body: Body) {
    if k == 0 then body.ClientHelloBody?
    else if k == KeyAt(asked) then body.ClientKeyExchangeBody?
    else if k == FinAt(asked) then body.FinishedBody?
    else asked && ((k == 1 && body == CertificateBody(true)) || (k == 3 && body.CertificateVerifyBody?))
  }

  /** How many messages a server in this state has sent, and how many it has read. */
  function ServerSaid(state: S.ServerState, config: S.ServerConfig): nat {
    match state
    case AwaitClientHello => 0
    case SendServerHello => 0
    case SendCertificate => 1
    case SendServerKeyExchange => if config.psk then 1 else 2
    case SendCertificateRequest => 3
    case SendServerHelloDone => DoneAt(config)
    case AwaitApplicationData => DoneAt(config) + 2
    case Closed => DoneAt(config) + 2
    case _ => DoneAt(config) + 1
  }

  function ServerRead(state: S.ServerState, config: S.ServerConfig): nat {
    match state
    case AwaitClientHello => 0
    case AwaitClientKeyExchange => KeyAt(Asks(config))
    case AwaitCertificateVerify => 3
    case AwaitChangeCipherSpec => FinAt(Asks(config))
    case AwaitFinished => FinAt(Asks(config))
    case SendChangeCipherSpec => FinAt(Asks(config)) + 1
    case SendFinished => FinAt(Asks(config)) + 1
    case AwaitApplicationData => FinAt(Asks(config)) + 1
    case Closed => FinAt(Asks(config)) + 1
    case _ => 1
  }

  predicate ServerThrough(state: S.ServerState) {
    state.AwaitApplicationData? || state.Closed?
  }

  ghost predicate ServerTalk(s: S.Server) {
    var e, config, b := s.engine, s.config, Base(s.engine.sent);
    && |e.sent| == b + ServerSaid(s.state, config)
    && e.peerSeqNo == b + ServerRead(s.state, config)
    && (forall k :: b <= k < |e.sent| ==> ServerSays(config, k - b, e.sent[k].body))
    && (s.state.SendCertificate? ==> !config.psk)
    && (s.state.SendCertificateRequest? || s.state.AwaitCertificate? || s.state.AwaitCertificateVerify? ==>
          Asks(config))
    && (s.clientCertificates <==> Asks(config) && ServerRead(s.state, config) > 1)
    && (s.state.SendFinished? || ServerThrough(s.state) ==> e.ccsSent)
    && (Connected in s.events <==> ServerThrough(s.state))
  }

  /** What the server makes of the identity the client named. */
  ghost predicate PskTold(s: S.Server, client: seq<Message>) {
    var b, read := Base(s.engine.sent), ServerRead(s.state, s.config);
    if s.config.psk && read > 1 then
      && b + 1 < |client| && client[b + 1].body.ClientKeyExchangeBody?
      && s.pskValid == Some(client[b + 1].body.knownIdentity)
      && (read > FinAt(Asks(s.config)) ==> s.pskValid == Some(true))
    else s.pskValid == None
  }

  function ClientSaid(state: C.ClientState, asked: bool): nat {
    match state
    case SendClientKeyExchange => KeyAt(asked)
    case SendCertificateVerify => 3
    case SendChangeCipherSpec => FinAt(asked)
    case SendFinished => FinAt(asked)
    case AwaitChangeCipherSpec => FinAt(asked) + 1
    case AwaitNewSessionTicket => FinAt(asked) + 1
    case AwaitFinished => FinAt(asked) + 1
    case AwaitApplicationData => FinAt(asked) + 1
    case Closed => FinAt(asked) + 1
    case _ => 1
  }

  function ClientRead(state: C.ClientState, config: S.ServerConfig): nat {
    match state
    case AwaitServerHello => 0
    case AwaitCertificate => 1
    case AwaitServerKeyExchange => if config.psk then 1 else 2
    case AwaitCertificateRequest => 3
    case AwaitServerHelloDone => DoneAt(config)
    case AwaitApplicationData => DoneAt(config) + 2
    case Closed => DoneAt(config) + 2
    case _ => DoneAt(config) + 1
  }

  predicate ClientThrough(state: C.ClientState) {
    state.AwaitApplicationData? || state.Closed?
  }

  predicate Hello(state: C.ClientState) {
    state.SendClientHello? || state.AwaitHelloVerifyRequest?
  }

  /** The client has read the whole of the server's first flight, or all but its end. */
  predicate FlightRead(state: C.ClientState) {
    !Hello(state) && (state.AwaitServerHelloDone? || !Reading(state))
  }

  ghost predicate ClientTalk(c: C.Client, b: nat, config: S.ServerConfig) {
    var e := c.engine;
    && (Connected in c.events <==> ClientThrough(c.state))
    && (Asks(config) ==> c.hasCertificate)
    && c.certificateVerify == (FlightRead(c.state) && Asks(config))
    && (Hello(c.state) || c.state.AwaitServerHello? || c.psk == config.psk)
    && (!Hello(c.state) ==>
          && |e.sent| == b + ClientSaid(c.state, c.certificateVerify)
          && e.peerSeqNo == b + ClientRead(c.state, config)
          && (forall k :: b <= k < |e.sent| ==> ClientSays(c.certificateVerify, k - b, e.sent[k].body))
          && (c.state.AwaitCertificate? || c.state.AwaitCertificateRequest? ==> !config.psk)
          && (!config.psk && ClientRead(c.state, config) > 1 ==> c.serverCertificates)
          && (c.state.SendCertificate? || c.state.SendCertificateVerify? ==> c.certificateVerify)
          && (c.state.SendFinished? || Waiting(c.state) || ClientThrough(c.state) ==> e.ccsSent))
  }

  ghost predicate Talk(sys: System) {
    && ServerTalk(sys.server) && PskTold(sys.server, sys.client.engine.sent)
    && ClientTalk(sys.client, Base(sys.server.engine.sent), sys.server.config)
  }

  // ----- Every step keeps to the script -----

  ghost predicate Scripted(server: seq<Message>, config: S.ServerConfig) {
    && (forall k :: Base(server) <= k < |server| ==> ServerSays(config, k - Base(server), server[k].body))
    && forall k :: 0 <= k < |server| ==> server[k].seqNo == k
  }

  /** Reading one of the messages of the server keeps the client in the script. */
  lemma ReadsHelloScript(c: C.Client, server: seq<Message>, config: S.ServerConfig, wanted: Kind)
    requires Hears(c.engine, server) && Scripted(server, config) && ClientTalk(c, Base(server), config)
    requires c.state.AwaitServerHello? || c.state.AwaitCertificate?
    requires Gate.Wants(c.state, wanted) && C.ClientReads(c, wanted).Some?
    ensures ClientTalk(C.ClientReads(c, wanted).value, Base(server), config)
  {
  }

  lemma ReadsKeyScript(c: C.Client, server: seq<Message>, config: S.ServerConfig, wanted: Kind)
    requires Hears(c.engine, server) && Scripted(server, config) && ClientTalk(c, Base(server), config)
    requires c.state.AwaitServerKeyExchange? || c.state.AwaitCertificateRequest?
    requires Gate.Wants(c.state, wanted) && C.ClientReads(c, wanted).Some?
    ensures ClientTalk(C.ClientReads(c, wanted).value, Base(server), config)
  {
    if HasComplete(c.engine, wanted) {
      if c.state.AwaitServerKeyExchange? {
      } else {
      }
    }
  }

  lemma ReadsDoneScript(c: C.Client, server: seq<Message>, config: S.ServerConfig)
    requires Hears(c.engine, server) && Scripted(server, config) && ClientTalk(c, Base(server), config)
    requires c.state.AwaitServerHelloDone? && C.ClientReads(c, ServerHelloDoneKind).Some?
    ensures ClientTalk(C.ClientReads(c, ServerHelloDoneKind).value, Base(server), config)
  {
    if HasComplete(c.engine, ServerHelloDoneKind) {
      if c.psk {
      } else if c.serverCertificates {
      }
    }
  }

  lemma ReadsEndScript(c: C.Client, server: seq<Message>, config: S.ServerConfig, wanted: Kind)
    requires Hears(c.engine, server) && Scripted(server, config) && ClientTalk(c, Base(server), config)
    requires c.state.AwaitNewSessionTicket? || c.state.AwaitFinished?
    requires Gate.Wants(c.state, wanted) && C.ClientReads(c, wanted).Some?
    ensures ClientTalk(C.ClientReads(c, wanted).value, Base(server), config)
  {
  }

  lemma ClientWritesScript(c: C.Client, b: nat, config: S.ServerConfig, content: nat)
    requires ClientTalk(c, b, config) && C.ClientStep(c, content).Some? && WritingFirst(c.state)
    ensures ClientTalk(C.ClientStep(c, content).value, b, config)
  {
    if c.state.SendCertificate? {
    } else if c.certificateVerify {
    } else {
    }
  }

  lemma ClientEndsScript(c: C.Client, b: nat, config: S.ServerConfig, content: nat)
    requires ClientTalk(c, b, config) && C.ClientStep(c, content).Some? && WritingLast(c.state)
    ensures ClientTalk(C.ClientStep(c, content).value, b, config)
  {
    if c.state.SendCertificateVerify? {
    } else if c.state.SendChangeCipherSpec? {
    } else {
    }
  }

  lemma ClientRestsScript(c: C.Client, b: nat, config: S.ServerConfig, content: nat)
    requires ClientTalk(c, b, config) && C.ClientStep(c, content).Some?
    requires c.state.AwaitChangeCipherSpec? || c.state.AwaitApplicationData? || c.state.Closed?
    ensures ClientTalk(C.ClientStep(c, content).value, b, config)
  {
  }

  predicate Peeks(c: C.Client) {
    || (c.state.AwaitNewSessionTicket? && HasComplete(c.engine, FinishedKind))
    || (HasComplete(c.engine, ServerHelloDoneKind)
        && (c.state.AwaitCertificateRequest? || (c.state.AwaitServerKeyExchange? && c.psk)))
  }

  /** Moving on to a message seen in the queue, without reading it. */
  lemma ClientPeeksScript(c: C.Client, server: seq<Message>, config: S.ServerConfig, content: nat)
    requires Hears(c.engine, server) && Scripted(server, config) && ClientTalk(c, Base(server), config)
    requires Peeks(c) && C.ClientStep(c, content).Some?
    ensures ClientTalk(C.ClientStep(c, content).value, Base(server), config)
  {
    if c.state.AwaitNewSessionTicket? {
    } else {
      DonePeeksScript(c, server, config, content);
    }
  }

  lemma DonePeeksScript(c: C.Client, server: seq<Message>, config: S.ServerConfig, content: nat)
    requires Hears(c.engine, server) && Scripted(server, config) && ClientTalk(c, Base(server), config)
    requires Peeks(c) && !c.state.AwaitNewSessionTicket? && C.ClientStep(c, content).Some?
    ensures ClientTalk(C.ClientStep(c, content).value, Base(server), config)
  {
    if c.state.AwaitServerKeyExchange? {
    } else {
    }
  }

  lemma HelloSentScript(c: C.Client, b: nat, config: S.ServerConfig, content: nat)
    requires ClientTalk(c, b, config) && c.state.SendClientHello?
    requires c.cookie.Some? ==> b == 1 && |c.engine.sent| == 1 && c.engine.peerSeqNo == 1
    ensures C.ClientStep(c, content).Some? && ClientTalk(C.ClientStep(c, content).value, b, config)
  {
  }

  lemma VerifyReadScript(c: C.Client, server: seq<Message>, config: S.ServerConfig, content: nat)
    requires Hears(c.engine, server) && Scripted(server, config) && ClientTalk(c, Base(server), config)
    requires c.state.AwaitHelloVerifyRequest? && c.engine.peerSeqNo == 0
    requires |c.engine.sent| == 1 && c.engine.sent[0].body.ClientHelloBody?
    ensures C.ClientStep(c, content).Some? && ClientTalk(C.ClientStep(c, content).value, Base(server), config)
  {
  }

  lemma ClientHelloScript(c: C.Client, server: seq<Message>, config: S.ServerConfig, story: seq<Message>, content: nat)
    requires Hears(c.engine, server) && Scripted(server, config) && ClientTalk(c, Base(server), config)
    requires ClientKnows(c, server, story) && HellosValid(c.random, c.cookie, c.engine.sent, server)
    requires Hello(c.state)
    ensures C.ClientStep(c, content).Some? && ClientTalk(C.ClientStep(c, content).value, Base(server), config)
  {
    if c.state.SendClientHello? {
      HelloSentScript(c, Base(server), config, content);
    } else {
      VerifyReadScript(c, server, config, content);
    }
  }

  lemma ClientReadsScript(c: C.Client, server: seq<Message>, config: S.ServerConfig, wanted: Kind)
    requires Hears(c.engine, server) && Scripted(server, config) && ClientTalk(c, Base(server), config)
    requires Gate.Wants(c.state, wanted) && C.ClientReads(c, wanted).Some?
    ensures ClientTalk(C.ClientReads(c, wanted).value, Base(server), config)
  {
    if c.state.AwaitServerHello? || c.state.AwaitCertificate? {
      ReadsHelloScript(c, server, config, wanted);
    } else if c.state.AwaitServerKeyExchange? || c.state.AwaitCertificateRequest? {
      ReadsKeyScript(c, server, config, wanted);
    } else if c.state.AwaitServerHelloDone? {
      ReadsDoneScript(c, server, config);
    } else {
      ReadsEndScript(c, server, config, wanted);
    }
  }

  /** The message a client in this state reads, when it does not move on without. */
  function Wanted(state: C.ClientState): Option<Kind> {
    match state
    case AwaitServerHello => Some(ServerHelloKind)
    case AwaitCertificate => Some(CertificateKind)
    case AwaitServerKeyExchange => Some(ServerKeyExchangeKind)
    case AwaitCertificateRequest => Some(CertificateRequestKind)
    case AwaitServerHelloDone => Some(ServerHelloDoneKind)
    case AwaitNewSessionTicket => Some(NewSessionTicketKind)
    case AwaitFinished => Some(FinishedKind)
    case _ => None
  }

  lemma WantedIsRead(c: C.Client, content: nat)
    requires Wanted(c.state).Some? && !Peeks(c)
    ensures Gate.Wants(c.state, Wanted(c.state).value)
    ensures C.ClientStep(c, content) == C.ClientReads(c, Wanted(c.state).value)
  {
  }

  lemma ClientStepScript(c: C.Client, server: seq<Message>, config: S.ServerConfig, story: seq<Message>, content: nat)
    requires Hears(c.engine, server) && Scripted(server, config) && ClientTalk(c, Base(server), config)
    requires ClientKnows(c, server, story) && HellosValid(c.random, c.cookie, c.engine.sent, server)
    requires C.ClientStep(c, content).Some?
    ensures ClientTalk(C.ClientStep(c, content).value, Base(server), config)
  {
    if Hello(c.state) {
      ClientHelloScript(c, server, config, story, content);
    } else if WritingFirst(c.state) {
      ClientWritesScript(c, Base(server), config, content);
    } else if WritingLast(c.state) {
      ClientEndsScript(c, Base(server), config, content);
    } else if Peeks(c) {
      ClientPeeksScript(c, server, config, content);
    } else if Wanted(c.state).Some? {
      WantedIsRead(c, content);
      ClientReadsScript(c, server, config, Wanted(c.state).value);
    } else {
      ClientRestsScript(c, Base(server), config, content);
    }
  }

  // ----- The server -----

  /** The client's messages behind its hello, as far as they have been sent. */
  ghost predicate ClientScripted(client: seq<Message>, b: nat, asked: bool) {
    && (forall k :: b < k < |client| ==> ClientSays(asked, k - b, client[k].body))
    && forall k :: 0 <= k < |client| ==> client[k].seqNo == k
  }

  /** A hello is answered with a cookie once at most: the second brings it along. */
  lemma ServerHelloScript(s: S.Server, random: nat, client: seq<Message>, content: nat)
    requires ServerTalk(s) && PskTold(s, client) && s.state.AwaitClientHello?
    requires Hears(s.engine, client) && forall k :: 0 <= k < |client| ==> client[k].seqNo == k
    requires |client| > 0 ==> client[0].body == ClientHelloBody(random, None)
    requires Base(s.engine.sent) == 1 && |client| > 1 ==>
               client[1].body == ClientHelloBody(random, Some(S.ComputeCookie(random)))
    requires S.ServerStep(s, content).Some?
    ensures ServerTalk(S.ServerStep(s, content).value) && PskTold(S.ServerStep(s, content).value, client)
  {
    if HasComplete(s.engine, ClientHelloKind) {
      var m := Read(s.engine).0;
      if s.config.useCookie && !S.VerifyCookie(m.body.random, m.body.cookie) {
      }
    }
  }

  lemma ServerWritesScript(s: S.Server, client: seq<Message>, content: nat)
    requires ServerTalk(s) && PskTold(s, client) && S.ServerStep(s, content).Some?
    requires s.state.SendServerHello? || s.state.SendCertificate?
    ensures ServerTalk(S.ServerStep(s, content).value) && PskTold(S.ServerStep(s, content).value, client)
  {
  }

  lemma ServerKeyScript(s: S.Server, client: seq<Message>, content: nat)
    requires ServerTalk(s) && PskTold(s, client) && S.ServerStep(s, content).Some?
    requires s.state.SendServerKeyExchange?
    ensures ServerTalk(S.ServerStep(s, content).value) && PskTold(S.ServerStep(s, content).value, client)
  {
    if s.config.psk && !s.config.identityHint {
    } else if Asks(s.config) {
    } else {
    }
  }

  lemma ServerEndsFlightScript(s: S.Server, client: seq<Message>, content: nat)
    requires ServerTalk(s) && PskTold(s, client) && S.ServerStep(s, content).Some?
    requires s.state.SendCertificateRequest? || s.state.SendServerHelloDone?
    ensures ServerTalk(S.ServerStep(s, content).value) && PskTold(S.ServerStep(s, content).value, client)
  {
    if s.state.SendCertificateRequest? {
    } else {
    }
  }

  lemma ServerFinishesScript(s: S.Server, client: seq<Message>, content: nat)
    requires ServerTalk(s) && PskTold(s, client) && S.ServerStep(s, content).Some?
    requires ServerFinishing(s.state)
    ensures ServerTalk(S.ServerStep(s, content).value) && PskTold(S.ServerStep(s, content).value, client)
  {
    if s.state.SendChangeCipherSpec? {
    } else {
    }
  }

  lemma ServerReadsScript(s: S.Server, client: seq<Message>, content: nat)
    requires ServerTalk(s) && PskTold(s, client) && S.ServerStep(s, content).Some?
    requires Hears(s.engine, client) && ClientScripted(client, Base(s.engine.sent), Asks(s.config))
    requires s.state.AwaitCertificate?
    ensures ServerTalk(S.ServerStep(s, content).value) && PskTold(S.ServerStep(s, content).value, client)
  {
    if HasComplete(s.engine, CertificateKind) {
    }
  }

  lemma ServerReadsKeyScript(s: S.Server, client: seq<Message>, content: nat)
    requires ServerTalk(s) && PskTold(s, client) && S.ServerStep(s, content).Some?
    requires Hears(s.engine, client) && ClientScripted(client, Base(s.engine.sent), Asks(s.config))
    requires s.state.AwaitClientKeyExchange?
    ensures ServerTalk(S.ServerStep(s, content).value) && PskTold(S.ServerStep(s, content).value, client)
  {
    if HasComplete(s.engine, ClientKeyExchangeKind) {
      var (m, e) := Read(s.engine);
      assert m == client[s.engine.peerSeqNo] && m.body.ClientKeyExchangeBody?;
      assert S.ServerStep(s, content) == S.ServerAccepts(s.(engine := e), m, s.engine.transcript);
    } else {
      assert S.ServerStep(s, content) == Some(s);
    }
  }

  lemma ServerChecksScript(s: S.Server, client: seq<Message>, content: nat)
    requires ServerTalk(s) && PskTold(s, client) && S.ServerStep(s, content).Some?
    requires Hears(s.engine, client) && ClientScripted(client, Base(s.engine.sent), Asks(s.config))
    requires s.state.AwaitCertificateVerify? || s.state.AwaitChangeCipherSpec?
    ensures ServerTalk(S.ServerStep(s, content).value) && PskTold(S.ServerStep(s, content).value, client)
  {
    if s.state.AwaitCertificateVerify? {
      if HasComplete(s.engine, CertificateVerifyKind) {
      }
    } else if s.engine.ccsPending {
    }
  }

  lemma ServerEndsScript(s: S.Server, client: seq<Message>, content: nat)
    requires ServerTalk(s) && PskTold(s, client) && S.ServerStep(s, content).Some?
    requires Hears(s.engine, client) && ClientScripted(client, Base(s.engine.sent), Asks(s.config))
    requires s.state.AwaitFinished?
    ensures ServerTalk(S.ServerStep(s, content).value) && PskTold(S.ServerStep(s, content).value, client)
  {
    if HasComplete(s.engine, FinishedKind) {
      var (m, e) := Read(s.engine);
      assert S.ServerStep(s, content) == Some(s.(engine := e, state := S.SendChangeCipherSpec));
    } else {
      assert S.ServerStep(s, content) == Some(s);
    }
  }

  lemma ServerStepScript(s: S.Server, random: nat, client: seq<Message>, content: nat)
    requires ServerTalk(s) && PskTold(s, client) && S.ServerStep(s, content).Some?
    requires Hears(s.engine, client) && ClientScripted(client, Base(s.engine.sent), Asks(s.config))
    requires |client| > 0 ==> client[0].body == ClientHelloBody(random, None)
    requires Base(s.engine.sent) == 1 && |client| > 1 ==>
               client[1].body == ClientHelloBody(random, Some(S.ComputeCookie(random)))
    ensures ServerTalk(S.ServerStep(s, content).value) && PskTold(S.ServerStep(s, content).value, client)
  {
    match s.state
    case AwaitClientHello => ServerHelloScript(s, random, client, content);
    case SendServerHello => ServerWritesScript(s, client, content);
    case SendCertificate => ServerWritesScript(s, client, content);
    case SendServerKeyExchange => ServerKeyScript(s, client, content);
    case SendCertificateRequest => ServerEndsFlightScript(s, client, content);
    case SendServerHelloDone => ServerEndsFlightScript(s, client, content);
    case SendChangeCipherSpec => ServerFinishesScript(s, client, content);
    case SendFinished => ServerFinishesScript(s, client, content);
    case AwaitCertificate => ServerReadsScript(s, client, content);
    case AwaitClientKeyExchange => ServerReadsKeyScript(s, client, content);
    case AwaitCertificateVerify => ServerChecksScript(s, client, content);
    case AwaitChangeCipherSpec => ServerChecksScript(s, client, content);
    case AwaitFinished => ServerEndsScript(s, client, content);
    case AwaitApplicationData =>
    case Closed =>
  }

  // ----- Whole runs -----

  lemma TalkScripted(sys: System)
    requires Agree(sys) && Talk(sys)
    ensures Scripted(sys.server.engine.sent, sys.server.config)
    ensures ClientScripted(sys.client.engine.sent, Base(sys.server.engine.sent), Asks(sys.server.config))
  {
    ServerKeepsScript(sys.server);
    ClientKeepsScript(sys.client, sys.server.engine.sent, sys.server.config, sys.story);
  }

  lemma ServerKeepsScript(s: S.Server)
    requires Numbered(s.engine) && ServerTalk(s)
    ensures Scripted(s.engine.sent, s.config)
  {
  }

  lemma ClientKeepsScript(c: C.Client, server: seq<Message>, config: S.ServerConfig, story: seq<Message>)
    requires Numbered(c.engine) && ClientKnows(c, server, story) && ClientTalk(c, Base(server), config)
    ensures ClientScripted(c.engine.sent, Base(server), Asks(config))
  {
  }

  lemma ClientMoveTalks(sys: System, content: nat)
    requires Agree(sys) && Talk(sys) && C.ClientStep(sys.client, content).Some?
    ensures Talk(Next(sys, ClientMoves(content)))
  {
    TalkScripted(sys);
    ClientStepScript(sys.client, sys.server.engine.sent, sys.server.config, sys.story, content);
    ClientSentGrows(sys.client, content);
  }

  ghost predicate Grows(before: seq<Message>, after: seq<Message>) {
    |before| <= |after| && forall i :: 0 <= i < |before| ==> after[i] == before[i]
  }

  lemma ClientSentGrows(c: C.Client, content: nat)
    requires C.ClientStep(c, content).Some?
    ensures Grows(c.engine.sent, C.ClientStep(c, content).value.engine.sent)
  {
    if Wanted(c.state).Some? && !Peeks(c) {
      WantedIsRead(c, content);
      ReadsSayNothing(c, Wanted(c.state).value);
    } else {
      OthersSayMore(c, content);
    }
  }

  lemma ReadsSayNothing(c: C.Client, wanted: Kind)
    requires C.ClientReads(c, wanted).Some?
    ensures C.ClientReads(c, wanted).value.engine.sent == c.engine.sent
  {
  }

  lemma OthersSayMore(c: C.Client, content: nat)
    requires C.ClientStep(c, content).Some? && (Wanted(c.state).Some? ==> Peeks(c))
    ensures Grows(c.engine.sent, C.ClientStep(c, content).value.engine.sent)
  {
    if Hello(c.state) {
      HelloSaysMore(c, content);
    } else if WritingFirst(c.state) || WritingLast(c.state) {
      WritesSayMore(c, content);
    } else {
      RestsSayNothing(c, content);
    }
  }

  lemma HelloSaysMore(c: C.Client, content: nat)
    requires C.ClientStep(c, content).Some? && Hello(c.state)
    ensures Grows(c.engine.sent, C.ClientStep(c, content).value.engine.sent)
  {
    var c' := C.ClientStep(c, content).value;
    if c.state.SendClientHello? {
      assert c'.engine == Create(c.engine, ClientHelloBody(c.random, c.cookie), content);
    } else {
      assert c'.engine.sent == c.engine.sent;
    }
  }

  lemma WritesSayMore(c: C.Client, content: nat)
    requires C.ClientStep(c, content).Some? && (WritingFirst(c.state) || WritingLast(c.state))
    ensures Grows(c.engine.sent, C.ClientStep(c, content).value.engine.sent)
  {
    if c.state.SendChangeCipherSpec? {
      assert C.ClientStep(c, content).value.engine.sent == c.engine.sent;
    } else {
      var c', m := ClientStepSends(c, content);
      assert c'.engine.sent == c.engine.sent + [m];
    }
  }

  lemma RestsSayNothing(c: C.Client, content: nat)
    requires C.ClientStep(c, content).Some? && (Wanted(c.state).Some? ==> Peeks(c))
    requires !Hello(c.state) && !WritingFirst(c.state) && !WritingLast(c.state)
    ensures C.ClientStep(c, content).value.engine.sent == c.engine.sent
  {
  }

  lemma ServerMoveTalks(sys: System, content: nat)
    requires Agree(sys) && Talk(sys) && S.ServerStep(sys.server, content).Some?
    ensures Talk(Next(sys, ServerMoves(content)))
  {
    TalkScripted(sys);
    ServerTalksOn(sys.client, sys.server, content);
  }

  lemma ServerTalksOn(c: C.Client, s: S.Server, content: nat)
    requires ServerTalk(s) && PskTold(s, c.engine.sent) && ClientTalk(c, Base(s.engine.sent), s.config)
    requires HellosValid(c.random, c.cookie, c.engine.sent, s.engine.sent)
    requires Hears(s.engine, c.engine.sent) && ClientScripted(c.engine.sent, Base(s.engine.sent), Asks(s.config))
    requires s.engine.sent == [] ==> Hello(c.state)
    requires S.ServerStep(s, content).Some?
    ensures Talk(System(c, S.ServerStep(s, content).value, []))
  {
    ServerStepScript(s, c.random, c.engine.sent, content);
    ServerBaseStays(s, content);
    AnotherBase(c, Base(s.engine.sent), Base(S.ServerStep(s, content).value.engine.sent), s.config);
  }

  /** A client still at its hellos has not seen whether it is asked for a cookie. */
  lemma AnotherBase(c: C.Client, b: nat, b': nat, config: S.ServerConfig)
    requires ClientTalk(c, b, config) && (b == b' || Hello(c.state))
    ensures ClientTalk(c, b', config)
  {
  }

  lemma ServerBaseStays(s: S.Server, content: nat)
    requires S.ServerStep(s, content).Some?
    ensures var t := S.ServerStep(s, content).value;
            && t.config == s.config
            && (s.engine.sent != [] ==> Base(t.engine.sent) == Base(s.engine.sent))
  {
    if ReadingFirst(s.state) || s.state.AwaitCertificateVerify? || s.state.AwaitFinished? {
      ServerReadingSaysNothing(s, content);
    } else {
      ServerSaysMore(s, content);
    }
  }

  lemma ServerReadingSaysNothing(s: S.Server, content: nat)
    requires S.ServerStep(s, content).Some?
    requires ReadingFirst(s.state) || s.state.AwaitCertificateVerify? || s.state.AwaitFinished?
    ensures var t := S.ServerStep(s, content).value;
            t.config == s.config && t.engine.sent == s.engine.sent
  {
    var wanted := match s.state
      case AwaitCertificate => CertificateKind
      case AwaitClientKeyExchange => ClientKeyExchangeKind
      case AwaitCertificateVerify => CertificateVerifyKind
      case _ => FinishedKind;
    assert S.ServerStep(s, content) == S.ServerReads(s, wanted);
    ServerReadsSayNothing(s, wanted);
  }

  lemma ServerReadsSayNothing(s: S.Server, wanted: Kind)
    requires S.ServerReads(s, wanted).Some?
    ensures var t := S.ServerReads(s, wanted).value;
            t.config == s.config && t.engine.sent == s.engine.sent
  {
  }

  lemma ServerSaysMore(s: S.Server, content: nat)
    requires S.ServerStep(s, content).Some?
    requires !ReadingFirst(s.state) && !s.state.AwaitCertificateVerify? && !s.state.AwaitFinished?
    ensures var t := S.ServerStep(s, content).value;
            t.config == s.config && Grows(s.engine.sent, t.engine.sent)
  {
    if s.state.AwaitClientHello? {
      AnswerSaysMore(s, content);
    } else if ServerWriting(s.state) {
      FlightSaysMore(s, content);
    } else {
      RestSaysMore(s, content);
    }
  }

  lemma AnswerSaysMore(s: S.Server, content: nat)
    requires S.ServerStep(s, content).Some? && s.state.AwaitClientHello?
    ensures var t := S.ServerStep(s, content).value;
            t.config == s.config && Grows(s.engine.sent, t.engine.sent)
  {
  }

  lemma FlightSaysMore(s: S.Server, content: nat)
    requires S.ServerStep(s, content).Some? && ServerWriting(s.state)
    ensures var t := S.ServerStep(s, content).value;
            t.config == s.config && Grows(s.engine.sent, t.engine.sent)
  {
  }

  lemma RestSaysMore(s: S.Server, content: nat)
    requires S.ServerStep(s, content).Some?
    requires s.state.AwaitChangeCipherSpec? || ServerFinishing(s.state) || ServerThrough(s.state)
    ensures var t := S.ServerStep(s, content).value;
            t.config == s.config && Grows(s.engine.sent, t.engine.sent)
  {
  }

  /** What waits unread, and what the network has signalled, is not part of the talk. */
  predicate SameTalk(e: Engine, f: Engine) {
    f.sent == e.sent && f.peerSeqNo == e.peerSeqNo && f.ccsSent == e.ccsSent
  }

  lemma ClientHears(c: C.Client, e: Engine, b: nat, config: S.ServerConfig)
    requires ClientTalk(c, b, config) && SameTalk(c.engine, e)
    ensures ClientTalk(c.(engine := e), b, config)
  {
  }

  lemma ServerHears(s: S.Server, e: Engine, client: seq<Message>)
    requires ServerTalk(s) && PskTold(s, client) && SameTalk(s.engine, e)
    ensures ServerTalk(s.(engine := e)) && PskTold(s.(engine := e), client)
  {
  }

  lemma ClientHearsTalks(sys: System, e: Engine)
    requires Talk(sys) && SameTalk(sys.client.engine, e)
    ensures Talk(sys.(client := sys.client.(engine := e)))
  {
    ClientHears(sys.client, e, Base(sys.server.engine.sent), sys.server.config);
  }

  lemma ServerHearsTalks(sys: System, e: Engine)
    requires Talk(sys) && SameTalk(sys.server.engine, e)
    ensures Talk(sys.(server := sys.server.(engine := e)))
  {
    ServerHears(sys.server, e, sys.client.engine.sent);
  }

  lemma ArrivalTalks(sys: System, step: Step)
    requires Talk(sys) && Enabled(sys, step) && !step.ClientMoves? && !step.ServerMoves?
    ensures Talk(Next(sys, step))
  {
    if step.ToClient? || step.CipherSpecToClient? || step.CloseToClient? {
      var e := ClientHeard(sys, step);
      ClientHearsTalks(sys, e);
    } else {
      var e := ServerHeard(sys, step);
      ServerHearsTalks(sys, e);
    }
  }

  lemma ClientHeard(sys: System, step: Step) returns (e: Engine)
    requires Enabled(sys, step) && (step.ToClient? || step.CipherSpecToClient? || step.CloseToClient?)
    ensures SameTalk(sys.client.engine, e) && Next(sys, step) == sys.(client := sys.client.(engine := e))
  {
    e := Next(sys, step).client.engine;
  }

  lemma ServerHeard(sys: System, step: Step) returns (e: Engine)
    requires Enabled(sys, step) && (step.ToServer? || step.CipherSpecToServer? || step.CloseToServer?)
    ensures SameTalk(sys.server.engine, e) && Next(sys, step) == sys.(server := sys.server.(engine := e))
  {
    e := Next(sys, step).server.engine;
  }

  lemma NextTalks(sys: System, step: Step)
    requires Agree(sys) && Talk(sys) && Enabled(sys, step)
    ensures Talk(Next(sys, step))
  {
    match step
    case ClientMoves(content) => ClientMoveTalks(sys, content);
    case ServerMoves(content) => ServerMoveTalks(sys, content);
    case _ => ArrivalTalks(sys, step);
  }

  lemma {:induction false} RunTalks(sys: System, steps: seq<Step>)
    requires Agree(sys) && Talk(sys) && EnabledRun(sys, steps)
    ensures Agree(Run(sys, steps)) && Talk(Run(sys, steps))
    decreases |steps|
  {
    if steps != [] {
      NextAgrees(sys, steps[0]);
      NextTalks(sys, steps[0]);
      RunTalks(Next(sys, steps[0]), steps[1..]);
    }
  }

  // ----- Someone can always go on -----

  predicate KnownIdentity(sys: System) {
    sys.server.config.psk ==>
      forall m :: m in sys.client.engine.sent && m.body.ClientKeyExchangeBody? ==> m.body.knownIdentity
  }

  predicate BothThrough(sys: System) {
    ClientThrough(sys.client.state) && ServerThrough(sys.server.state)
  }

  /** What this client needs next has been sent. */
  predicate ClientCan(sys: System) {
    var c := sys.client;
    if Wanted(c.state).Some? || c.state.AwaitHelloVerifyRequest? then c.engine.peerSeqNo < |sys.server.engine.sent|
    else if c.state.AwaitChangeCipherSpec? then sys.server.engine.ccsSent
    else !ClientThrough(c.state)
  }

  predicate ServerReads(state: S.ServerState) {
    state.AwaitClientHello? || ReadingFirst(state) || state.AwaitCertificateVerify? || state.AwaitFinished?
  }

  predicate ServerCan(sys: System) {
    var s := sys.server;
    if ServerReads(s.state) then s.engine.peerSeqNo < |sys.client.engine.sent|
    else if s.state.AwaitChangeCipherSpec? then sys.client.engine.ccsSent
    else !ServerThrough(s.state)
  }

  /** Two sides never wait for each other. */
  lemma SomeoneCan(sys: System)
    requires Agree(sys) && Talk(sys) && !BothThrough(sys)
    ensures ClientCan(sys) || ServerCan(sys)
  {
    if Hello(sys.client.state) {
      SomeoneCanAtFirst(sys.client, sys.server, sys.story);
    } else {
      SomeoneCanLater(sys.client, sys.server);
    }
  }

  lemma SomeoneCanAtFirst(c: C.Client, s: S.Server, story: seq<Message>)
    requires ServerTalk(s) && ClientKnows(c, s.engine.sent, story) && Hello(c.state)
    requires s.engine.peerSeqNo <= |c.engine.sent|
    ensures ClientCan(System(c, s, story)) || ServerCan(System(c, s, story))
  {
  }

  lemma SomeoneCanLater(c: C.Client, s: S.Server)
    requires ServerTalk(s) && ClientTalk(c, Base(s.engine.sent), s.config) && !Hello(c.state)
    requires !(ClientThrough(c.state) && ServerThrough(s.state))
    ensures ClientCan(System(c, s, [])) || ServerCan(System(c, s, []))
  {
  }

  // ----- Going on -----

  /** What is left to do: the client's retry and states, the server's answer and states. */
  function Ahead(c: C.Client, s: S.Server): nat {
    17 * C.Retries(c) + C.Rank(c.state) + S.Rank(s.state)
    + (if s.state.AwaitClientHello? && s.engine.sent == [] then 1 else 0)
  }

  /** The message a client waits for is there. */
  ghost predicate Fetched(e: Engine, peer: seq<Message>) {
    e.peerSeqNo < |peer| && e.peerSeqNo in e.received && e.received[e.peerSeqNo] == peer[e.peerSeqNo]
  }

  /** With its next message there, the client accepts it and moves on. */
  lemma ClientAcceptsFlight(c: C.Client, server: seq<Message>, config: S.ServerConfig)
    requires Fetched(c.engine, server) && Scripted(server, config) && ClientTalk(c, Base(server), config)
    requires Reading(c.state) && !c.state.AwaitServerHelloDone?
    ensures C.ClientStep(c, 0).Some? && C.ClientStep(c, 0).value.state != c.state
  {
  }

  lemma ClientAcceptsDone(c: C.Client, server: seq<Message>, config: S.ServerConfig)
    requires Fetched(c.engine, server) && Scripted(server, config) && ClientTalk(c, Base(server), config)
    requires c.state.AwaitServerHelloDone?
    ensures C.ClientStep(c, 0).Some? && C.ClientStep(c, 0).value.state != c.state
  {
  }

  lemma ClientAcceptsEnd(c: C.Client, server: seq<Message>, config: S.ServerConfig)
    requires Fetched(c.engine, server) && Scripted(server, config) && ClientTalk(c, Base(server), config)
    requires c.state.AwaitNewSessionTicket? || c.state.AwaitFinished?
    requires ClientPasses(c)
    ensures C.ClientStep(c, 0).Some? && C.ClientStep(c, 0).value.state != c.state
  {
  }

  lemma ClientAcceptsHello(c: C.Client, server: seq<Message>, config: S.ServerConfig)
    requires Fetched(c.engine, server) && Scripted(server, config) && c.engine.peerSeqNo == 0
    requires c.state.AwaitHelloVerifyRequest?
    ensures C.ClientStep(c, 0).Some? && C.ClientStep(c, 0).value.state != c.state
  {
  }

  lemma ClientWritesOn(c: C.Client, server: seq<Message>, story: seq<Message>)
    requires c.state.SendClientHello? || WritingFirst(c.state) || WritingLast(c.state)
    requires ClientHashed(c, server, story)
    ensures C.ClientStep(c, 0).Some? && C.ClientStep(c, 0).value.state != c.state
  {
  }

  lemma ServerAnswers(s: S.Server, random: nat, client: seq<Message>)
    requires ServerTalk(s) && Fetched(s.engine, client) && s.state.AwaitClientHello?
    requires client[0].body == ClientHelloBody(random, None)
    requires Base(s.engine.sent) == 1 ==>
               |client| > 1 && client[1].body == ClientHelloBody(random, Some(S.ComputeCookie(random)))
    ensures S.ServerStep(s, 0).Some?
    ensures var t := S.ServerStep(s, 0).value; t.state.SendServerHello? || (s.engine.sent == [] && t.engine.sent != [])
  {
  }

  lemma ServerAcceptsFlight(s: S.Server, client: seq<Message>)
    requires ServerTalk(s) && Fetched(s.engine, client)
    requires ClientScripted(client, Base(s.engine.sent), Asks(s.config))
    requires ReadingFirst(s.state) || s.state.AwaitCertificateVerify?
    requires ServerPasses(s)
    ensures S.ServerStep(s, 0).Some? && S.ServerStep(s, 0).value.state != s.state
  {
  }

  lemma ServerAcceptsEnd(s: S.Server, client: seq<Message>)
    requires ServerTalk(s) && Fetched(s.engine, client)
    requires ClientScripted(client, Base(s.engine.sent), Asks(s.config))
    requires s.state.AwaitFinished? && ServerPasses(s) && s.pskValid != Some(false)
    ensures S.ServerStep(s, 0).Some? && S.ServerStep(s, 0).value.state != s.state
  {
  }

  lemma ServerWritesOn(s: S.Server, client: seq<Message>, story: seq<Message>)
    requires ServerWriting(s.state) || ServerFinishing(s.state)
    requires ServerHashed(s, client, story)
    ensures S.ServerStep(s, 0).Some? && S.ServerStep(s, 0).value.state != s.state
  {
  }

  /** The client has at hand what its state waits for. */
  ghost predicate ClientHas(sys: System) {
    && !ClientThrough(sys.client.state)
    && (Wanted(sys.client.state).Some? || sys.client.state.AwaitHelloVerifyRequest? ==>
          Fetched(sys.client.engine, sys.server.engine.sent))
    && (sys.client.state.AwaitChangeCipherSpec? ==> sys.client.engine.ccsPending)
  }

  lemma ClientReady(sys: System)
    requires Agree(sys) && Talk(sys) && ClientHas(sys)
    ensures C.ClientStep(sys.client, 0).Some? && C.ClientStep(sys.client, 0).value.state != sys.client.state
  {
    TalkScripted(sys);
    AgreedClientPasses(sys);
    ClientReadyFor(sys.client, sys.server.engine.sent, sys.server.config, sys.story);
  }

  lemma ClientReadyFor(c: C.Client, server: seq<Message>, config: S.ServerConfig, story: seq<Message>)
    requires Scripted(server, config) && ClientTalk(c, Base(server), config) && ClientPasses(c)
    requires ClientKnows(c, server, story) && ClientHashed(c, server, story)
    requires !ClientThrough(c.state)
    requires Wanted(c.state).Some? || c.state.AwaitHelloVerifyRequest? ==> Fetched(c.engine, server)
    requires c.state.AwaitChangeCipherSpec? ==> c.engine.ccsPending
    ensures C.ClientStep(c, 0).Some? && C.ClientStep(c, 0).value.state != c.state
  {
    if c.state.AwaitHelloVerifyRequest? {
      ClientAcceptsHello(c, server, config);
    } else if c.state.AwaitServerHelloDone? {
      ClientAcceptsDone(c, server, config);
    } else if Reading(c.state) {
      ClientAcceptsFlight(c, server, config);
    } else if c.state.AwaitNewSessionTicket? || c.state.AwaitFinished? {
      ClientAcceptsEnd(c, server, config);
    } else if !c.state.AwaitChangeCipherSpec? {
      ClientWritesOn(c, server, story);
    }
  }

  /** A step that moves the client on leaves less to do, and names a known identity. */
  lemma ClientMoveAdvances(sys: System)
    requires Agree(sys) && Talk(sys) && KnownIdentity(sys)
    requires C.ClientStep(sys.client, 0).Some? && C.ClientStep(sys.client, 0).value.state != sys.client.state
    ensures var t := Next(sys, ClientMoves(0));
            Agree(t) && Talk(t) && KnownIdentity(t) && Ahead(t.client, t.server) < Ahead(sys.client, sys.server)
  {
    NextAgrees(sys, ClientMoves(0));
    NextTalks(sys, ClientMoves(0));
    ClientMoveFalls(sys.client, sys.server);
    ClientNamesKnown(sys.client);
  }

  lemma ClientMoveFalls(c: C.Client, s: S.Server)
    requires C.CookieOnce(c) && C.ClientStep(c, 0).Some? && C.ClientStep(c, 0).value.state != c.state
    ensures Ahead(C.ClientStep(c, 0).value, s) < Ahead(c, s)
  {
    C.StepDescends(c, 0);
  }

  lemma ClientNamesKnown(c: C.Client)
    requires C.ClientStep(c, 0).Some?
    ensures forall m :: m in C.ClientStep(c, 0).value.engine.sent && m.body.ClientKeyExchangeBody? ==>
              m in c.engine.sent || m.body.knownIdentity
  {
    if Wanted(c.state).Some? && !Peeks(c) {
      WantedIsRead(c, 0);
      ReadsSayNothing(c, Wanted(c.state).value);
    } else if c.state.SendClientHello? {
      assert C.ClientStep(c, 0).value.engine == Create(c.engine, ClientHelloBody(c.random, c.cookie), 0);
    } else if WritingFirst(c.state) || c.state.SendCertificateVerify? || c.state.SendFinished? {
      var c', m := ClientStepSends(c, 0);
      assert c'.engine.sent == c.engine.sent + [m];
    }
  }

  ghost predicate Going(sys: System) {
    Agree(sys) && Talk(sys) && KnownIdentity(sys)
  }

  ghost predicate Advances(sys: System, next: System) {
    Going(next) && Ahead(next.client, next.server) < Ahead(sys.client, sys.server)
  }

  lemma ArrivalLeaves(sys: System, step: Step)
    requires Enabled(sys, step) && !step.ClientMoves? && !step.ServerMoves?
    ensures var t := Next(sys, step);
            && t.client.engine.sent == sys.client.engine.sent && t.server.config == sys.server.config
            && (KnownIdentity(sys) ==> KnownIdentity(t))
            && Ahead(t.client, t.server) == Ahead(sys.client, sys.server)
  {
  }

  lemma ArrivalKeepsGoing(sys: System, step: Step)
    requires Going(sys) && Enabled(sys, step) && !step.ClientMoves? && !step.ServerMoves?
    ensures Going(Next(sys, step))
    ensures Ahead(Next(sys, step).client, Next(sys, step).server) == Ahead(sys.client, sys.server)
  {
    ArrivalLeaves(sys, step);
    ArrivalsAgree(sys, step);
    ArrivalTalks(sys, step);
  }

  lemma ArrivalIsThere(e: Engine, peer: seq<Message>)
    requires Hears(e, peer) && e.peerSeqNo < |peer| && peer[e.peerSeqNo].seqNo == e.peerSeqNo
    ensures Fetched(Arrive(e, peer[e.peerSeqNo]), peer)
  {
  }

  /** What the client waits for arrives. */
  lemma ClientFetches(sys: System, fetch: Step)
    requires Hears(sys.client.engine, sys.server.engine.sent) && Numbered(sys.server.engine) && ClientCan(sys)
    requires if sys.client.state.AwaitChangeCipherSpec? then fetch == CipherSpecToClient
             else (Wanted(sys.client.state).Some? || sys.client.state.AwaitHelloVerifyRequest?)
                  && fetch == ToClient(sys.client.engine.peerSeqNo)
    ensures Enabled(sys, fetch) && ClientHas(Next(sys, fetch))
  {
    if !sys.client.state.AwaitChangeCipherSpec? {
      ArrivalIsThere(sys.client.engine, sys.server.engine.sent);
    }
  }

  lemma ClientMovesOn(sys: System)
    requires Going(sys) && ClientHas(sys)
    ensures Enabled(sys, ClientMoves(0)) && Advances(sys, Next(sys, ClientMoves(0)))
  {
    ClientReady(sys);
    ClientMoveAdvances(sys);
  }

  lemma ClientGoesOn(sys: System) returns (more: seq<Step>)
    requires Going(sys) && ClientCan(sys)
    ensures EnabledRun(sys, more) && Advances(sys, Run(sys, more))
  {
    var c := sys.client;
    if Wanted(c.state).Some? || c.state.AwaitHelloVerifyRequest? || c.state.AwaitChangeCipherSpec? {
      var fetch := if c.state.AwaitChangeCipherSpec? then CipherSpecToClient else ToClient(c.engine.peerSeqNo);
      ClientFetches(sys, fetch);
      ArrivalKeepsGoing(sys, fetch);
      ClientMovesOn(Next(sys, fetch));
      TwoSteps(sys, fetch, ClientMoves(0));
      more := [fetch, ClientMoves(0)];
    } else {
      ClientMovesOn(sys);
      OneStep(sys, ClientMoves(0));
      more := [ClientMoves(0)];
    }
  }

  lemma OneStep(sys: System, step: Step)
    requires Enabled(sys, step)
    ensures EnabledRun(sys, [step]) && Run(sys, [step]) == Next(sys, step)
  {
    assert [step][1..] == [];
  }

  lemma TwoSteps(sys: System, first: Step, second: Step)
    requires Enabled(sys, first) && Enabled(Next(sys, first), second)
    ensures EnabledRun(sys, [first, second]) && Run(sys, [first, second]) == Next(Next(sys, first), second)
  {
    assert [first, second][1..] == [second];
    OneStep(Next(sys, first), second);
  }

  lemma ServerReady(sys: System)
    requires Agree(sys) && Talk(sys) && KnownIdentity(sys) && !ServerThrough(sys.server.state)
    requires ServerReads(sys.server.state) ==> Fetched(sys.server.engine, sys.client.engine.sent)
    requires sys.server.state.AwaitChangeCipherSpec? ==> sys.server.engine.ccsPending
    ensures S.ServerStep(sys.server, 0).Some?
    ensures var t := S.ServerStep(sys.server, 0).value;
            t.state != sys.server.state || (sys.server.engine.sent == [] && t.engine.sent != [])
  {
    var (s, client) := (sys.server, sys.client.engine.sent);
    TalkScripted(sys);
    AgreedServerPasses(sys);
    if s.state.AwaitClientHello? {
      ServerAnswers(s, sys.client.random, client);
    } else if s.state.AwaitFinished? {
      ServerAcceptsEnd(s, client);
    } else if ServerReads(s.state) {
      ServerAcceptsFlight(s, client);
    } else if !s.state.AwaitChangeCipherSpec? {
      ServerWritesOn(s, client, sys.story);
    }
  }

  lemma ServerMoveAdvances(sys: System)
    requires Agree(sys) && Talk(sys) && KnownIdentity(sys) && S.ServerStep(sys.server, 0).Some?
    requires var t := S.ServerStep(sys.server, 0).value;
             t.state != sys.server.state || (sys.server.engine.sent == [] && t.engine.sent != [])
    ensures var t := Next(sys, ServerMoves(0));
            Agree(t) && Talk(t) && KnownIdentity(t) && Ahead(t.client, t.server) < Ahead(sys.client, sys.server)
  {
    NextAgrees(sys, ServerMoves(0));
    NextTalks(sys, ServerMoves(0));
    S.StepDescends(sys.server, 0);
    ServerBaseStays(sys.server, 0);
  }

  ghost predicate ServerHas(sys: System) {
    && !ServerThrough(sys.server.state)
    && (ServerReads(sys.server.state) ==> Fetched(sys.server.engine, sys.client.engine.sent))
    && (sys.server.state.AwaitChangeCipherSpec? ==> sys.server.engine.ccsPending)
  }

  lemma ServerFetches(sys: System, fetch: Step)
    requires Hears(sys.server.engine, sys.client.engine.sent) && Numbered(sys.client.engine) && ServerCan(sys)
    requires if sys.server.state.AwaitChangeCipherSpec? then fetch == CipherSpecToServer
             else ServerReads(sys.server.state) && fetch == ToServer(sys.server.engine.peerSeqNo)
    ensures Enabled(sys, fetch) && ServerHas(Next(sys, fetch))
  {
    if !sys.server.state.AwaitChangeCipherSpec? {
      ArrivalIsThere(sys.server.engine, sys.client.engine.sent);
    }
  }

  lemma ServerMovesOn(sys: System)
    requires Going(sys) && ServerHas(sys)
    ensures Enabled(sys, ServerMoves(0)) && Advances(sys, Next(sys, ServerMoves(0)))
  {
    ServerReady(sys);
    ServerMoveAdvances(sys);
  }

  lemma ServerGoesOn(sys: System) returns (more: seq<Step>)
    requires Going(sys) && ServerCan(sys)
    ensures EnabledRun(sys, more) && Advances(sys, Run(sys, more))
  {
    var s := sys.server;
    if ServerReads(s.state) || s.state.AwaitChangeCipherSpec? {
      var fetch := if s.state.AwaitChangeCipherSpec? then CipherSpecToServer else ToServer(s.engine.peerSeqNo);
      ServerFetches(sys, fetch);
      ArrivalKeepsGoing(sys, fetch);
      ServerMovesOn(Next(sys, fetch));
      TwoSteps(sys, fetch, ServerMoves(0));
      more := [fetch, ServerMoves(0)];
    } else {
      ServerMovesOn(sys);
      OneStep(sys, ServerMoves(0));
      more := [ServerMoves(0)];
    }
  }

  // ----- The end -----

  lemma {:induction false} RunAppend(sys: System, steps: seq<Step>, more: seq<Step>)
    requires EnabledRun(sys, steps) && EnabledRun(Run(sys, steps), more)
    ensures EnabledRun(sys, steps + more) && Run(sys, steps + more) == Run(Run(sys, steps), more)
    decreases |steps|
  {
    if steps == [] {
      assert steps + more == more;
    } else {
      RunAppend(Next(sys, steps[0]), steps[1..], more);
      RunOne(sys, steps, more);
    }
  }

  lemma RunOne(sys: System, steps: seq<Step>, more: seq<Step>)
    requires steps != [] && Enabled(sys, steps[0]) && EnabledRun(Next(sys, steps[0]), steps[1..] + more)
    ensures EnabledRun(sys, steps + more) && Run(sys, steps + more) == Run(Next(sys, steps[0]), steps[1..] + more)
  {
    assert (steps + more)[1..] == steps[1..] + more;
  }

  lemma {:induction false} Completes(sys: System) returns (more: seq<Step>)
    requires Going(sys)
    ensures EnabledRun(sys, more) && Going(Run(sys, more)) && BothThrough(Run(sys, more))
    decreases Ahead(sys.client, sys.server)
  {
    if BothThrough(sys) {
      more := [];
    } else {
      SomeoneCan(sys);
      var first: seq<Step>;
      if ClientCan(sys) {
        first := ClientGoesOn(sys);
      } else {
        first := ServerGoesOn(sys);
      }
      var rest := Completes(Run(sys, first));
      RunAppend(sys, first, rest);
      more := first + rest;
    }
  }

  predicate BothConnected(sys: System) {
    Connected in sys.client.events && Connected in sys.server.events
  }

  /** A server past the client's Finished has accepted the one identity it was told. */
  lemma AcceptedIsKnown(s: S.Server, client: seq<Message>)
    requires ServerThrough(s.state) && s.config.psk && PskTold(s, client)
    requires ClientScripted(client, Base(s.engine.sent), false)
    requires forall i :: 0 <= i <= Base(s.engine.sent) && i < |client| ==> client[i].body.ClientHelloBody?
    ensures forall m :: m in client && m.body.ClientKeyExchangeBody? ==> m.body.knownIdentity
  {
    var b := Base(s.engine.sent);
    forall i | 0 <= i < |client| && client[i].body.ClientKeyExchangeBody?
      ensures client[i].body.knownIdentity
    {
      assert i > b ==> ClientSays(false, i - b, client[i].body);
      assert i == b + 1;
    }
  }

  lemma ThroughIsKnown(c: C.Client, s: S.Server)
    requires HellosValid(c.random, c.cookie, c.engine.sent, s.engine.sent)
    requires ClientScripted(c.engine.sent, Base(s.engine.sent), Asks(s.config))
    requires PskTold(s, c.engine.sent) && ServerThrough(s.state)
    ensures KnownIdentity(System(c, s, []))
  {
    var client, b := c.engine.sent, Base(s.engine.sent);
    if s.config.psk {
      assert forall i :: 0 <= i <= b && i < |client| ==> client[i].body.ClientHelloBody?;
      AcceptedIsKnown(s, client);
    }
  }

  lemma EndIsKnown(sys: System)
    requires Agree(sys) && Talk(sys) && ServerThrough(sys.server.state)
    ensures KnownIdentity(sys)
  {
    TalkScripted(sys);
    ThroughIsKnown(sys.client, sys.server);
  }

  /** A named identity the server does not know is never unsaid. */
  lemma UnknownBars(sys: System, more: seq<Step>)
    requires Agree(sys) && Talk(sys) && EnabledRun(sys, more) && BothConnected(Run(sys, more))
    ensures KnownIdentity(sys)
  {
    var end := Run(sys, more);
    RunTalks(sys, more);
    EndIsKnown(end);
    RunSaysMore(sys, more);
    forall m | m in sys.client.engine.sent
      ensures m in end.client.engine.sent
    {
      var i :| 0 <= i < |sys.client.engine.sent| && sys.client.engine.sent[i] == m;
      assert end.client.engine.sent[i] == m;
    }
  }

  lemma KnownCompletes(sys: System)
    requires Agree(sys) && Talk(sys) && KnownIdentity(sys)
    ensures exists more :: EnabledRun(sys, more) && BothConnected(Run(sys, more))
  {
    var more := Completes(sys);
    assert EnabledRun(sys, more) && BothConnected(Run(sys, more));
  }

  /** From every state of every honest run there is a way on to both sides reporting the
      connection, exactly when the client has named no identity the server does not know.  A
      client that may be asked for a certificate has one. */
  lemma CompletionExact(origin: Origin, random: nat, hasCertificate: bool, config: S.ServerConfig,
                        steps: seq<Step>, sys: System)
    requires Reached(origin, random, hasCertificate, config, steps, sys)
    requires Asks(config) ==> hasCertificate
    ensures KnownIdentity(sys) <==> exists more :: EnabledRun(sys, more) && BothConnected(Run(sys, more))
  {
    ReachedTalks(origin, random, hasCertificate, config, steps, sys);
    if KnownIdentity(sys) {
      KnownCompletes(sys);
    } else {
      forall more | EnabledRun(sys, more)
        ensures !BothConnected(Run(sys, more))
      {
        if BothConnected(Run(sys, more)) {
          UnknownBars(sys, more);
        }
      }
    }
  }

  lemma {:induction false} RunSaysMore(sys: System, steps: seq<Step>)
    requires EnabledRun(sys, steps)
    ensures Grows(sys.client.engine.sent, Run(sys, steps).client.engine.sent)
    ensures Run(sys, steps).server.config == sys.server.config
    decreases |steps|
  {
    if steps != [] {
      match steps[0] {
        case ClientMoves(content) => ClientSentGrows(sys.client, content);
        case ServerMoves(content) => ServerBaseStays(sys.server, content);
        case _ => ArrivalLeaves(sys, steps[0]);
      }
      RunSaysMore(Next(sys, steps[0]), steps[1..]);
    }
  }

  lemma ReachedTalks(origin: Origin, random: nat, hasCertificate: bool, config: S.ServerConfig,
                     steps: seq<Step>, sys: System)
    requires Reached(origin, random, hasCertificate, config, steps, sys)
    requires Asks(config) ==> hasCertificate
    ensures Agree(sys) && Talk(sys)
  {
    var start := Start(origin, random, hasCertificate, config);
    StartAgrees(origin, random, hasCertificate, config);
    RunTalks(start, steps);
  }
}
