/** The DTLS 1.2 server, one state function at a time. */
module Server12 {
  import opened Handshakes
  import opened Messages12

  datatype ServerState =
    | AwaitClientHello
    | SendServerHello
    | SendCertificate
    | SendServerKeyExchange
    | SendCertificateRequest
    | SendServerHelloDone
    | AwaitCertificate
    | AwaitClientKeyExchange
    | AwaitCertificateVerify
    | AwaitChangeCipherSpec
    | AwaitFinished
    | SendChangeCipherSpec
    | SendFinished
    | AwaitApplicationData
    | Closed

  datatype ServerConfig = ServerConfig(useCookie: bool, requireClientCertificate: bool, psk: bool, identityHint: bool)

  datatype Server = Server(
    state: ServerState,
    engine: Engine,
    config: ServerConfig,
    clientCertificates: bool,
    pskValid: Option<bool>,
    sessionHash: Option<seq<Message>>,
    events: seq<Event>)

  function NewServer(config: ServerConfig): Server {
    Server(AwaitClientHello, NEW_ENGINE, config, false, None, None, [])
  }

  type ServerOutcome = Option<Server>

  /** The cookie is an HMAC of the client's random. */
  function ComputeCookie(random: nat): nat {
    random
  }

  predicate VerifyCookie(random: nat, cookie: Option<nat>) {
    cookie == Some(ComputeCookie(random))
  }

  function ServerSends(s: Server, body: Body, content: nat, state: ServerState): Server {
    s.(engine := Create(s.engine, body, content), state := state)
  }

  function ServerStep(s: Server, content: nat): ServerOutcome {
    var e := s.engine;
    match s.state
    case AwaitClientHello =>
      if !HasComplete(e, ClientHelloKind) then Some(s)
      else
        var (m, e') := Read(e);
        if s.config.useCookie && !VerifyCookie(m.body.random, m.body.cookie) then
          var e'' := Create(e', HelloVerifyRequestBody(ComputeCookie(m.body.random)), content);
          Some(s.(engine := ResetServerForHelloVerifyRequest(e'')))
        else Some(s.(engine := e', state := SendServerHello))
    case SendServerHello =>
      Some(ServerSends(s, ServerHelloBody(s.config.psk, true), content,
                       if s.config.psk then SendServerKeyExchange else SendCertificate))
    case SendCertificate => Some(ServerSends(s, CertificateBody(true), content, SendServerKeyExchange))
    case SendServerKeyExchange =>
      if s.config.psk && !s.config.identityHint then Some(s.(state := SendServerHelloDone))
      else
        Some(ServerSends(s, ServerKeyExchangeBody(!s.config.psk), content,
                         if !s.config.psk && s.config.requireClientCertificate
                         then SendCertificateRequest else SendServerHelloDone))
    case SendCertificateRequest => Some(ServerSends(s, CertificateRequestBody(true), content, SendServerHelloDone))
    case SendServerHelloDone =>
      Some(ServerSends(s, ServerHelloDoneBody, content,
                       if !s.config.psk && s.config.requireClientCertificate
                       then AwaitCertificate else AwaitClientKeyExchange))
    case AwaitCertificate => ServerReads(s, CertificateKind)
    case AwaitClientKeyExchange => ServerReads(s, ClientKeyExchangeKind)
    case AwaitCertificateVerify => ServerReads(s, CertificateVerifyKind)
    case AwaitChangeCipherSpec =>
      if !e.ccsPending then Some(s)
      else Some(s.(engine := e.(ccsPending := false, peerEncrypted := true), state := AwaitFinished))
    case AwaitFinished => ServerReads(s, FinishedKind)
    case SendChangeCipherSpec => Some(s.(engine := e.(ccsSent := true), state := SendFinished))
    case SendFinished =>
      if s.sessionHash.None? then None
      else
        var s' := ServerSends(s, FinishedBody(VerifyData(false, s.sessionHash.value, e.transcript)), content,
                              AwaitApplicationData);
        Some(s'.(engine := s'.engine.(released := true), events := s.events + [Connected]))
    case AwaitApplicationData => if e.closeNotify then Some(s.(state := Closed)) else Some(s)
    case Closed => Some(s)
  }

  function ServerReads(s: Server, wanted: Kind): ServerOutcome {
    if !HasComplete(s.engine, wanted) then Some(s)
    else
      var (m, e) := Read(s.engine);
      ServerAccepts(s.(engine := e), m, s.engine.transcript)
  }

  function ServerAccepts(s: Server, m: Message, before: seq<Message>): ServerOutcome {
    match m.body
    case CertificateBody(present) => Some(s.(clientCertificates := present, state := AwaitClientKeyExchange))
    case ClientKeyExchangeBody(known) =>
      Some(s.(pskValid := if s.config.psk then Some(known) else s.pskValid,
              sessionHash := Some(s.engine.transcript),
              state := if s.clientCertificates then AwaitCertificateVerify
                       else AwaitChangeCipherSpec))
    case CertificateVerifyBody(signedData) =>
      if signedData != before then None else Some(s.(state := AwaitChangeCipherSpec))
    case FinishedBody(verifyData) =>
      if s.sessionHash.None? || verifyData != VerifyData(true, s.sessionHash.value, before) then None
      else if s.pskValid == Some(false) then None
      else Some(s.(state := SendChangeCipherSpec))
    case _ => None
  }

  /** A message read only to be refused. */
  function Refused(s: Server, wanted: Kind): Server {
    if HasComplete(s.engine, wanted) then s.(engine := Read(s.engine).1) else s
  }

  /** What is hashed and numbered although it could not be sent. */
  function Unsent(s: Server, body: Body, content: nat): Server {
    s.(engine := Create(s.engine, body, content))
  }

  /** What a transition that ends in an error leaves behind: a message read stays read and
      hashed, one being written stays hashed and numbered, and the state is the old one. */
  function ServerFails(s: Server, content: nat): Server {
    var e := s.engine;
    match s.state
    case AwaitClientHello =>
      if !HasComplete(e, ClientHelloKind) then s
      else
        var (m, e') := Read(e);
        if s.config.useCookie && !VerifyCookie(m.body.random, m.body.cookie) then
          Unsent(s.(engine := e'), HelloVerifyRequestBody(ComputeCookie(m.body.random)), content)
        else s.(engine := e')
    case SendServerHello => Unsent(s, ServerHelloBody(s.config.psk, true), content)
    case SendCertificate => Unsent(s, CertificateBody(true), content)
    case SendServerKeyExchange =>
      if s.config.psk && !s.config.identityHint then s else Unsent(s, ServerKeyExchangeBody(!s.config.psk), content)
    case SendCertificateRequest => Unsent(s, CertificateRequestBody(true), content)
    case SendServerHelloDone => Unsent(s, ServerHelloDoneBody, content)
    case AwaitCertificate => Refused(s, CertificateKind)
    case AwaitClientKeyExchange => Refused(s, ClientKeyExchangeKind)
    case AwaitCertificateVerify => Refused(s, CertificateVerifyKind)
    case AwaitChangeCipherSpec =>
      if e.ccsPending then s.(engine := e.(ccsPending := false, peerEncrypted := true)) else s
    case AwaitFinished => Refused(s, FinishedKind)
    case SendChangeCipherSpec => s
    case SendFinished =>
      if s.sessionHash.None? then s
      else Unsent(s, FinishedBody(VerifyData(false, s.sessionHash.value, e.transcript)), content)
    case AwaitApplicationData => s
    case Closed => s
  }

  /** A message whose body cannot be built leaves no trace but the ClientHello it would have
      answered with a cookie. */
  function ServerUnbuilt(s: Server): Server {
    if s.state.AwaitClientHello? then Refused(s, ClientHelloKind) else s
  }

  // ----- The progress loop -----

  /** States still ahead; answering with a cookie stays where it is. */
  function Rank(state: ServerState): nat {
    match state
    case AwaitClientHello => 14
    case SendServerHello => 13
    case SendCertificate => 12
    case SendServerKeyExchange => 11
    case SendCertificateRequest => 10
    case SendServerHelloDone => 9
    case AwaitCertificate => 8
    case AwaitClientKeyExchange => 7
    case AwaitCertificateVerify => 6
    case AwaitChangeCipherSpec => 5
    case AwaitFinished => 4
    case SendChangeCipherSpec => 3
    case SendFinished => 2
    case AwaitApplicationData => 1
    case Closed => 0
  }

  lemma ReadsDescend(s: Server, wanted: Kind)
    requires match s.state
             case AwaitCertificate => wanted == CertificateKind
             case AwaitClientKeyExchange => wanted == ClientKeyExchangeKind
             case AwaitCertificateVerify => wanted == CertificateVerifyKind
             case AwaitFinished => wanted == FinishedKind
             case _ => false
    requires ServerReads(s, wanted).Some?
    ensures var s' := ServerReads(s, wanted).value; s'.state == s.state || Rank(s'.state) < Rank(s.state)
  {
  }

  lemma OthersDescend(s: Server, content: nat)
    requires ServerStep(s, content).Some?
    requires !s.state.AwaitCertificate? && !s.state.AwaitClientKeyExchange? && !s.state.AwaitCertificateVerify?
             && !s.state.AwaitFinished?
    ensures var s' := ServerStep(s, content).value; s'.state == s.state || Rank(s'.state) < Rank(s.state)
  {
  }

  lemma StepDescends(s: Server, content: nat)
    requires ServerStep(s, content).Some?
    ensures var s' := ServerStep(s, content).value; s'.state == s.state || Rank(s'.state) < Rank(s.state)
  {
    match s.state
    case AwaitCertificate => ReadsDescend(s, CertificateKind);
    case AwaitClientKeyExchange => ReadsDescend(s, ClientKeyExchangeKind);
    case AwaitCertificateVerify => ReadsDescend(s, CertificateVerifyKind);
    case AwaitFinished => ReadsDescend(s, FinishedKind);
    case _ => OthersDescend(s, content);
  }

  /** Transitions until the state stays the same or one fails: the server then, and whether
      all went well. `write(n)` is the content of message `n`. */
  function Progress(s: Server, write: nat -> nat): (Server, bool)
    decreases Rank(s.state)
  {
    match ServerStep(s, write(s.engine.nextSeqNo))
    case None => (ServerFails(s, write(s.engine.nextSeqNo)), false)
    case Some(s') =>
      StepDescends(s, write(s.engine.nextSeqNo));
      if s'.state == s.state then (s', true) else Progress(s', write)
  }

  // ----- The server as the mutable object it is -----

  class ServerConnection {
    const engine: HandshakeEngine
    const config: ServerConfig
    var state: ServerState
    var clientCertificates: bool
    var pskValid: Option<bool>
    var capturedSessionHash: Option<seq<Message>>
    var localEvents: seq<Event>

    ghost function View(): Server
      reads this, engine
    {
      Server(state, engine.View(), config, clientCertificates, pskValid, capturedSessionHash, localEvents)
    }

    constructor (config: ServerConfig)
      ensures View() == NewServer(config) && fresh(engine)
    {
      engine := new HandshakeEngine();
      this.config := config;
      state := AwaitClientHello;
      clientCertificates := false;
      pskValid := None;
      capturedSessionHash := None;
      localEvents := [];
    }

    /** The state function did what the transition from `before` does, but for the state,
        which the loop sets. */
    ghost predicate Did(before: Server, content: nat, next: Option<ServerState>)
      reads this, engine
    {
      var o := ServerStep(before, content);
      && (next.Some? <==> o.Some?)
      && (o.Some? ==> View().(state := next.value) == o.value)
      && (o.None? ==> View() == ServerFails(before, content))
    }

    method MakeProgress(write: nat -> nat) returns (ok: bool)
      modifies this, engine
      ensures (View(), ok) == Progress(old(View()), write)
    {
      while true
        invariant Progress(View(), write) == Progress(old(View()), write)
        decreases Rank(state)
      {
        ghost var before := View();
        var content := write(engine.nextHandshakeSeqNo);
        var next := StateMakeProgress(content);
        if next.None? {
          return false;
        }
        StepDescends(before, content);
        if next.value == state {
          assert View() == View().(state := next.value);
          return true;
        }
        state := next.value;
      }
    }

    method StateMakeProgress(content: nat) returns (next: Option<ServerState>)
      modifies this, engine
      ensures Did(old(View()), content, next) && state == old(state)
    {
      match state
      case AwaitClientHello => next := DoAwaitClientHello(content);
      case SendServerHello => next := DoSendServerHello(content);
      case SendCertificate =>
        engine.CreateHandshake(CertificateBody(true), content);
        next := Some(SendServerKeyExchange);
      case SendServerKeyExchange => next := DoSendServerKeyExchange(content);
      case SendCertificateRequest =>
        engine.CreateHandshake(CertificateRequestBody(true), content);
        next := Some(SendServerHelloDone);
      case SendServerHelloDone => next := DoSendServerHelloDone(content);
      case AwaitCertificate => next := DoAwaitCertificate(content);
      case AwaitClientKeyExchange => next := DoAwaitClientKeyExchange(content);
      case AwaitCertificateVerify => next := DoAwaitCertificateVerify(content);
      case AwaitChangeCipherSpec => next := DoAwaitChangeCipherSpec(content);
      case AwaitFinished => next := DoAwaitFinished(content);
      case SendChangeCipherSpec =>
        engine.ccsSent := true;
        next := Some(SendFinished);
      case SendFinished => next := DoSendFinished(content);
      case AwaitApplicationData => next := Some(if engine.closeNotifyReceived then Closed else state);
      case Closed => next := Some(state);
    }

    method DoAwaitClientHello(content: nat) returns (next: Option<ServerState>)
      requires state.AwaitClientHello?
      modifies this, engine
      ensures Did(old(View()), content, next) && state == old(state)
    {
      var maybe := engine.NextHandshake(ClientHelloKind);
      if maybe.None? {
        return Some(state);
      }
      var hello := maybe.value.body;
      var cookieValid := !config.useCookie || VerifyCookie(hello.random, hello.cookie);
      if !cookieValid {
        var cookie := ComputeCookie(hello.random);
        engine.CreateHandshake(HelloVerifyRequestBody(cookie), content);
        engine.ResetForHelloVerifyRequest(false);
        return Some(state);
      }
      return Some(SendServerHello);
    }

    method DoSendServerHello(content: nat) returns (next: Option<ServerState>)
      requires state.SendServerHello?
      modifies this, engine
      ensures Did(old(View()), content, next) && state == old(state)
    {
      engine.CreateHandshake(ServerHelloBody(config.psk, true), content);
      return Some(if config.psk then SendServerKeyExchange else SendCertificate);
    }

    method DoSendServerKeyExchange(content: nat) returns (next: Option<ServerState>)
      requires state.SendServerKeyExchange?
      modifies this, engine
      ensures Did(old(View()), content, next) && state == old(state)
    {
      if config.psk && !config.identityHint {
        return Some(SendServerHelloDone);
      }
      engine.CreateHandshake(ServerKeyExchangeBody(!config.psk), content);
      return Some(if !config.psk && config.requireClientCertificate then SendCertificateRequest
                  else SendServerHelloDone);
    }

    method DoSendServerHelloDone(content: nat) returns (next: Option<ServerState>)
      requires state.SendServerHelloDone?
      modifies this, engine
      ensures Did(old(View()), content, next) && state == old(state)
    {
      engine.CreateHandshake(ServerHelloDoneBody, content);
      return Some(if !config.psk && config.requireClientCertificate then AwaitCertificate else AwaitClientKeyExchange);
    }

    method DoAwaitCertificate(content: nat) returns (next: Option<ServerState>)
      requires state.AwaitCertificate?
      modifies this, engine
      ensures Did(old(View()), content, next) && state == old(state)
    {
      var maybe := engine.NextHandshake(CertificateKind);
      if maybe.None? {
        return Some(state);
      }
      clientCertificates := maybe.value.body.present;
      return Some(AwaitClientKeyExchange);
    }

    method DoAwaitClientKeyExchange(content: nat) returns (next: Option<ServerState>)
      requires state.AwaitClientKeyExchange?
      modifies this, engine
      ensures Did(old(View()), content, next) && state == old(state)
    {
      var maybe := engine.NextHandshake(ClientKeyExchangeKind);
      if maybe.None? {
        return Some(state);
      }
      if config.psk {
        pskValid := Some(maybe.value.body.knownIdentity);
      }
      capturedSessionHash := Some(engine.transcript);
      return Some(if clientCertificates then AwaitCertificateVerify else AwaitChangeCipherSpec);
    }

    method DoAwaitCertificateVerify(content: nat) returns (next: Option<ServerState>)
      requires state.AwaitCertificateVerify?
      modifies this, engine
      ensures Did(old(View()), content, next) && state == old(state)
    {
      var data := engine.transcript;
      var maybe := engine.NextHandshake(CertificateVerifyKind);
      if maybe.None? {
        return Some(state);
      }
      return if maybe.value.body.signedData == data then Some(AwaitChangeCipherSpec) else None;
    }

    method DoAwaitChangeCipherSpec(content: nat) returns (next: Option<ServerState>)
      requires state.AwaitChangeCipherSpec?
      modifies this, engine
      ensures Did(old(View()), content, next) && state == old(state)
    {
      var found := engine.NextChangeCipherSpec();
      return Some(if found then AwaitFinished else state);
    }

    method DoAwaitFinished(content: nat) returns (next: Option<ServerState>)
      requires state.AwaitFinished?
      modifies this, engine
      ensures Did(old(View()), content, next) && state == old(state)
    {
      var before := engine.transcript;
      var maybe := engine.NextHandshake(FinishedKind);
      if maybe.None? {
        return Some(state);
      }
      if capturedSessionHash.None?
         || maybe.value.body.verifyData != VerifyData(true, capturedSessionHash.value, before) {
        return None;
      }
      if pskValid == Some(false) {
        return None;
      }
      return Some(SendChangeCipherSpec);
    }

    method DoSendFinished(content: nat) returns (next: Option<ServerState>)
      requires state.SendFinished?
      modifies this, engine
      ensures Did(old(View()), content, next) && state == old(state)
    {
      if capturedSessionHash.None? {
        return None;
      }
      var verifyData := VerifyData(false, capturedSessionHash.value, engine.transcript);
      engine.CreateHandshake(FinishedBody(verifyData), content);
      engine.releaseAppData := true;
      localEvents := localEvents + [Connected];
      return Some(AwaitApplicationData);
    }
  }
}
