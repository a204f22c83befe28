/** The DTLS 1.2 client, one state function at a time. */
module Client12 {
  import opened Handshakes
  import opened Messages12

  datatype ClientState =
    | SendClientHello
    | AwaitHelloVerifyRequest
    | AwaitServerHello
    | AwaitCertificate
    | AwaitServerKeyExchange
    | AwaitCertificateRequest
    | AwaitServerHelloDone
    | SendCertificate
    | SendClientKeyExchange
    | SendCertificateVerify
    | SendChangeCipherSpec
    | SendFinished
    | AwaitChangeCipherSpec
    | AwaitNewSessionTicket
    | AwaitFinished
    | AwaitApplicationData
    | Closed

  datatype Client = Client(
    state: ClientState,
    engine: Engine,
    random: nat,
    cookie: Option<nat>,
    psk: bool,
    serverCertificates: bool,
    certificateVerify: bool,
    hasCertificate: bool,
    sessionHash: Option<seq<Message>>,
    events: seq<Event>)

  function NewClient(random: nat, hasCertificate: bool): Client {
    Client(SendClientHello, NEW_ENGINE, random, None, false, false, false, hasCertificate, None, [])
  }

  /** A client taking over after a hybrid ClientHello was sent elsewhere: that message is
      in its transcript, and its own numbering starts behind it. */
  function NewFromHybrid(random: nat, hasCertificate: bool, content: nat): Client {
    var hello := Message(0, ClientHelloBody(random, None), content);
    NewClient(random, hasCertificate).(
      state := AwaitHelloVerifyRequest,
      engine := NEW_ENGINE.(transcript := [hello], nextSeqNo := 1, sent := [hello]))
  }

  /** Where a transition leads; nothing when it ends the connection with an error. */
  type ClientOutcome = Option<Client>

  function ClientSends(c: Client, body: Body, content: nat, state: ClientState): Client {
    c.(engine := Create(c.engine, body, content), state := state)
  }

  function ClientStep(c: Client, content: nat): ClientOutcome {
    var e := c.engine;
    match c.state
    case SendClientHello =>
      Some(ClientSends(c, ClientHelloBody(c.random, c.cookie), content,
                       if c.cookie.None? then AwaitHelloVerifyRequest else AwaitServerHello))
    case AwaitHelloVerifyRequest => Some(ClientAwaitsCookie(c))
    case AwaitServerHello => ClientReads(c, ServerHelloKind)
    case AwaitCertificate => ClientReads(c, CertificateKind)
    case AwaitServerKeyExchange =>
      if c.psk && HasComplete(e, ServerHelloDoneKind) then Some(c.(state := AwaitServerHelloDone))
      else ClientReads(c, ServerKeyExchangeKind)
    case AwaitCertificateRequest =>
      if HasComplete(e, ServerHelloDoneKind) then Some(c.(state := AwaitServerHelloDone))
      else ClientReads(c, CertificateRequestKind)
    case AwaitServerHelloDone => ClientReads(c, ServerHelloDoneKind)
    case SendCertificate => Some(ClientSends(c, CertificateBody(c.hasCertificate), content, SendClientKeyExchange))
    case SendClientKeyExchange =>
      var c' := ClientSends(c, ClientKeyExchangeBody(content % 2 == 0), content,
                            if c.certificateVerify then SendCertificateVerify else SendChangeCipherSpec);
      Some(c'.(sessionHash := Some(c'.engine.transcript)))
    case SendCertificateVerify =>
      Some(ClientSends(c, CertificateVerifyBody(e.transcript), content, SendChangeCipherSpec))
    case SendChangeCipherSpec =>
      if c.sessionHash.None? then None else Some(c.(engine := e.(ccsSent := true), state := SendFinished))
    case SendFinished =>
      if c.sessionHash.None? then None
      else
        Some(ClientSends(c, FinishedBody(VerifyData(true, c.sessionHash.value, e.transcript)), content,
                         AwaitChangeCipherSpec))
    case AwaitChangeCipherSpec =>
      if !e.ccsPending then Some(c)
      else Some(c.(engine := e.(ccsPending := false, peerEncrypted := true), state := AwaitNewSessionTicket))
    case AwaitNewSessionTicket =>
      if HasComplete(e, FinishedKind) then Some(c.(state := AwaitFinished))
      else ClientReads(c, NewSessionTicketKind)
    case AwaitFinished => ClientReads(c, FinishedKind)
    case AwaitApplicationData => if e.closeNotify then Some(c.(state := Closed)) else Some(c)
    case Closed => Some(c)
  }

  /** A server may ask for a cookie, or do without one. */
  function ClientAwaitsCookie(c: Client): Client {
    if HasComplete(c.engine, ServerHelloKind) then c.(state := AwaitServerHello)
    else if !HasComplete(c.engine, HelloVerifyRequestKind) then c
    else
      var (m, e) := Read(c.engine);
      c.(engine := ResetClientForHelloVerifyRequest(e), cookie := Some(m.body.issued), state := SendClientHello)
  }

  /** Read the message this state waits for, if it has come. */
  function ClientReads(c: Client, wanted: Kind): ClientOutcome {
    if !HasComplete(c.engine, wanted) then Some(c)
    else
      var (m, e) := Read(c.engine);
      ClientAccepts(c.(engine := e), m, c.engine.transcript)
  }

  /** What the client makes of it; `before` is the transcript without it. */
  function ClientAccepts(c: Client, m: Message, before: seq<Message>): ClientOutcome {
    match m.body
    case ServerHelloBody(psk, acceptable) =>
      if !acceptable then None
      else Some(c.(psk := psk, state := if psk then AwaitServerKeyExchange else AwaitCertificate))
    case CertificateBody(present) =>
      if !present then None else Some(c.(serverCertificates := true, state := AwaitServerKeyExchange))
    case ServerKeyExchangeBody(verifies) =>
      if c.psk then Some(c.(state := AwaitServerHelloDone))
      else if !verifies then None
      else Some(c.(state := AwaitCertificateRequest))
    case CertificateRequestBody(supported) =>
      if !supported then None else Some(c.(certificateVerify := true, state := AwaitServerHelloDone))
    case ServerHelloDoneBody =>
      if c.psk then Some(c.(state := SendClientKeyExchange))
      else if !c.serverCertificates then None
      else Some(c.(events := c.events + [PeerCert],
                   state := if c.certificateVerify then SendCertificate else SendClientKeyExchange))
    case NewSessionTicketBody => Some(c.(state := AwaitFinished))
    case FinishedBody(verifyData) =>
      if c.sessionHash.None? || verifyData != VerifyData(false, c.sessionHash.value, before) then None
      else
        Some(c.(engine := c.engine.(released := true), events := c.events + [Connected], state := AwaitApplicationData))
    case _ => None
  }

  /** A message read only to be refused. */
  function Refused(c: Client, wanted: Kind): Client {
    if HasComplete(c.engine, wanted) then c.(engine := Read(c.engine).1) else c
  }

  /** What a transition that ends in an error leaves behind: a message read stays read and
      hashed, one being written stays hashed and numbered, and the state is the old one.  One
      whose body cannot even be built leaves no trace, and the client as it was. */
  function ClientFails(c: Client, content: nat): Client {
    var e := c.engine;
    match c.state
    case SendClientHello => c.(engine := Create(e, ClientHelloBody(c.random, c.cookie), content))
    case AwaitHelloVerifyRequest => if HasComplete(e, ServerHelloKind) then c else Refused(c, HelloVerifyRequestKind)
    case AwaitServerHello => Refused(c, ServerHelloKind)
    case AwaitCertificate => Refused(c, CertificateKind)
    case AwaitServerKeyExchange =>
      if c.psk && HasComplete(e, ServerHelloDoneKind) then c else Refused(c, ServerKeyExchangeKind)
    case AwaitCertificateRequest =>
      if HasComplete(e, ServerHelloDoneKind) then c else Refused(c, CertificateRequestKind)
    case AwaitServerHelloDone => Refused(c, ServerHelloDoneKind)
    case SendCertificate => c.(engine := Create(e, CertificateBody(c.hasCertificate), content))
    case SendClientKeyExchange => c.(engine := Create(e, ClientKeyExchangeBody(content % 2 == 0), content))
    case SendCertificateVerify => c.(engine := Create(e, CertificateVerifyBody(e.transcript), content))
    case SendChangeCipherSpec => c
    case SendFinished =>
      if c.sessionHash.None? then c
      else c.(engine := Create(e, FinishedBody(VerifyData(true, c.sessionHash.value, e.transcript)), content))
    case AwaitChangeCipherSpec =>
      if e.ccsPending then c.(engine := e.(ccsPending := false, peerEncrypted := true)) else c
    case AwaitNewSessionTicket => if HasComplete(e, FinishedKind) then c else Refused(c, NewSessionTicketKind)
    case AwaitFinished => Refused(c, FinishedKind)
    case AwaitApplicationData => c
    case Closed => c
  }

  // ----- The progress loop -----

  /** States still ahead; the one edge backwards is taken before any cookie is known. */
  function Rank(state: ClientState): nat {
    match state
    case SendClientHello => 16
    case AwaitHelloVerifyRequest => 15
    case AwaitServerHello => 14
    case AwaitCertificate => 13
    case AwaitServerKeyExchange => 12
    case AwaitCertificateRequest => 11
    case AwaitServerHelloDone => 10
    case SendCertificate => 9
    case SendClientKeyExchange => 8
    case SendCertificateVerify => 7
    case SendChangeCipherSpec => 6
    case SendFinished => 5
    case AwaitChangeCipherSpec => 4
    case AwaitNewSessionTicket => 3
    case AwaitFinished => 2
    case AwaitApplicationData => 1
    case Closed => 0
  }

  function Retries(c: Client): nat {
    if c.cookie.None? then 1 else 0
  }

  /** What a client keeps: it waits for a HelloVerifyRequest only without a cookie. */
  predicate CookieOnce(c: Client) {
    c.state.AwaitHelloVerifyRequest? ==> c.cookie.None?
  }

  predicate Descends(c: Client, c': Client) {
    Retries(c') < Retries(c) || (Retries(c') == Retries(c) && Rank(c'.state) < Rank(c.state))
  }

  predicate Stays(c: Client, c': Client) {
    c'.state == c.state && c'.cookie == c.cookie
  }

  lemma ReadsDescend(c: Client, wanted: Kind)
    requires match c.state
             case AwaitServerHello => wanted == ServerHelloKind
             case AwaitCertificate => wanted == CertificateKind
             case AwaitServerKeyExchange => wanted == ServerKeyExchangeKind
             case AwaitCertificateRequest => wanted == CertificateRequestKind
             case AwaitServerHelloDone => wanted == ServerHelloDoneKind
             case AwaitNewSessionTicket => wanted == NewSessionTicketKind
             case AwaitFinished => wanted == FinishedKind
             case _ => false
    requires ClientReads(c, wanted).Some?
    ensures var c' := ClientReads(c, wanted).value;
            c'.cookie == c.cookie && CookieOnce(c') && (c'.state == c.state || Rank(c'.state) < Rank(c.state))
  {
  }

  lemma OthersDescend(c: Client, content: nat)
    requires CookieOnce(c) && ClientStep(c, content).Some?
    requires c.state.SendClientHello? || c.state.SendCertificate? || c.state.SendClientKeyExchange?
             || c.state.SendCertificateVerify? || c.state.SendChangeCipherSpec? || c.state.SendFinished?
             || c.state.AwaitChangeCipherSpec? || c.state.AwaitApplicationData? || c.state.Closed?
    ensures var c' := ClientStep(c, content).value;
            c'.cookie == c.cookie && CookieOnce(c') && (c'.state == c.state || Rank(c'.state) < Rank(c.state))
  {
  }

  /** The one edge backwards spends the retry. */
  lemma CookieDescends(c: Client)
    requires c.state.AwaitHelloVerifyRequest? && CookieOnce(c)
    ensures var c' := ClientAwaitsCookie(c);
            && CookieOnce(c') && (Stays(c, c') || Descends(c, c'))
            && c'.events == c.events && c'.psk == c.psk && c'.sessionHash == c.sessionHash
            && (c'.state.AwaitHelloVerifyRequest? || c'.state.AwaitServerHello? || c'.state.SendClientHello?)
  {
    if HasComplete(c.engine, ServerHelloKind) {
    } else if !HasComplete(c.engine, HelloVerifyRequestKind) {
    } else {
    }
  }

  /** Every transition out of a state descends: first the retry, then the states ahead. */
  lemma StepDescends(c: Client, content: nat)
    requires CookieOnce(c) && ClientStep(c, content).Some?
    ensures var c' := ClientStep(c, content).value;
            CookieOnce(c') && (Stays(c, c') || Descends(c, c'))
  {
    match c.state
    case AwaitHelloVerifyRequest => CookieDescends(c);
    case AwaitServerHello => ReadsDescend(c, ServerHelloKind);
    case AwaitCertificate => ReadsDescend(c, CertificateKind);
    case AwaitServerKeyExchange =>
      if !(c.psk && HasComplete(c.engine, ServerHelloDoneKind)) {
        ReadsDescend(c, ServerKeyExchangeKind);
      }
    case AwaitCertificateRequest =>
      if !HasComplete(c.engine, ServerHelloDoneKind) {
        ReadsDescend(c, CertificateRequestKind);
      }
    case AwaitServerHelloDone => ReadsDescend(c, ServerHelloDoneKind);
    case AwaitNewSessionTicket =>
      if !HasComplete(c.engine, FinishedKind) {
        ReadsDescend(c, NewSessionTicketKind);
      }
    case AwaitFinished => ReadsDescend(c, FinishedKind);
    case _ => OthersDescend(c, content);
  }

  /** Transitions until the state stays the same or one fails: the client then, and whether
      all went well. `write(n)` is the content of message `n`. */
  function Progress(c: Client, write: nat -> nat): (Client, bool)
    requires CookieOnce(c)
    decreases Retries(c), Rank(c.state)
  {
    match ClientStep(c, write(c.engine.nextSeqNo))
    case None => (ClientFails(c, write(c.engine.nextSeqNo)), false)
    case Some(c') =>
      StepDescends(c, write(c.engine.nextSeqNo));
      if c'.state == c.state then (c', true) else Progress(c', write)
  }

  // ----- The client as the mutable object it is -----

  class ClientConnection {
    const engine: HandshakeEngine
    const random: nat
    const hasCertificate: bool
    var state: ClientState
    var cookie: Option<nat>
    var psk: bool
    var serverCertificates: bool
    var certificateVerify: bool
    var capturedSessionHash: Option<seq<Message>>
    var localEvents: seq<Event>

    ghost function View(): Client
      reads this, engine
    {
      Client(state, engine.View(), random, cookie, psk, serverCertificates, certificateVerify, hasCertificate,
             capturedSessionHash, localEvents)
    }

    constructor (random: nat, hasCertificate: bool)
      ensures View() == NewClient(random, hasCertificate) && fresh(engine)
    {
      engine := new HandshakeEngine();
      this.random := random;
      this.hasCertificate := hasCertificate;
      state := SendClientHello;
      cookie := None;
      psk, serverCertificates, certificateVerify := false, false, false;
      capturedSessionHash := None;
      localEvents := [];
    }

    constructor FromHybrid(random: nat, hasCertificate: bool, content: nat)
      ensures View() == NewFromHybrid(random, hasCertificate, content) && fresh(engine)
    {
      engine := new HandshakeEngine();
      this.random := random;
      this.hasCertificate := hasCertificate;
      state := AwaitHelloVerifyRequest;
      cookie := None;
      psk, serverCertificates, certificateVerify := false, false, false;
      capturedSessionHash := None;
      localEvents := [];
      new;
      engine.nextHandshakeSeqNo := 1;
      engine.transcript := [Message(0, ClientHelloBody(random, None), content)];
      engine.sent := engine.transcript;
    }

    /** The state function did what the transition from `before` does, but for the state,
        which the loop sets. */
    ghost predicate Did(before: Client, content: nat, next: Option<ClientState>)
      reads this, engine
    {
      var o := ClientStep(before, content);
      && (next.Some? <==> o.Some?)
      && (o.Some? ==> View().(state := next.value) == o.value)
      && (o.None? ==> View() == ClientFails(before, content))
    }

    method MakeProgress(write: nat -> nat) returns (ok: bool)
      requires CookieOnce(View())
      modifies this, engine
      ensures (View(), ok) == Progress(old(View()), write)
    {
      while true
        invariant CookieOnce(View()) && Progress(View(), write) == Progress(old(View()), write)
        decreases Retries(View()), Rank(state)
      {
        ghost var before := View();
        var content := write(engine.nextHandshakeSeqNo);
        var next := StateMakeProgress(content);
        if next.None? {
          return false;
        }
        StepDescends(before, content);
        if next.value == state {
          assert View() == View().(state := next.value);
          return true;
        }
        state := next.value;
      }
    }

    method StateMakeProgress(content: nat) returns (next: Option<ClientState>)
      modifies this, engine
      ensures Did(old(View()), content, next) && state == old(state)
    {
      match state
      case SendClientHello => next := DoSendClientHello(content);
      case AwaitHelloVerifyRequest => next := DoAwaitHelloVerifyRequest(content);
      case AwaitServerHello => next := DoAwaitServerHello(content);
      case AwaitCertificate => next := DoAwaitCertificate(content);
      case AwaitServerKeyExchange => next := DoAwaitServerKeyExchange(content);
      case AwaitCertificateRequest => next := DoAwaitCertificateRequest(content);
      case AwaitServerHelloDone => next := DoAwaitServerHelloDone(content);
      case SendCertificate =>
        engine.CreateHandshake(CertificateBody(hasCertificate), content);
        next := Some(SendClientKeyExchange);
      case SendClientKeyExchange => next := DoSendClientKeyExchange(content);
      case SendCertificateVerify =>
        engine.CreateHandshake(CertificateVerifyBody(engine.transcript), content);
        next := Some(SendChangeCipherSpec);
      case SendChangeCipherSpec => next := DoSendChangeCipherSpec(content);
      case SendFinished => next := DoSendFinished(content);
      case AwaitChangeCipherSpec => next := DoAwaitChangeCipherSpec(content);
      case AwaitNewSessionTicket => next := DoAwaitNewSessionTicket(content);
      case AwaitFinished => next := DoAwaitFinished(content);
      case AwaitApplicationData => next := Some(if engine.closeNotifyReceived then Closed else state);
      case Closed => next := Some(state);
    }

    method DoSendClientHello(content: nat) returns (next: Option<ClientState>)
      requires state.SendClientHello?
      modifies this, engine
      ensures Did(old(View()), content, next) && state == old(state)
    {
      engine.CreateHandshake(ClientHelloBody(random, cookie), content);
      next := Some(if cookie.None? then AwaitHelloVerifyRequest else AwaitServerHello);
    }

    method DoAwaitHelloVerifyRequest(content: nat) returns (next: Option<ClientState>)
      requires state.AwaitHelloVerifyRequest?
      modifies this, engine
      ensures Did(old(View()), content, next) && state == old(state)
    {
      var hasHello := engine.HasCompleteHandshake(ServerHelloKind);
      if hasHello {
        return Some(AwaitServerHello);
      }
      var maybe := engine.NextHandshake(HelloVerifyRequestKind);
      if maybe.None? {
        return Some(state);
      }
      cookie := Some(maybe.value.body.issued);
      engine.ResetForHelloVerifyRequest(true);
      return Some(SendClientHello);
    }

    method DoAwaitServerHello(content: nat) returns (next: Option<ClientState>)
      requires state.AwaitServerHello?
      modifies this, engine
      ensures Did(old(View()), content, next) && state == old(state)
    {
      var maybe := engine.NextHandshake(ServerHelloKind);
      if maybe.None? {
        return Some(state);
      }
      if !maybe.value.body.acceptable {
        return None;
      }
      psk := maybe.value.body.psk;
      return Some(if psk then AwaitServerKeyExchange else AwaitCertificate);
    }

    method DoAwaitCertificate(content: nat) returns (next: Option<ClientState>)
      requires state.AwaitCertificate?
      modifies this, engine
      ensures Did(old(View()), content, next) && state == old(state)
    {
      var maybe := engine.NextHandshake(CertificateKind);
      if maybe.None? {
        return Some(state);
      }
      if !maybe.value.body.present {
        return None;
      }
      serverCertificates := true;
      return Some(AwaitServerKeyExchange);
    }

    method DoAwaitServerKeyExchange(content: nat) returns (next: Option<ClientState>)
      requires state.AwaitServerKeyExchange?
      modifies this, engine
      ensures Did(old(View()), content, next) && state == old(state)
    {
      if psk {
        var hasDone := engine.HasCompleteHandshake(ServerHelloDoneKind);
        if hasDone {
          return Some(AwaitServerHelloDone);
        }
      }
      var maybe := engine.NextHandshake(ServerKeyExchangeKind);
      if maybe.None? {
        return Some(state);
      }
      if psk {
        return Some(AwaitServerHelloDone);
      }
      return if maybe.value.body.verifies then Some(AwaitCertificateRequest) else None;
    }

    method DoAwaitCertificateRequest(content: nat) returns (next: Option<ClientState>)
      requires state.AwaitCertificateRequest?
      modifies this, engine
      ensures Did(old(View()), content, next) && state == old(state)
    {
      var hasDone := engine.HasCompleteHandshake(ServerHelloDoneKind);
      if hasDone {
        return Some(AwaitServerHelloDone);
      }
      var maybe := engine.NextHandshake(CertificateRequestKind);
      if maybe.None? {
        return Some(state);
      }
      if !maybe.value.body.supported {
        return None;
      }
      certificateVerify := true;
      return Some(AwaitServerHelloDone);
    }

    method DoAwaitServerHelloDone(content: nat) returns (next: Option<ClientState>)
      requires state.AwaitServerHelloDone?
      modifies this, engine
      ensures Did(old(View()), content, next) && state == old(state)
    {
      var maybe := engine.NextHandshake(ServerHelloDoneKind);
      if maybe.None? {
        return Some(state);
      }
      if psk {
        return Some(SendClientKeyExchange);
      }
      if !serverCertificates {
        return None;
      }
      localEvents := localEvents + [PeerCert];
      return Some(if certificateVerify then SendCertificate else SendClientKeyExchange);
    }

    method DoSendClientKeyExchange(content: nat) returns (next: Option<ClientState>)
      requires state.SendClientKeyExchange?
      modifies this, engine
      ensures Did(old(View()), content, next) && state == old(state)
    {
      engine.CreateHandshake(ClientKeyExchangeBody(content % 2 == 0), content);
      capturedSessionHash := Some(engine.transcript);
      return Some(if certificateVerify then SendCertificateVerify else SendChangeCipherSpec);
    }

    method DoSendChangeCipherSpec(content: nat) returns (next: Option<ClientState>)
      requires state.SendChangeCipherSpec?
      modifies this, engine
      ensures Did(old(View()), content, next) && state == old(state)
    {
      if capturedSessionHash.None? {
        return None;
      }
      engine.ccsSent := true;
      return Some(SendFinished);
    }

    method DoSendFinished(content: nat) returns (next: Option<ClientState>)
      requires state.SendFinished?
      modifies this, engine
      ensures Did(old(View()), content, next) && state == old(state)
    {
      if capturedSessionHash.None? {
        return None;
      }
      var verifyData := VerifyData(true, capturedSessionHash.value, engine.transcript);
      engine.CreateHandshake(FinishedBody(verifyData), content);
      return Some(AwaitChangeCipherSpec);
    }

    method DoAwaitChangeCipherSpec(content: nat) returns (next: Option<ClientState>)
      requires state.AwaitChangeCipherSpec?
      modifies this, engine
      ensures Did(old(View()), content, next) && state == old(state)
    {
      var found := engine.NextChangeCipherSpec();
      return Some(if found then AwaitNewSessionTicket else state);
    }

    method DoAwaitNewSessionTicket(content: nat) returns (next: Option<ClientState>)
      requires state.AwaitNewSessionTicket?
      modifies this, engine
      ensures Did(old(View()), content, next) && state == old(state)
    {
      var hasFinished := engine.HasCompleteHandshake(FinishedKind);
      if hasFinished {
        return Some(AwaitFinished);
      }
      var maybe := engine.NextHandshake(NewSessionTicketKind);
      return Some(if maybe.None? then state else AwaitFinished);
    }

    method DoAwaitFinished(content: nat) returns (next: Option<ClientState>)
      requires state.AwaitFinished?
      modifies this, engine
      ensures Did(old(View()), content, next) && state == old(state)
    {
      var before := engine.transcript;
      var maybe := engine.NextHandshake(FinishedKind);
      if maybe.None? {
        return Some(state);
      }
      if capturedSessionHash.None?
         || maybe.value.body.verifyData != VerifyData(false, capturedSessionHash.value, before) {
        return None;
      }
      localEvents := localEvents + [Connected];
      engine.releaseAppData := true;
      return Some(AwaitApplicationData);
    }
  }
}
