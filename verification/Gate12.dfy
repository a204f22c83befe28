/** When DTLS 1.2 sides report a connection: at most once, after the peer's Finished was
    checked, whatever messages arrive. */
module Gate12 {
  import opened Handshakes
  import opened Messages12
  import C = Client12
  import S = Server12

  /** Anything may arrive, in any order, from anyone, and any transition may fail: `Fail` is
      one that ends in an error although the checks made here would pass, `Unbuilt` one whose
      message cannot be built. */
  datatype Input =
    | Move(content: nat)
    | Fail(content: nat)
    | Unbuilt
    | Deliver(message: Message)
    | CipherSpec
    | Close

  function Receive(e: Engine, input: Input): Engine
    requires !input.Move? && !input.Fail? && !input.Unbuilt?
  {
    match input
    case Deliver(m) => Arrive(e, m)
    case CipherSpec => e.(ccsPending := true)
    case Close => e.(closeNotify := true)
  }

  predicate OneConnected(events: seq<Event>) {
    forall i, j :: 0 <= i < j < |events| ==> !(events[i].Connected? && events[j].Connected?)
  }

  // ----- The client -----

  /** Where a transition leads, in success or failure. */
  function After(c: C.Client, content: nat): C.Client {
    if C.ClientStep(c, content).Some? then C.ClientStep(c, content).value else C.ClientFails(c, content)
  }

  function ClientTakes(c: C.Client, input: Input): C.Client {
    match input
    case Move(content) => After(c, content)
    case Fail(content) => C.ClientFails(c, content)
    case Unbuilt => c
    case _ => c.(engine := Receive(c.engine, input))
  }

  /** A run goes on after an error, with what the error left behind. */
  function ClientRun(c: C.Client, inputs: seq<Input>): C.Client
    decreases |inputs|
  {
    if inputs == [] then c else ClientRun(ClientTakes(c, inputs[0]), inputs[1..])
  }

  predicate ReadsFlight(state: C.ClientState) {
    state.AwaitServerHello? || state.AwaitCertificate? || state.AwaitServerKeyExchange?
  }

  predicate Connecting(state: C.ClientState) {
    !state.AwaitApplicationData? && !state.Closed?
  }

  ghost predicate SignatureChecked(transcript: seq<Message>) {
    exists m :: m in transcript && m.body == ServerKeyExchangeBody(true)
  }

  /** The last message read is the server's Finished, over everything before it. */
  ghost predicate ServerFinishedChecked(c: C.Client) {
    var t := c.engine.transcript;
    && t != [] && c.sessionHash.Some?
    && t[|t| - 1].body == FinishedBody(VerifyData(false, c.sessionHash.value, t[..|t| - 1]))
  }

  ghost predicate ClientGated(c: C.Client) {
    && C.CookieOnce(c)
    && (if Connecting(c.state) then forall e :: e in c.events ==> !e.Connected?
        else Connected in c.events && OneConnected(c.events) && ServerFinishedChecked(c))
    && (!Hello(c.state) && !ReadsFlight(c.state) && !c.psk ==> SignatureChecked(c.engine.transcript))
  }

  predicate Hello(state: C.ClientState) {
    state.SendClientHello? || state.AwaitHelloVerifyRequest?
  }

  lemma SignatureStays(before: seq<Message>, after: seq<Message>)
    requires SignatureChecked(before) && before <= after
    ensures SignatureChecked(after)
  {
    var m :| m in before && m.body == ServerKeyExchangeBody(true);
    assert m in after;
  }

  predicate Wants(state: C.ClientState, wanted: Kind) {
    match state
    case AwaitServerHello => wanted == ServerHelloKind
    case AwaitCertificate => wanted == CertificateKind
    case AwaitServerKeyExchange => wanted == ServerKeyExchangeKind
    case AwaitCertificateRequest => wanted == CertificateRequestKind
    case AwaitServerHelloDone => wanted == ServerHelloDoneKind
    case AwaitNewSessionTicket => wanted == NewSessionTicketKind
    case AwaitFinished => wanted == FinishedKind
    case _ => false
  }

  lemma ClientFinishGated(c: C.Client)
    requires ClientGated(c) && c.state.AwaitFinished? && C.ClientReads(c, FinishedKind).Some?
    ensures ClientGated(C.ClientReads(c, FinishedKind).value)
  {
    if HasComplete(c.engine, FinishedKind) {
      var (m, e) := Read(c.engine);
      assert e.transcript[..|e.transcript| - 1] == c.engine.transcript;
      if SignatureChecked(c.engine.transcript) {
        SignatureStays(c.engine.transcript, e.transcript);
      }
    }
  }

  lemma ClientSignatureGated(c: C.Client)
    requires ClientGated(c) && c.state.AwaitServerKeyExchange? && C.ClientReads(c, ServerKeyExchangeKind).Some?
    ensures ClientGated(C.ClientReads(c, ServerKeyExchangeKind).value)
  {
    if HasComplete(c.engine, ServerKeyExchangeKind) {
      var (m, e) := Read(c.engine);
      assert m in e.transcript;
    }
  }

  /** Until the Finished, a message accepted reports no connection, and leads out of the
      server's flight only past the signature. */
  predicate Approaches(c: C.Client, c': C.Client) {
    && c'.engine == c.engine && (c'.events == c.events || c'.events == c.events + [PeerCert])
    && Connecting(c'.state) && !Hello(c'.state) && !c'.state.AwaitHelloVerifyRequest?
    && (ReadsFlight(c'.state) || (!ReadsFlight(c.state) && c'.psk == c.psk))
  }

  lemma AcceptApproaches(c: C.Client, m: Message, before: seq<Message>)
    requires Wants(c.state, KindOf(m.body)) && C.ClientAccepts(c, m, before).Some?
    requires !m.body.FinishedBody? && !m.body.ServerKeyExchangeBody?
    ensures Approaches(c, C.ClientAccepts(c, m, before).value)
  {
    match m.body
    case ServerHelloBody(psk, acceptable) =>
    case CertificateBody(present) =>
    case CertificateRequestBody(supported) =>
    case ServerHelloDoneBody =>
      if !c.psk {
      }
    case NewSessionTicketBody =>
  }

  lemma ApproachGated(c: C.Client, c': C.Client)
    requires ClientGated(c) && Connecting(c.state) && !Hello(c.state) && Approaches(c.(engine := c'.engine), c')
    requires c.engine.transcript <= c'.engine.transcript
    ensures ClientGated(c')
  {
    if SignatureChecked(c.engine.transcript) {
      SignatureStays(c.engine.transcript, c'.engine.transcript);
    }
  }

  lemma ClientReadGated(c: C.Client, wanted: Kind)
    requires ClientGated(c) && Wants(c.state, wanted) && C.ClientReads(c, wanted).Some?
    requires wanted != FinishedKind && wanted != ServerKeyExchangeKind
    ensures ClientGated(C.ClientReads(c, wanted).value)
  {
    if HasComplete(c.engine, wanted) {
      var (m, e) := Read(c.engine);
      AcceptApproaches(c.(engine := e), m, c.engine.transcript);
      ApproachGated(c, C.ClientReads(c, wanted).value);
    }
  }

  lemma ClientWriteGated(c: C.Client, content: nat)
    requires ClientGated(c) && C.ClientStep(c, content).Some?
    requires c.state.SendCertificate? || c.state.SendClientKeyExchange? || c.state.SendCertificateVerify?
             || c.state.SendChangeCipherSpec? || c.state.SendFinished?
    ensures ClientGated(C.ClientStep(c, content).value)
  {
    if SignatureChecked(c.engine.transcript) {
      SignatureStays(c.engine.transcript, C.ClientStep(c, content).value.engine.transcript);
    }
  }

  lemma ClientOtherGated(c: C.Client, content: nat)
    requires ClientGated(c) && C.ClientStep(c, content).Some?
    requires Hello(c.state) || c.state.AwaitChangeCipherSpec? || c.state.AwaitApplicationData? || c.state.Closed?
    ensures ClientGated(C.ClientStep(c, content).value)
  {
    if c.state.AwaitHelloVerifyRequest? {
      C.CookieDescends(c);
    } else {
      C.OthersDescend(c, content);
    }
  }

  lemma ClientStepGated(c: C.Client, content: nat)
    requires ClientGated(c) && C.ClientStep(c, content).Some?
    ensures ClientGated(C.ClientStep(c, content).value)
  {
    match c.state
    case AwaitServerHello => ClientReadGated(c, ServerHelloKind);
    case AwaitCertificate => ClientReadGated(c, CertificateKind);
    case AwaitServerKeyExchange =>
      if !(c.psk && HasComplete(c.engine, ServerHelloDoneKind)) {
        ClientSignatureGated(c);
      }
    case AwaitCertificateRequest =>
      if !HasComplete(c.engine, ServerHelloDoneKind) {
        ClientReadGated(c, CertificateRequestKind);
      }
    case AwaitServerHelloDone => ClientReadGated(c, ServerHelloDoneKind);
    case AwaitNewSessionTicket =>
      if !HasComplete(c.engine, FinishedKind) {
        ClientReadGated(c, NewSessionTicketKind);
      }
    case AwaitFinished => ClientFinishGated(c);
    case SendCertificate => ClientWriteGated(c, content);
    case SendClientKeyExchange => ClientWriteGated(c, content);
    case SendCertificateVerify => ClientWriteGated(c, content);
    case SendChangeCipherSpec => ClientWriteGated(c, content);
    case SendFinished => ClientWriteGated(c, content);
    case _ => ClientOtherGated(c, content);
  }

  lemma ClientRefusedGated(c: C.Client, wanted: Kind)
    requires ClientGated(c) && Connecting(c.state)
    ensures ClientGated(C.Refused(c, wanted))
  {
    if HasComplete(c.engine, wanted) && SignatureChecked(c.engine.transcript) {
      SignatureStays(c.engine.transcript, Read(c.engine).1.transcript);
    }
  }

  lemma ClientUnsentGated(c: C.Client, body: Body, content: nat)
    requires ClientGated(c) && Connecting(c.state)
    ensures ClientGated(c.(engine := Create(c.engine, body, content)))
  {
    if SignatureChecked(c.engine.transcript) {
      SignatureStays(c.engine.transcript, Create(c.engine, body, content).transcript);
    }
  }

  /** An error leaves the client where it was: nothing passes for a check. */
  lemma ClientFailGated(c: C.Client, content: nat)
    requires ClientGated(c)
    ensures ClientGated(C.ClientFails(c, content)) && C.ClientFails(c, content).state == c.state
    ensures C.ClientFails(c, content).cookie == c.cookie
  {
    match c.state
    case SendClientHello => ClientUnsentGated(c, ClientHelloBody(c.random, c.cookie), content);
    case SendCertificate => ClientUnsentGated(c, CertificateBody(c.hasCertificate), content);
    case SendClientKeyExchange => ClientUnsentGated(c, ClientKeyExchangeBody(content % 2 == 0), content);
    case SendCertificateVerify => ClientUnsentGated(c, CertificateVerifyBody(c.engine.transcript), content);
    case SendFinished =>
      if c.sessionHash.Some? {
        ClientUnsentGated(c, FinishedBody(VerifyData(true, c.sessionHash.value, c.engine.transcript)), content);
      }
    case AwaitHelloVerifyRequest => ClientRefusedGated(c, HelloVerifyRequestKind);
    case AwaitServerHello => ClientRefusedGated(c, ServerHelloKind);
    case AwaitCertificate => ClientRefusedGated(c, CertificateKind);
    case AwaitServerKeyExchange => ClientRefusedGated(c, ServerKeyExchangeKind);
    case AwaitCertificateRequest => ClientRefusedGated(c, CertificateRequestKind);
    case AwaitServerHelloDone => ClientRefusedGated(c, ServerHelloDoneKind);
    case AwaitNewSessionTicket => ClientRefusedGated(c, NewSessionTicketKind);
    case AwaitFinished => ClientRefusedGated(c, FinishedKind);
    case _ =>
  }

  lemma ClientTakeGated(c: C.Client, input: Input)
    requires ClientGated(c)
    ensures ClientGated(ClientTakes(c, input))
  {
    match input
    case Move(content) =>
      if C.ClientStep(c, content).Some? {
        ClientStepGated(c, content);
      } else {
        ClientFailGated(c, content);
      }
    case Fail(content) => ClientFailGated(c, content);
    case _ =>
  }

  lemma {:induction false} ClientRunGated(c: C.Client, inputs: seq<Input>)
    requires ClientGated(c)
    ensures ClientGated(ClientRun(c, inputs))
    decreases |inputs|
  {
    if inputs != [] {
      ClientTakeGated(c, inputs[0]);
      ClientRunGated(ClientTakes(c, inputs[0]), inputs[1..]);
    }
  }

  /** Whatever arrives and whatever fails, a client reports a connection at most once, and then it has read a
      Finished over its own transcript and session hash, and, unless the suite is a PSK
      one, a ServerKeyExchange whose signature verified. */
  lemma ClientConnectedChecked(random: nat, hasCertificate: bool, hybrid: Option<nat>, inputs: seq<Input>)
    ensures var c := ClientRun(if hybrid.Some? then C.NewFromHybrid(random, hasCertificate, hybrid.value)
                               else C.NewClient(random, hasCertificate), inputs);
            && OneConnected(c.events)
            && (Connected in c.events ==>
                  ServerFinishedChecked(c) && (!c.psk ==> SignatureChecked(c.engine.transcript)))
  {
    ClientRunGated(if hybrid.Some? then C.NewFromHybrid(random, hasCertificate, hybrid.value)
                   else C.NewClient(random, hasCertificate), inputs);
  }

  /** How often a run goes back to sending a ClientHello. */
  function BackEdges(c: C.Client, inputs: seq<Input>): nat
    decreases |inputs|
  {
    if inputs == [] then 0
    else
      var c' := ClientTakes(c, inputs[0]);
      (if !c.state.SendClientHello? && c'.state.SendClientHello? then 1 else 0) + BackEdges(c', inputs[1..])
  }

  lemma OneBack(c: C.Client, input: Input)
    requires C.CookieOnce(c)
    ensures var c' := ClientTakes(c, input);
            && C.CookieOnce(c') && C.Retries(c') <= C.Retries(c)
            && (!c.state.SendClientHello? && c'.state.SendClientHello? ==> C.Retries(c') < C.Retries(c))
  {
    match input
    case Move(content) => MoveOnce(c, content);
    case Fail(content) => FailStays(c, content);
    case _ =>
  }

  lemma MoveOnce(c: C.Client, content: nat)
    requires C.CookieOnce(c)
    ensures var c' := After(c, content);
            && C.CookieOnce(c') && (C.Stays(c, c') || C.Descends(c, c'))
  {
    if C.ClientStep(c, content).Some? {
      C.StepDescends(c, content);
    } else {
      FailStays(c, content);
    }
  }

  lemma FailStays(c: C.Client, content: nat)
    ensures var c' := C.ClientFails(c, content); c'.state == c.state && c'.cookie == c.cookie
  {
  }

  /** At most once per connection, and never once a cookie is known. */
  lemma {:induction false} BackEdgeOnce(c: C.Client, inputs: seq<Input>)
    requires C.CookieOnce(c)
    ensures BackEdges(c, inputs) <= C.Retries(c)
    decreases |inputs|
  {
    if inputs != [] {
      OneBack(c, inputs[0]);
      BackEdgeOnce(ClientTakes(c, inputs[0]), inputs[1..]);
    }
  }

  // ----- The server -----

  function ServerTakes(s: S.Server, input: Input): S.Server {
    match input
    case Move(content) =>
      if S.ServerStep(s, content).Some? then S.ServerStep(s, content).value else S.ServerFails(s, content)
    case Fail(content) => S.ServerFails(s, content)
    case Unbuilt => S.ServerUnbuilt(s)
    case _ => s.(engine := Receive(s.engine, input))
  }

  /** A run goes on after an error, with what the error left behind. */
  function ServerRun(s: S.Server, inputs: seq<Input>): S.Server
    decreases |inputs|
  {
    if inputs == [] then s else ServerRun(ServerTakes(s, inputs[0]), inputs[1..])
  }

  /** Message `i` of the transcript is the client's Finished, over everything before it, and
      only Finished messages of the server's own follow. */
  ghost predicate ClientFinishedAt(t: seq<Message>, hash: seq<Message>, i: nat) {
    && i < |t|
    && t[i].body == FinishedBody(VerifyData(true, hash, t[..i]))
    && forall j :: i < j < |t| ==> OwnFinished(t[j])
  }

  predicate OwnFinished(m: Message) {
    m.body.FinishedBody? && !m.body.verifyData.byClient
  }

  predicate OwnFinishedLast(t: seq<Message>) {
    t != [] && OwnFinished(t[|t| - 1])
  }

  ghost predicate ClientFinishedChecked(s: S.Server) {
    s.sessionHash.Some? && exists i: nat :: ClientFinishedAt(s.engine.transcript, s.sessionHash.value, i)
  }

  /** A CertificateVerify over everything before it. */
  ghost predicate VerifyChecked(transcript: seq<Message>) {
    exists i :: 0 <= i < |transcript| && transcript[i].body == CertificateVerifyBody(transcript[..i])
  }

  predicate ReadsClient(state: S.ServerState) {
    state.AwaitCertificate? || state.AwaitClientKeyExchange? || state.AwaitCertificateVerify?
  }

  predicate Writes(state: S.ServerState) {
    state.AwaitClientHello? || state.SendServerHello? || state.SendCertificate? || state.SendServerKeyExchange?
    || state.SendCertificateRequest? || state.SendServerHelloDone?
  }

  predicate Finishing(state: S.ServerState) {
    state.SendChangeCipherSpec? || state.SendFinished? || state.AwaitApplicationData? || state.Closed?
  }

  ghost predicate ServerGated(s: S.Server) {
    && (if s.state.AwaitApplicationData? || s.state.Closed? then
          Connected in s.events && OneConnected(s.events) && OwnFinishedLast(s.engine.transcript)
        else forall e :: e in s.events ==> !e.Connected?)
    && (Finishing(s.state) ==> ClientFinishedChecked(s) && s.pskValid != Some(false))
    && (Writes(s.state) || s.state.AwaitCertificate? ==> !s.clientCertificates)
    && (!Writes(s.state) && !ReadsClient(s.state) && s.clientCertificates ==> VerifyChecked(s.engine.transcript))
  }

  lemma VerifyStays(before: seq<Message>, after: seq<Message>)
    requires VerifyChecked(before) && before <= after
    ensures VerifyChecked(after)
  {
    var i :| 0 <= i < |before| && before[i].body == CertificateVerifyBody(before[..i]);
    assert after[i] == before[i] && after[..i] == before[..i];
  }

  lemma ReadExtends(e: Engine)
    requires e.peerSeqNo in e.received
    ensures var (m, e') := Read(e);
            var n := |e.transcript|;
            e'.transcript == e.transcript + [m] && e'.transcript[n] == m && e'.transcript[..n] == e.transcript
    ensures VerifyChecked(e.transcript) ==> VerifyChecked(Read(e).1.transcript)
  {
    if VerifyChecked(e.transcript) {
      VerifyStays(e.transcript, Read(e).1.transcript);
    }
  }

  lemma ServerReadGated(s: S.Server, wanted: Kind)
    requires ServerGated(s) && S.ServerReads(s, wanted).Some?
    requires (s.state.AwaitCertificate? && wanted == CertificateKind)
             || (s.state.AwaitClientKeyExchange? && wanted == ClientKeyExchangeKind)
    ensures ServerGated(S.ServerReads(s, wanted).value)
  {
  }

  lemma ServerVerifyGated(s: S.Server)
    requires ServerGated(s) && s.state.AwaitCertificateVerify? && S.ServerReads(s, CertificateVerifyKind).Some?
    ensures ServerGated(S.ServerReads(s, CertificateVerifyKind).value)
  {
    if HasComplete(s.engine, CertificateVerifyKind) {
      ReadExtends(s.engine);
      assert VerifyChecked(Read(s.engine).1.transcript);
    }
  }

  lemma ServerChecksFinished(s: S.Server)
    requires ServerGated(s) && s.state.AwaitFinished? && S.ServerReads(s, FinishedKind).Some?
    ensures ServerGated(S.ServerReads(s, FinishedKind).value)
  {
    if HasComplete(s.engine, FinishedKind) {
      ReadExtends(s.engine);
      var t' := Read(s.engine).1.transcript;
      var n := |s.engine.transcript|;
      assert ClientFinishedAt(t', s.sessionHash.value, n);
    }
  }

  lemma ServerWritesGated(s: S.Server, content: nat)
    requires ServerGated(s) && S.ServerStep(s, content).Some? && Writes(s.state)
    ensures ServerGated(S.ServerStep(s, content).value)
  {
    WritingLeaves(s, content);
  }

  /** While it writes its flight, or answers with a cookie, a server only moves on. */
  lemma WritingLeaves(s: S.Server, content: nat)
    requires S.ServerStep(s, content).Some? && Writes(s.state)
    ensures var s' := S.ServerStep(s, content).value;
            && s'.events == s.events && s'.clientCertificates == s.clientCertificates
            && (Writes(s'.state) || s'.state.AwaitCertificate? || s'.state.AwaitClientKeyExchange?)
  {
  }

  lemma ServerOtherGated(s: S.Server, content: nat)
    requires ServerGated(s) && S.ServerStep(s, content).Some?
    requires s.state.AwaitChangeCipherSpec? || s.state.SendChangeCipherSpec?
             || s.state.AwaitApplicationData? || s.state.Closed?
    ensures ServerGated(S.ServerStep(s, content).value)
  {
  }

  /** The server's own Finished adds to the transcript what may follow the client's. */
  lemma OwnFinishedFollows(s: S.Server, content: nat)
    requires ServerGated(s) && s.state.SendFinished? && s.sessionHash.Some?
    ensures var own := VerifyData(false, s.sessionHash.value, s.engine.transcript);
            var s' := S.Unsent(s, FinishedBody(own), content);
            ClientFinishedChecked(s') && (VerifyChecked(s.engine.transcript) ==> VerifyChecked(s'.engine.transcript))
  {
    var own := VerifyData(false, s.sessionHash.value, s.engine.transcript);
    var t, t' := s.engine.transcript, S.Unsent(s, FinishedBody(own), content).engine.transcript;
    var i: nat :| ClientFinishedAt(t, s.sessionHash.value, i);
    assert t'[..i] == t[..i] && t'[i] == t[i];
    assert ClientFinishedAt(t', s.sessionHash.value, i);
    if VerifyChecked(t) {
      VerifyStays(t, t');
    }
  }

  lemma ServerFinishGated(s: S.Server, content: nat)
    requires ServerGated(s) && s.state.SendFinished? && S.ServerStep(s, content).Some?
    ensures ServerGated(S.ServerStep(s, content).value)
  {
    OwnFinishedFollows(s, content);
  }

  lemma ServerStepGated(s: S.Server, content: nat)
    requires ServerGated(s) && S.ServerStep(s, content).Some?
    ensures ServerGated(S.ServerStep(s, content).value)
  {
    match s.state
    case AwaitCertificate => ServerReadGated(s, CertificateKind);
    case AwaitClientKeyExchange => ServerReadGated(s, ClientKeyExchangeKind);
    case AwaitCertificateVerify => ServerVerifyGated(s);
    case AwaitFinished => ServerChecksFinished(s);
    case SendFinished => ServerFinishGated(s, content);
    case AwaitChangeCipherSpec => ServerOtherGated(s, content);
    case SendChangeCipherSpec => ServerOtherGated(s, content);
    case AwaitApplicationData => ServerOtherGated(s, content);
    case Closed => ServerOtherGated(s, content);
    case _ => ServerWritesGated(s, content);
  }

  lemma ServerRefusedGated(s: S.Server, wanted: Kind)
    requires ServerGated(s) && !Finishing(s.state)
    ensures ServerGated(S.Refused(s, wanted))
  {
    if HasComplete(s.engine, wanted) {
      ReadExtends(s.engine);
    }
  }

  lemma WritingFails(s: S.Server, content: nat)
    requires Writes(s.state)
    ensures var s' := S.ServerFails(s, content);
            s'.state == s.state && s'.events == s.events && s'.clientCertificates == s.clientCertificates
  {
  }

  /** An error leaves the server where it was: nothing passes for a check. */
  lemma ServerFailGated(s: S.Server, content: nat)
    requires ServerGated(s)
    ensures ServerGated(S.ServerFails(s, content))
  {
    match s.state
    case AwaitCertificate => ServerRefusedGated(s, CertificateKind);
    case AwaitClientKeyExchange => ServerRefusedGated(s, ClientKeyExchangeKind);
    case AwaitCertificateVerify => ServerRefusedGated(s, CertificateVerifyKind);
    case AwaitFinished => ServerRefusedGated(s, FinishedKind);
    case SendFinished =>
      if s.sessionHash.Some? {
        OwnFinishedFollows(s, content);
      }
    case AwaitChangeCipherSpec =>
    case SendChangeCipherSpec =>
    case AwaitApplicationData =>
    case Closed =>
    case _ => WritingFails(s, content);
  }

  lemma ServerTakeGated(s: S.Server, input: Input)
    requires ServerGated(s)
    ensures ServerGated(ServerTakes(s, input))
  {
    match input
    case Move(content) =>
      if S.ServerStep(s, content).Some? {
        ServerStepGated(s, content);
      } else {
        ServerFailGated(s, content);
      }
    case Fail(content) => ServerFailGated(s, content);
    case Unbuilt =>
      if s.state.AwaitClientHello? {
        ServerRefusedGated(s, ClientHelloKind);
      }
    case _ =>
  }

  lemma {:induction false} ServerRunGated(s: S.Server, inputs: seq<Input>)
    requires ServerGated(s)
    ensures ServerGated(ServerRun(s, inputs))
    decreases |inputs|
  {
    if inputs != [] {
      ServerTakeGated(s, inputs[0]);
      ServerRunGated(ServerTakes(s, inputs[0]), inputs[1..]);
    }
  }

  /** Whatever arrives and whatever fails, a server reports a connection at most once, and
      then its transcript holds the client's Finished over everything before it, followed by
      nothing but its own, sent by then; a client that sent certificates has signed that transcript too,
      and an unknown PSK identity never gets this far. */
  lemma ServerConnectedChecked(config: S.ServerConfig, inputs: seq<Input>)
    ensures var s := ServerRun(S.NewServer(config), inputs);
            && OneConnected(s.events)
            && (Connected in s.events ==>
                  && ClientFinishedChecked(s) && OwnFinishedLast(s.engine.transcript) && s.pskValid != Some(false)
                  && (s.clientCertificates ==> VerifyChecked(s.engine.transcript)))
  {
    ServerRunGated(S.NewServer(config), inputs);
  }
}
