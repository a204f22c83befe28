/** The DTLS 1.3 client as the mutable object it is: state functions that change its fields
    and its engine, and the loop that runs them. */
module ClientMachine13 {
  import opened Handshakes
  import opened Records
  import opened SendSide
  import opened Client13
  import opened Engines
  import Gate13
  import F = Fragmentation

  /** A CertificateRequest that is complete is read, and then accepted if it parses. */
  lemma RequestIsRead(c: Connection)
    requires HasComplete(c, CertificateRequest)
    ensures var (body, c') := Read(c);
            && body.CertificateRequestBody? && Refused(c, CertificateRequest) == c'
            && Reads(c, CertificateRequest)
               == if body.parses then Some(Advance(c'.(clientAuthRequested := true), AwaitCertificate)) else None
  {
  }

  class ClientConnection {
    const engine: SendingHalf
    const hasCertificate: bool
    var state: State
    var transcript: seq<Spoken>
    var peerHandshakeSeqNo: nat
    var received: map<nat, Body>
    var helloRetry: bool
    var serverCertificates: bool
    var clientAuthRequested: bool
    var activeKeyExchange: bool
    var handshakeSecret: Option<seq<Spoken>>
    var pendingKeyUpdateResponse: bool
    var closeNotifyReceived: bool
    var localEvents: seq<Event>

    /** What was sent under handshake keys since replaced. */
    ghost var retired: seq<seq<Record>>

    ghost function View(): Connection
      reads this, engine
    {
      Connection(state, engine.State(), transcript, peerHandshakeSeqNo, received, helloRetry, serverCertificates,
                 clientAuthRequested, hasCertificate, activeKeyExchange, handshakeSecret, pendingKeyUpdateResponse,
                 closeNotifyReceived, localEvents, retired)
    }

    constructor (config: Config, hasCertificate: bool)
      ensures View() == NewClient(config, hasCertificate) && fresh(engine)
    {
      engine := new SendingHalf(config, Client);
      this.hasCertificate := hasCertificate;
      state := SendClientHello;
      transcript, peerHandshakeSeqNo, received := [], 0, map[];
      helloRetry, serverCertificates, clientAuthRequested := false, false, false;
      activeKeyExchange, handshakeSecret := false, None;
      pendingKeyUpdateResponse, closeNotifyReceived := false, false;
      localEvents, retired := [], [];
    }

    /** The state function did what the transition from `before` does, but for the state,
        which the loop sets. */
    ghost predicate Did(before: Connection, choice: Choice, next: Option<State>)
      requires F.Progresses(before.snd.config)
      reads this, engine
    {
      Reaches(Step(before, choice), Fails(before, choice), next)
    }

    ghost predicate Reaches(o: Option<Connection>, failed: Connection, next: Option<State>)
      reads this, engine
    {
      if next.Some? then o.Some? && View().(state := next.value) == o.value else o.None? && View() == failed
    }

    /** The state function that waits for `wanted` did what reading it from `before` does. */
    ghost predicate DidRead(before: Connection, wanted: MessageType, next: Option<State>)
      reads this, engine
    {
      Reaches(Reads(before, wanted), Refused(before, wanted), next)
    }

    method MakeProgress(choose: (State, bool) -> Choice) returns (ok: bool)
      requires F.Progresses(engine.config)
      modifies this, engine
      ensures (View(), ok) == Progress(old(View()), choose)
    {
      ghost var goal := Progress(View(), choose);
      var again := true;
      ok := true;
      while again
        invariant again ==> Progress(View(), choose) == goal
        invariant !again ==> (View(), ok) == goal
        decreases again, Retries(View()), Rank(state)
      {
        again, ok := Round(choose, goal);
      }
    }

    /** One round of the loop: a transition, and whether to go on. */
    method Round(choose: (State, bool) -> Choice, ghost goal: (Connection, bool)) returns (again: bool, ok: bool)
      requires F.Progresses(engine.config) && goal == Progress(View(), choose)
      modifies this, engine
      ensures again ==> Progress(View(), choose) == goal && Descends(old(View()), View())
      ensures !again ==> (View(), ok) == goal
    {
      ghost var before := View();
      ghost var o := Step(before, choose(state, helloRetry));
      var next := StateMakeProgress(choose(state, helloRetry));
      assert Reaches(o, Fails(before, choose(before.state, before.helloRetry)), next);
      ProgressRound(before, choose, o);
      if next.None? {
        return false, false;
      }
      again := next.value != state;
      state := next.value;
      ok := true;
      assert Some(View()) == o;
    }

    method StateMakeProgress(choice: Choice) returns (next: Option<State>)
      requires F.Progresses(engine.config)
      modifies this, engine
      ensures Did(old(View()), choice, next) && state == old(state)
    {
      match state
      case SendClientHello => next := DoSendClientHello(choice);
      case AwaitServerHello => next := DoAwaitServerHello(choice);
      case AwaitEncryptedExtensions => next := DoAwaitEncryptedExtensions();
      case AwaitCertificateRequest => next := DoAwaitCertificateRequest();
      case AwaitCertificate => next := DoAwaitCertificate();
      case AwaitCertificateVerify => next := DoAwaitCertificateVerify();
      case AwaitFinished => next := DoAwaitFinished();
      case SendCertificate => next := DoSendCertificate(choice);
      case SendCertificateVerify => next := DoSendCertificateVerify(choice);
      case SendFinished => next := DoSendFinished(choice);
      case AwaitApplicationData => next := DoAwaitApplicationData(choice);
      case HalfClosedLocal => next := DoHalfClosedLocal();
      case Closed => next := Some(state);
    }

    method HasCompleteHandshake(wanted: MessageType) returns (complete: bool)
      ensures complete == HasComplete(View(), wanted)
    {
      complete := peerHandshakeSeqNo in received && TypeOf(received[peerHandshakeSeqNo]) == wanted;
    }

    method NextHandshake(wanted: MessageType) returns (body: Option<Body>)
      modifies this`transcript, this`received
      ensures if HasComplete(old(View()), wanted) then body.Some? && (body.value, View()) == Read(old(View()))
              else body.None? && View() == old(View())
    {
      var complete := HasCompleteHandshake(wanted);
      if !complete {
        return None;
      }
      var next := received[peerHandshakeSeqNo];
      transcript := transcript + [Said(next)];
      received := received - {peerHandshakeSeqNo};
      return Some(next);
    }

    /** Build a message, write it into the transcript, and send it. */
    method CreateHandshake(body: Body, choice: Choice) returns (ok: bool)
      requires F.Progresses(engine.config)
      modifies this`transcript, engine
      ensures ok == Write(old(View()), body, choice, state).Some?
      ensures View() == if ok then Write(old(View()), body, choice, state).value
                        else Unsent(old(View()), body, choice)
    {
      if !choice.built {
        return false;
      }
      transcript := transcript + [Said(body)];
      var failure := engine.CreateHandshake(TypeOf(body), choice.content);
      ok := failure.None?;
    }

    method DoSendClientHello(choice: Choice) returns (next: Option<State>)
      requires F.Progresses(engine.config) && state.SendClientHello?
      modifies this, engine
      ensures Reaches(Greets(old(View()), choice), GreetsNot(old(View()), choice), next) && state == old(state)
    {
      engine.FlightBegin();
      if !choice.begins {
        return None;
      }
      activeKeyExchange := true;
      var ok := CreateHandshake(ClientHelloBody(helloRetry), choice);
      next := if ok then Some(AwaitServerHello) else None;
    }

    /** Handshake keys from the transcript so far, in the place of any there were. */
    method InstallHandshakeKeys()
      modifies this`activeKeyExchange, this`handshakeSecret, this`retired, engine
      ensures View() == Install(old(View()))
    {
      activeKeyExchange := false;
      handshakeSecret := Some(transcript);
      if engine.hsSendKeys.Some? {
        retired, engine.sent := retired + [engine.sent], [];
      }
      engine.InstallHandshakeSendKeys();
    }

    method DoAwaitServerHello(choice: Choice) returns (next: Option<State>)
      requires state.AwaitServerHello?
      modifies this, engine
      ensures Reaches(Greeted(old(View()), choice.reparses), GreetingFails(old(View())), next) && state == old(state)
    {
      var before := transcript;
      var maybe := NextHandshake(ServerHello);
      if maybe.None? {
        return Some(state);
      }
      next := DoAnswer(maybe.value, before, choice.reparses);
    }

    method DoAnswer(hello: Body, before: seq<Spoken>, reparses: bool) returns (next: Option<State>)
      requires state.AwaitServerHello? && hello.ServerHelloBody?
      modifies this, engine
      ensures Reaches(Answers(old(View()), hello, before, reparses), AnswerFails(old(View()), hello), next)
      ensures state == old(state)
    {
      if hello.retryRequest && helloRetry {
        transcript := before;
        return Some(state);
      }
      if !hello.acceptable {
        return None;
      }
      if hello.retryRequest {
        DoRetry(hello, before);
        return Some(SendClientHello);
      }
      next := DoExchange(hello, reparses);
    }

    method DoExchange(hello: Body, reparses: bool) returns (next: Option<State>)
      requires hello.ServerHelloBody?
      modifies this, engine
      ensures Reaches(Exchanged(old(View()), hello, reparses), ExchangeFails(old(View()), hello), next)
      ensures state == old(state)
    {
      if !activeKeyExchange {
        return None;
      }
      activeKeyExchange := false;
      if !hello.completes {
        return None;
      }
      InstallHandshakeKeys();
      if !reparses {
        return None;
      }
      peerHandshakeSeqNo := peerHandshakeSeqNo + 1;
      return Some(AwaitEncryptedExtensions);
    }

    method DoRetry(hello: Body, before: seq<Spoken>)
      modifies this, engine
      ensures View().(state := SendClientHello) == Retried(old(View()), before, hello) && state == old(state)
    {
      transcript := [MessageHash(before), Said(hello)];
      peerHandshakeSeqNo := peerHandshakeSeqNo + 1;
      engine.ResetHandshakeSequence();
      helloRetry := true;
      activeKeyExchange := false;
    }

    method DoAwaitEncryptedExtensions() returns (next: Option<State>)
      requires state.AwaitEncryptedExtensions?
      modifies this, engine
      ensures DidRead(old(View()), EncryptedExtensions, next) && state == old(state)
    {
      var maybe := NextHandshake(EncryptedExtensions);
      if maybe.None? {
        return Some(state);
      }
      peerHandshakeSeqNo := peerHandshakeSeqNo + 1;
      return Some(AwaitCertificateRequest);
    }

    method DoAwaitCertificateRequest() returns (next: Option<State>)
      requires state.AwaitCertificateRequest?
      modifies this, engine
      ensures Reaches(ReadsRequest(old(View())), RequestFails(old(View())), next) && state == old(state)
    {
      var hasCert := HasCompleteHandshake(Certificate);
      if hasCert {
        return Some(AwaitCertificate);
      }
      next := DoReadRequest();
    }

    method DoReadRequest() returns (next: Option<State>)
      requires state.AwaitCertificateRequest?
      modifies this, engine
      ensures DidRead(old(View()), CertificateRequest, next) && state == old(state)
    {
      if HasComplete(View(), CertificateRequest) {
        RequestIsRead(View());
      }
      var maybe := NextHandshake(CertificateRequest);
      if maybe.None? {
        return Some(state);
      }
      if !maybe.value.parses {
        return None;
      }
      clientAuthRequested := true;
      peerHandshakeSeqNo := peerHandshakeSeqNo + 1;
      return Some(AwaitCertificate);
    }

    method DoAwaitCertificate() returns (next: Option<State>)
      requires state.AwaitCertificate?
      modifies this, engine
      ensures DidRead(old(View()), Certificate, next) && state == old(state)
    {
      var maybe := NextHandshake(Certificate);
      if maybe.None? {
        return Some(state);
      }
      if !maybe.value.present {
        return None;
      }
      serverCertificates := true;
      localEvents := localEvents + [PeerCert];
      peerHandshakeSeqNo := peerHandshakeSeqNo + 1;
      return Some(AwaitCertificateVerify);
    }

    method DoAwaitCertificateVerify() returns (next: Option<State>)
      requires state.AwaitCertificateVerify?
      modifies this, engine
      ensures DidRead(old(View()), CertificateVerify, next) && state == old(state)
    {
      var transcriptBefore := transcript;
      var maybe := NextHandshake(CertificateVerify);
      if maybe.None? {
        return Some(state);
      }
      if !serverCertificates || maybe.value.signed != transcriptBefore {
        return None;
      }
      peerHandshakeSeqNo := peerHandshakeSeqNo + 1;
      return Some(AwaitFinished);
    }

    method DoAwaitFinished() returns (next: Option<State>)
      requires state.AwaitFinished?
      modifies this, engine
      ensures DidRead(old(View()), Finished, next) && state == old(state)
    {
      var transcriptBefore := transcript;
      var maybe := NextHandshake(Finished);
      if maybe.None? {
        return Some(state);
      }
      var finished := maybe.value;
      if finished.byClient || handshakeSecret != Some(finished.secret) || finished.over != transcriptBefore {
        return None;
      }
      peerHandshakeSeqNo := peerHandshakeSeqNo + 1;
      engine.InstallApplicationSendKeys();
      return Some(if clientAuthRequested then SendCertificate else SendFinished);
    }

    method DoSendCertificate(choice: Choice) returns (next: Option<State>)
      requires F.Progresses(engine.config) && state.SendCertificate?
      modifies this, engine
      ensures Reaches(Certify(old(View()), choice), CertifyFails(old(View()), choice), next) && state == old(state)
    {
      engine.FlightBegin();
      var ok := CreateHandshake(CertificateBody(hasCertificate), choice);
      next := if !ok then None else if hasCertificate then Some(SendCertificateVerify) else Some(SendFinished);
    }

    method DoSendCertificateVerify(choice: Choice) returns (next: Option<State>)
      requires F.Progresses(engine.config) && state.SendCertificateVerify?
      modifies this, engine
      ensures Did(old(View()), choice, next) && state == old(state)
    {
      var ok := CreateHandshake(CertificateVerifyBody(transcript), choice);
      next := if ok then Some(SendFinished) else None;
    }

    method DoSendFinished(choice: Choice) returns (next: Option<State>)
      requires F.Progresses(engine.config) && state.SendFinished?
      modifies this, engine
      ensures Reaches(Finish(old(View()), choice), FinishFails(old(View()), choice), next)
      ensures state == old(state)
    {
      BeginLastFlight();
      next := Conclude(choice);
    }

    method BeginLastFlight()
      modifies engine
      ensures View() == LastFlight(old(View()))
    {
      if !clientAuthRequested {
        engine.FlightBegin();
      }
    }

    method Conclude(choice: Choice) returns (next: Option<State>)
      requires F.Progresses(engine.config)
      modifies this, engine
      ensures Reaches(Concludes(old(View()), choice), ConcludeFails(old(View()), choice), next)
      ensures state == old(state)
    {
      if handshakeSecret.None? {
        return None;
      }
      var ok := CreateHandshake(FinishedBody(true, handshakeSecret.value, transcript), choice);
      if !ok {
        return None;
      }
      localEvents := localEvents + [Connected];
      return Some(AwaitApplicationData);
    }

    method DoAwaitApplicationData(choice: Choice) returns (next: Option<State>)
      requires F.Progresses(engine.config) && state.AwaitApplicationData?
      modifies this, engine
      ensures Did(old(View()), choice, next) && state == old(state)
    {
      var failure := SendDue(choice);
      if failure.Some? {
        return None;
      }
      pendingKeyUpdateResponse := false;
      var ok := ReadIncomingKeyUpdate(choice.numbers);
      next := if ok then Some(state) else None;
    }

    method SendDue(choice: Choice) returns (failure: Option<Failure>)
      modifies engine
      ensures Outcome(engine.State(), failure) == Sends(old(engine.State()), pendingKeyUpdateResponse, choice)
    {
      if choice.keyUpdateDue && engine.prevAppSendKeys.None? {
        failure := engine.CreateKeyUpdate(1);
        if failure.Some? {
          return;
        }
      }
      failure := SendQueued(engine.appSendEpoch, choice.data);
      if failure.None? && pendingKeyUpdateResponse {
        failure := engine.CreateKeyUpdate(0);
      }
    }

    method SendQueued(epoch: nat, data: seq<seq<nat>>) returns (failure: Option<Failure>)
      modifies engine
      ensures Outcome(engine.State(), failure) == SendAll(old(engine.State()), epoch, data)
    {
      ghost var start := engine.State();
      assert data[0..] == data;
      for i := 0 to |data|
        invariant SendAll(start, epoch, data) == SendAll(engine.State(), epoch, data[i..])
      {
        assert data[i..][0] == data[i] && data[i..][1..] == data[i + 1..];
        failure := engine.CreateCiphertextRecord(epoch, false, AppData(data[i]));
        if failure.Some? {
          return;
        }
      }
      return None;
    }

    method ReadIncomingKeyUpdate(numbers: seq<Number>) returns (ok: bool)
      modifies this, engine
      ensures ok == ReadKeyUpdate(old(View()), numbers).Some? && state == old(state)
      ensures View() == if ok then ReadKeyUpdate(old(View()), numbers).value else ReadFails(old(View()), numbers)
    {
      var has := HasCompleteHandshake(KeyUpdate);
      if !has {
        return true;
      }
      var update := received[peerHandshakeSeqNo];
      received := received - {peerHandshakeSeqNo};
      if numbers != [] {
        var failure := engine.CreateCiphertextRecord(engine.appSendEpoch, false, AckData(EncodeAck(numbers)));
        if failure.Some? {
          return false;
        }
      }
      pendingKeyUpdateResponse := update.requested;
      peerHandshakeSeqNo := peerHandshakeSeqNo + 1;
      return true;
    }

    method DoHalfClosedLocal() returns (next: Option<State>)
      requires state.HalfClosedLocal?
      modifies this, engine
      ensures Reaches(Drain(old(View())), old(View()), next) && state == old(state)
    {
      SkipKeyUpdate();
      next := Some(if closeNotifyReceived then Closed else state);
    }

    method SkipKeyUpdate()
      modifies this`received, this`peerHandshakeSeqNo
      ensures View() == Skipped(old(View()))
    {
      var has := HasCompleteHandshake(KeyUpdate);
      if has {
        received := received - {peerHandshakeSeqNo};
        peerHandshakeSeqNo := peerHandshakeSeqNo + 1;
      }
    }

    /** Say goodbye once connected, and otherwise give up; the error leaves the client as it was,
        but for what sending does before it fails. */
    method Close() returns (ok: bool)
      modifies this, engine
      ensures View() == Gate13.Closing(old(View()))
      ensures ok <==> !(old(state).AwaitApplicationData? && state == old(state))
    {
      if state.Closed? || state.HalfClosedLocal? {
        return true;
      }
      if !state.AwaitApplicationData? {
        engine.Abort();
        state := Closed;
        return true;
      }
      var failure := engine.CreateCiphertextRecord(engine.appSendEpoch, false, CloseNotify);
      if failure.Some? {
        return false;
      }
      engine.CancelFlights();
      state := HalfClosedLocal;
      return true;
    }
  }
}
