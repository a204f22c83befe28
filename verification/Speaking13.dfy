/** What the DTLS 1.3 client itself says: its last flight in every run, whatever fails in it. */
module Speaking13 {
  import opened Handshakes
  import opened Records
  import opened SendSide
  import opened Client13
  import opened Gate13
  import F = Fragmentation

  /** A transcript from the server's Finished at `k` on: Certificates up to `m`, each CertificateVerify
      from there to `n` over all before it, and each Finished behind them over all before it. */
  ghost predicate Speech(t: seq<Spoken>, k: nat, m: nat, n: nat, hasCertificate: bool, secret: seq<Spoken>) {
    && k < m <= n <= |t|
    && (forall i :: k < i < m ==> t[i] == Said(CertificateBody(hasCertificate)))
    && (forall i :: m <= i < n ==> t[i] == Said(CertificateVerifyBody(t[..i])))
    && forall i :: n <= i < |t| ==> t[i] == Said(FinishedBody(true, secret, t[..i]))
  }

  lemma EarlierPrefix(t: seq<Spoken>, x: Spoken, i: nat)
    requires i <= |t|
    ensures (t + [x])[..i] == t[..i]
  {
  }

  lemma AnotherCertificate(t: seq<Spoken>, k: nat, hasCertificate: bool, secret: seq<Spoken>)
    requires Speech(t, k, |t|, |t|, hasCertificate, secret)
    ensures var u := t + [Said(CertificateBody(hasCertificate))]; Speech(u, k, |u|, |u|, hasCertificate, secret)
  {
  }

  lemma AnotherVerify(t: seq<Spoken>, k: nat, m: nat, hasCertificate: bool, secret: seq<Spoken>)
    requires Speech(t, k, m, |t|, hasCertificate, secret)
    ensures var u := t + [Said(CertificateVerifyBody(t))]; Speech(u, k, m, |u|, hasCertificate, secret)
  {
    var x := Said(CertificateVerifyBody(t));
    forall i | m <= i < |t| + 1
      ensures (t + [x])[..i] == t[..i]
    {
      EarlierPrefix(t, x, i);
    }
    assert t[..|t|] == t;
  }

  lemma AnotherFinished(t: seq<Spoken>, k: nat, m: nat, n: nat, hasCertificate: bool, secret: seq<Spoken>)
    requires Speech(t, k, m, n, hasCertificate, secret)
    ensures Speech(t + [Said(FinishedBody(true, secret, t))], k, m, n, hasCertificate, secret)
  {
    var x := Said(FinishedBody(true, secret, t));
    forall i | m <= i < |t| + 1
      ensures (t + [x])[..i] == t[..i]
    {
      EarlierPrefix(t, x, i);
    }
    assert t[..|t|] == t;
  }

  lemma FinishedStays(t: seq<Spoken>, x: Spoken, secret: seq<Spoken>, k: nat)
    requires FinishedAt(t, secret, k)
    ensures FinishedAt(t + [x], secret, k)
  {
    EarlierPrefix(t, x, k);
  }

  // ----- The last flight -----

  predicate Speaking(state: State) {
    state.SendCertificate? || state.SendCertificateVerify? || state.SendFinished?
  }

  /** The messages of the last flight that have been sent whole. */
  function Sent(c: Connection): nat {
    match c.state
    case SendCertificate => 0
    case SendCertificateVerify => 1
    case SendFinished => Expected(c) - 1
    case _ => Expected(c)
  }

  /** A Finished, and before it a Certificate if the server has asked for one, and a
      CertificateVerify if there is one to show. */
  function Expected(c: Connection): (n: nat)
    ensures n >= 1
  {
    if !c.clientAuthRequested then 1 else if c.hasCertificate then 3 else 2
  }

  /** `spoiled` counts the entries left by sends that failed. */
  ghost predicate Spoke(c: Connection, k: nat, m: nat, n: nat, spoiled: nat) {
    && c.handshakeSecret.Some? && FinishedAt(c.transcript, c.handshakeSecret.value, k)
    && Speech(c.transcript, k, m, n, c.hasCertificate, c.handshakeSecret.value)
    && |c.transcript| == k + 1 + Sent(c) + spoiled
    && (c.clientAuthRequested ==> Said(CertificateRequestBody(true)) in c.transcript[..k])
    && match c.state
       case SendCertificate => c.clientAuthRequested && m == n == |c.transcript|
       case SendCertificateVerify => c.clientAuthRequested && c.hasCertificate && m > k + 1 && n == |c.transcript|
       case _ =>
         && (m > k + 1 <==> c.clientAuthRequested)
         && (n > m <==> c.clientAuthRequested && c.hasCertificate)
         && (!c.state.SendFinished? ==> n < |c.transcript|)
  }

  /** The client knows of a request for its certificate only from an accepted CertificateRequest. */
  predicate Asked(c: Connection) {
    c.clientAuthRequested ==> !BeforeRequest(c.state) && Said(CertificateRequestBody(true)) in c.transcript
  }

  predicate BeforeRequest(state: State) {
    BeforeKeys(state) || state.AwaitEncryptedExtensions? || state.AwaitCertificateRequest?
  }

  ghost predicate Spoken(c: Connection, spoiled: nat) {
    exists k: nat, m: nat, n: nat :: Spoke(c, k, m, n, spoiled)
  }

  ghost predicate Speaks(c: Connection, spoiled: nat) {
    && (BeforeApplication(c.state) ==> spoiled == 0 && Asked(c))
    && (Speaking(c.state) || Connected in c.events ==> Spoken(c, spoiled))
  }

  /** What a transition of the last flight leaves alone. */
  predicate SameTerms(c: Connection, c': Connection) {
    && c'.clientAuthRequested == c.clientAuthRequested && c'.hasCertificate == c.hasCertificate
    && c'.handshakeSecret == c.handshakeSecret
  }

  /** `body` has been said, and `state` reached. */
  predicate SaidOnly(c: Connection, c': Connection, body: Body, state: State) {
    SameTerms(c, c') && c'.state == state && c'.transcript == c.transcript + [Said(body)]
  }

  /** A failed send has left its entry, if its body could be built at all. */
  predicate MayHaveSaid(c: Connection, c': Connection, body: Body, built: bool) {
    if built then SaidOnly(c, c', body, c.state)
    else SameTerms(c, c') && c'.state == c.state && c'.transcript == c.transcript
  }

  lemma WriteShape(c: Connection, body: Body, choice: Choice, state: State)
    requires F.Progresses(c.snd.config) && Write(c, body, choice, state).Some?
    ensures SaidOnly(c, Write(c, body, choice, state).value, body, state)
  {
  }

  lemma UnsentShape(c: Connection, body: Body, choice: Choice)
    requires F.Progresses(c.snd.config)
    ensures MayHaveSaid(c, Unsent(c, body, choice), body, choice.built)
  {
  }

  function One(built: bool): nat {
    if built then 1 else 0
  }

  lemma CertificateSaid(c: Connection, c': Connection, spoiled: nat, spoiled': nat)
    requires c.state.SendCertificate? && Spoken(c, spoiled)
    requires || (SaidOnly(c, c', CertificateBody(c.hasCertificate), c.state) && spoiled' == spoiled + 1)
             || (SaidOnly(c, c', CertificateBody(c.hasCertificate), AfterCertificate(c)) && spoiled' == spoiled)
    ensures Spoken(c', spoiled')
  {
    var k: nat, m: nat, n: nat :| Spoke(c, k, m, n, spoiled);
    AnotherCertificate(c.transcript, k, c.hasCertificate, c.handshakeSecret.value);
    FinishedStays(c.transcript, Said(CertificateBody(c.hasCertificate)), c.handshakeSecret.value, k);
    EarlierPrefix(c.transcript, Said(CertificateBody(c.hasCertificate)), k);
    assert Spoke(c', k, |c'.transcript|, |c'.transcript|, spoiled');
  }

  function AfterCertificate(c: Connection): State {
    if c.hasCertificate then SendCertificateVerify else SendFinished
  }

  lemma VerifySaid(c: Connection, c': Connection, spoiled: nat, spoiled': nat)
    requires c.state.SendCertificateVerify? && Spoken(c, spoiled)
    requires || (SaidOnly(c, c', CertificateVerifyBody(c.transcript), c.state) && spoiled' == spoiled + 1)
             || (SaidOnly(c, c', CertificateVerifyBody(c.transcript), SendFinished) && spoiled' == spoiled)
    ensures Spoken(c', spoiled')
  {
    var k: nat, m: nat, n: nat :| Spoke(c, k, m, n, spoiled);
    AnotherVerify(c.transcript, k, m, c.hasCertificate, c.handshakeSecret.value);
    FinishedStays(c.transcript, Said(CertificateVerifyBody(c.transcript)), c.handshakeSecret.value, k);
    EarlierPrefix(c.transcript, Said(CertificateVerifyBody(c.transcript)), k);
    assert Spoke(c', k, m, |c'.transcript|, spoiled');
  }

  lemma FinishedSaid(c: Connection, c': Connection, spoiled: nat, spoiled': nat)
    requires c.state.SendFinished? && Spoken(c, spoiled) && c.handshakeSecret.Some?
    requires var body := FinishedBody(true, c.handshakeSecret.value, c.transcript);
             || (SaidOnly(c, c', body, c.state) && spoiled' == spoiled + 1)
             || (SaidOnly(c, c', body, AwaitApplicationData) && spoiled' == spoiled)
    ensures Spoken(c', spoiled')
  {
    var k: nat, m: nat, n: nat :| Spoke(c, k, m, n, spoiled);
    var secret := c.handshakeSecret.value;
    AnotherFinished(c.transcript, k, m, n, c.hasCertificate, secret);
    FinishedStays(c.transcript, Said(FinishedBody(true, secret, c.transcript)), secret, k);
    EarlierPrefix(c.transcript, Said(FinishedBody(true, secret, c.transcript)), k);
    assert Spoke(c', k, m, n, spoiled');
  }

  /** Where only the sending half may differ, the same has been said. */
  lemma SameSpoken(c: Connection, c': Connection, spoiled: nat)
    requires Spoken(c, spoiled) && SameTerms(c, c') && c'.transcript == c.transcript
    requires c'.state == c.state || (!Speaking(c.state) && !Speaking(c'.state))
    ensures Spoken(c', spoiled)
  {
    var k: nat, m: nat, n: nat :| Spoke(c, k, m, n, spoiled);
    assert Spoke(c', k, m, n, spoiled);
  }

  lemma CertifyWrites(c: Connection, choice: Choice, spoiled: nat)
    requires F.Progresses(c.snd.config) && c.state.SendCertificate? && Spoken(c, spoiled) && Certify(c, choice).Some?
    ensures Spoken(Certify(c, choice).value, spoiled)
  {
    WriteShape(NewFlight(c), CertificateBody(c.hasCertificate), choice, AfterCertificate(c));
    CertificateSaid(c, Certify(c, choice).value, spoiled, spoiled);
  }

  lemma {:induction false} CertifySpoils(c: Connection, choice: Choice, spoiled: nat)
    requires F.Progresses(c.snd.config) && c.state.SendCertificate? && Spoken(c, spoiled)
    ensures Spoken(CertifyFails(c, choice), spoiled + One(choice.built))
  {
    UnsentShape(NewFlight(c), CertificateBody(c.hasCertificate), choice);
    CertificateLeft(c, CertifyFails(c, choice), choice.built, spoiled);
  }

  lemma CertificateLeft(c: Connection, c': Connection, built: bool, spoiled: nat)
    requires c.state.SendCertificate? && Spoken(c, spoiled)
    requires MayHaveSaid(c, c', CertificateBody(c.hasCertificate), built)
    ensures Spoken(c', spoiled + One(built))
  {
    if built {
      CertificateSaid(c, c', spoiled, spoiled + 1);
    } else {
      SameSpoken(c, c', spoiled);
    }
  }

  lemma VerifyWrites(c: Connection, choice: Choice, spoiled: nat)
    requires F.Progresses(c.snd.config) && c.state.SendCertificateVerify? && Spoken(c, spoiled)
    requires Write(c, CertificateVerifyBody(c.transcript), choice, SendFinished).Some?
    ensures Spoken(Write(c, CertificateVerifyBody(c.transcript), choice, SendFinished).value, spoiled)
  {
    var c' := Write(c, CertificateVerifyBody(c.transcript), choice, SendFinished).value;
    WriteShape(c, CertificateVerifyBody(c.transcript), choice, SendFinished);
    VerifySaid(c, c', spoiled, spoiled);
  }

  lemma {:induction false} VerifyUnsent(c: Connection, choice: Choice, spoiled: nat)
    requires F.Progresses(c.snd.config) && c.state.SendCertificateVerify? && Spoken(c, spoiled)
    ensures Spoken(Unsent(c, CertificateVerifyBody(c.transcript), choice), spoiled + One(choice.built))
  {
    var c' := Unsent(c, CertificateVerifyBody(c.transcript), choice);
    UnsentShape(c, CertificateVerifyBody(c.transcript), choice);
    VerifyLeft(c, c', choice.built, spoiled);
  }

  lemma VerifyLeft(c: Connection, c': Connection, built: bool, spoiled: nat)
    requires c.state.SendCertificateVerify? && Spoken(c, spoiled)
    requires MayHaveSaid(c, c', CertificateVerifyBody(c.transcript), built)
    ensures Spoken(c', spoiled + One(built))
  {
    if built {
      VerifySaid(c, c', spoiled, spoiled + 1);
    } else {
      SameSpoken(c, c', spoiled);
    }
  }

  lemma LastFlightShape(c: Connection)
    ensures var l := LastFlight(c); SameTerms(c, l) && l.state == c.state && l.transcript == c.transcript
  {
  }

  lemma ConcludesShape(c: Connection, choice: Choice)
    requires F.Progresses(c.snd.config) && c.handshakeSecret.Some?
    ensures var body := FinishedBody(true, c.handshakeSecret.value, c.transcript);
            && (Concludes(c, choice).Some? ==> SaidOnly(c, Concludes(c, choice).value, body, AwaitApplicationData))
            && MayHaveSaid(c, ConcludeFails(c, choice), body, choice.built)
  {
    var body := FinishedBody(true, c.handshakeSecret.value, c.transcript);
    if Concludes(c, choice).Some? {
      WriteShape(c, body, choice, AwaitApplicationData);
    }
    UnsentShape(c, body, choice);
  }

  lemma FinishConcludes(c: Connection, choice: Choice, spoiled: nat)
    requires F.Progresses(c.snd.config) && c.state.SendFinished? && Spoken(c, spoiled) && Finish(c, choice).Some?
    ensures c.handshakeSecret.Some? && Spoken(Finish(c, choice).value, spoiled)
  {
    LastFlightShape(c);
    ConcludesShape(LastFlight(c), choice);
    FinishedSaid(c, Finish(c, choice).value, spoiled, spoiled);
  }

  lemma FinishSpoils(c: Connection, choice: Choice, spoiled: nat)
    requires F.Progresses(c.snd.config) && c.state.SendFinished? && Spoken(c, spoiled) && c.handshakeSecret.Some?
    ensures Spoken(FinishFails(c, choice), spoiled + One(choice.built))
  {
    LastFlightShape(c);
    ConcludesShape(LastFlight(c), choice);
    FinishedLeft(c, FinishFails(c, choice), choice.built, spoiled);
  }

  lemma FinishedLeft(c: Connection, c': Connection, built: bool, spoiled: nat)
    requires c.state.SendFinished? && Spoken(c, spoiled) && c.handshakeSecret.Some?
    requires MayHaveSaid(c, c', FinishedBody(true, c.handshakeSecret.value, c.transcript), built)
    ensures Spoken(c', spoiled + One(built))
  {
    if built {
      FinishedSaid(c, c', spoiled, spoiled + One(built));
    } else {
      SameSpoken(c, c', spoiled);
    }
  }

  lemma SpeakStep(c: Connection, choice: Choice, spoiled: nat)
    requires F.Progresses(c.snd.config) && Speaking(c.state) && Spoken(c, spoiled) && Step(c, choice).Some?
    ensures Spoken(Step(c, choice).value, spoiled)
  {
    if c.state.SendCertificate? {
      CertifyWrites(c, choice, spoiled);
    } else if c.state.SendCertificateVerify? {
      VerifyWrites(c, choice, spoiled);
    } else {
      FinishConcludes(c, choice, spoiled);
    }
  }

  lemma SpeakFail(c: Connection, choice: Choice, spoiled: nat)
    requires F.Progresses(c.snd.config) && Speaking(c.state) && Spoken(c, spoiled)
    ensures Spoken(Fails(c, choice), spoiled + One(choice.built))
  {
    if c.state.SendCertificate? {
      CertifySpoils(c, choice, spoiled);
    } else if c.state.SendCertificateVerify? {
      VerifyUnsent(c, choice, spoiled);
    } else {
      FinishSpoils(c, choice, spoiled);
    }
  }

  /** Past the server's Finished there is no way back before it. */
  lemma LeadsOn(c: Connection, c': Connection)
    requires Speaking(c.state) && Leads(c, c')
    ensures !BeforeApplication(c'.state)
  {
  }

  // ----- Up to the last flight -----

  /** The server's Finished, accepted: nothing has been said behind it. */
  lemma FinishedHeard(c: Connection)
    requires c.state.AwaitFinished? && Gated(c) && Asked(c) && Reads(c, Finished).Some?
    ensures Speaks(Reads(c, Finished).value, 0)
  {
    if HasComplete(c, Finished) {
      var body, c' := c.received[c.peerSeqNo], Reads(c, Finished).value;
      LastEntry(c.transcript, body);
      assert FinishedAt(c'.transcript, body.secret, |c.transcript|);
      assert Spoke(c', |c.transcript|, |c'.transcript|, |c'.transcript|, 0);
    }
  }

  /** Before the server's Finished nothing counts as said. */
  lemma EarlySpeaks(c: Connection)
    requires Gated(c) && BeforeApplication(c.state) && Asked(c)
    ensures Speaks(c, 0)
  {
  }

  /** The transcript has grown at most, and nothing more has been asked. */
  predicate Grown(c: Connection, c': Connection) {
    c.transcript <= c'.transcript && c'.clientAuthRequested == c.clientAuthRequested
  }

  lemma GrownAsked(c: Connection, c': Connection)
    requires Asked(c) && Grown(c, c') && (BeforeRequest(c'.state) ==> BeforeRequest(c.state))
    ensures Asked(c')
  {
    if c.clientAuthRequested {
      var i :| 0 <= i < |c.transcript| && c.transcript[i] == Said(CertificateRequestBody(true));
      assert c'.transcript[i] == c.transcript[i];
    }
  }

  /** Whatever comes of a ServerHello, nobody has asked for a certificate. */
  lemma GreetedAsks(c: Connection, reparses: bool)
    requires Greeted(c, reparses).Some?
    ensures Greeted(c, reparses).value.clientAuthRequested == c.clientAuthRequested
  {
    if HasComplete(c, ServerHello) {
      AnswersAsk(Read(c).1, Read(c).0, c.transcript, reparses);
    }
  }

  lemma RetriedTalk(c: Connection, before: seq<Spoken>, body: Body)
    ensures var c' := Retried(c, before, body);
            c'.transcript == [MessageHash(before), Said(body)] && c'.clientAuthRequested == c.clientAuthRequested
  {
  }

  lemma InstalledTalk(c: Connection)
    ensures var c' := Advance(Install(c), AwaitEncryptedExtensions);
            && c'.transcript == c.transcript && c'.handshakeSecret == Some(c.transcript)
            && c'.clientAuthRequested == c.clientAuthRequested && c'.hasCertificate == c.hasCertificate
  {
  }

  lemma AnswersAsk(c: Connection, body: Body, before: seq<Spoken>, reparses: bool)
    requires body.ServerHelloBody? && Answers(c, body, before, reparses).Some?
    ensures Answers(c, body, before, reparses).value.clientAuthRequested == c.clientAuthRequested
  {
    if body.retryRequest && c.helloRetry {
    } else if body.retryRequest {
      RetriedTalk(c, before, body);
    } else {
      InstalledTalk(c);
    }
  }

  lemma GreetingFailsAsks(c: Connection)
    ensures GreetingFails(c).clientAuthRequested == c.clientAuthRequested
  {
    if HasComplete(c, ServerHello) {
      AnswerFailsAsks(Read(c).1, Read(c).0);
    }
  }

  lemma AnswerFailsAsks(c: Connection, body: Body)
    requires body.ServerHelloBody?
    ensures AnswerFails(c, body).clientAuthRequested == c.clientAuthRequested
  {
  }

  lemma ReadAsks(c: Connection, wanted: MessageType)
    requires Expected13(c.state, wanted) && Reads(c, wanted).Some? && Asked(c)
    ensures var c' := Reads(c, wanted).value; BeforeApplication(c'.state) && Asked(c')
  {
    if HasComplete(c, wanted) {
      ReadFrame(c);
      AcceptAsks(c, Read(c).1, Read(c).0, wanted);
    }
  }

  lemma AcceptAsks(c: Connection, r: Connection, body: Body, wanted: MessageType)
    requires Asked(c) && Expected13(c.state, wanted) && TypeOf(body) == wanted
    requires r.transcript == c.transcript + [Said(body)] && r.clientAuthRequested == c.clientAuthRequested
    requires Accepts(r, body, c.transcript).Some?
    ensures var c' := Accepts(r, body, c.transcript).value; BeforeApplication(c'.state) && Asked(c')
  {
    var c' := AcceptMoves(r, body, c.transcript);
    if body.CertificateRequestBody? {
      assert c'.transcript[|c.transcript|] == Said(CertificateRequestBody(true));
    } else {
      GrownAsked(c, c');
    }
  }

  lemma AcceptMoves(r: Connection, body: Body, before: seq<Spoken>) returns (c': Connection)
    requires Accepts(r, body, before).Some? && !body.FinishedBody?
    ensures c' == Accepts(r, body, before).value && c'.transcript == r.transcript
    ensures BeforeApplication(c'.state) && (BeforeRequest(c'.state) <==> body.EncryptedExtensionsBody?)
    ensures if body.CertificateRequestBody? then body == CertificateRequestBody(true)
            else c'.clientAuthRequested == r.clientAuthRequested
  {
    c' := Accepts(r, body, before).value;
  }

  predicate Expected13(state: State, wanted: MessageType) {
    match wanted
    case EncryptedExtensions => state.AwaitEncryptedExtensions?
    case CertificateRequest => state.AwaitCertificateRequest?
    case Certificate => state.AwaitCertificate?
    case CertificateVerify => state.AwaitCertificateVerify?
    case _ => false
  }

  lemma EarlyStep(c: Connection, choice: Choice)
    requires F.Progresses(c.snd.config) && BeforeApplication(c.state) && !c.state.AwaitFinished?
    requires Step(c, choice).Some? && Asked(c)
    ensures BeforeApplication(Step(c, choice).value.state) && Asked(Step(c, choice).value)
  {
    match c.state
    case SendClientHello => WriteShape(HelloFlight(c), ClientHelloBody(c.helloRetry), choice, AwaitServerHello);
    case AwaitServerHello =>
      HelloStillEarly(c, choice.reparses);
      GreetedAsks(c, choice.reparses);
    case AwaitEncryptedExtensions => ReadAsks(c, EncryptedExtensions);
    case AwaitCertificateRequest =>
      if !HasComplete(c, Certificate) {
        ReadAsks(c, CertificateRequest);
      }
    case AwaitCertificate => ReadAsks(c, Certificate);
    case AwaitCertificateVerify => ReadAsks(c, CertificateVerify);
  }

  lemma RefusedGrown(c: Connection, wanted: MessageType)
    ensures Grown(c, Refused(c, wanted))
  {
    if HasComplete(c, wanted) {
    }
  }

  lemma EarlyFail(c: Connection, choice: Choice)
    requires F.Progresses(c.snd.config) && BeforeApplication(c.state) && Asked(c)
    ensures Asked(Fails(c, choice))
  {
    FailKeepsState(c, choice);
    if c.state.SendClientHello? {
      if choice.begins {
        UnsentShape(HelloFlight(c), ClientHelloBody(c.helloRetry), choice);
      }
    } else if c.state.AwaitServerHello? {
      GreetingFailsAsks(c);
    } else {
      if Awaited(c).Some? {
        RefusedGrown(c, Awaited(c).value);
      }
      GrownAsked(c, Fails(c, choice));
    }
  }

  /** Nothing said, and nothing of what it depends on changed. */
  lemma SilentSpeaks(c: Connection, c': Connection, spoiled: nat)
    requires Speaks(c, spoiled) && SameTerms(c, c') && c'.transcript == c.transcript && c'.events == c.events
    requires c'.state == c.state
             || ((c'.state.Closed? || c'.state.HalfClosedLocal?) && (Connected in c.events ==> !Speaking(c.state)))
    ensures Speaks(c', spoiled)
  {
    if Speaking(c'.state) || Connected in c'.events {
      SameSpoken(c, c', spoiled);
    }
  }

  lemma LaterStep(c: Connection, choice: Choice)
    requires c.state.AwaitApplicationData? || c.state.HalfClosedLocal? || c.state.Closed?
    requires F.Progresses(c.snd.config) && Step(c, choice).Some?
    ensures var c' := Step(c, choice).value;
            && SameTerms(c, c') && c'.transcript == c.transcript && c'.events == c.events
            && (c'.state == c.state || (c.state.HalfClosedLocal? && c'.state.Closed?))
  {
    if c.state.AwaitApplicationData? {
      ServeTerms(c, choice);
    } else if c.state.HalfClosedLocal? {
      DrainTerms(c);
    }
  }

  lemma ServeTerms(c: Connection, choice: Choice)
    requires Serve(c, choice).Some?
    ensures var c' := Serve(c, choice).value;
            SameTerms(c, c') && c'.transcript == c.transcript && c'.events == c.events && c'.state == c.state
  {
  }

  lemma DrainTerms(c: Connection)
    ensures var c' := Drain(c).value;
            && SameTerms(c, c') && c'.transcript == c.transcript && c'.events == c.events
            && (c'.state == c.state || c'.state.Closed?)
  {
  }

  lemma LaterFail(c: Connection, choice: Choice)
    requires c.state.AwaitApplicationData? || c.state.HalfClosedLocal? || c.state.Closed?
    requires F.Progresses(c.snd.config)
    ensures var c' := Fails(c, choice);
            SameTerms(c, c') && c'.transcript == c.transcript && c'.events == c.events && c'.state == c.state
  {
    if c.state.AwaitApplicationData? {
      ServeFailsTerms(c, choice);
    }
  }

  lemma ServeFailsTerms(c: Connection, choice: Choice)
    ensures var c' := ServeFails(c, choice);
            SameTerms(c, c') && c'.transcript == c.transcript && c'.events == c.events && c'.state == c.state
  {
    var o := Sends(c.snd, c.pendingKeyUpdateResponse, choice);
    if o.failure.None? {
      ReadFailsTerms(c.(snd := o.sender, pendingKeyUpdateResponse := false), choice.numbers);
    }
  }

  lemma ReadFailsTerms(c: Connection, numbers: seq<Number>)
    ensures var c' := ReadFails(c, numbers);
            SameTerms(c, c') && c'.transcript == c.transcript && c'.events == c.events && c'.state == c.state
  {
    if HasComplete(c, KeyUpdate) {
    }
  }

  lemma AsideTerms(c: Connection, input: Input)
    requires Between(input)
    ensures var c' := Aside(c, input);
            SameTerms(c, c') && c'.transcript == c.transcript && c'.events == c.events && c'.state == c.state
  {
  }

  lemma ClosingTerms(c: Connection)
    ensures SameTerms(c, Closing(c))
  {
  }

  // ----- Whole runs -----

  /** An input that leaves behind an entry of the last flight that could not be sent. */
  predicate Spoils(c: Connection, input: Input)
    requires F.Progresses(c.snd.config)
  {
    Speaking(c.state)
    && match input
       case Move(choice) => choice.built && Step(c, choice).None?
       case Fail(choice) => choice.built
       case _ => false
  }

  ghost function Spoiled(c: Connection, inputs: seq<Input>): nat
    requires F.Progresses(c.snd.config)
    decreases |inputs|
  {
    if inputs == [] then 0
    else
      TakeKeepsConfig(c, inputs[0]);
      One(Spoils(c, inputs[0])) + Spoiled(Take(c, inputs[0]), inputs[1..])
  }

  lemma StepSpeaks(c: Connection, choice: Choice, spoiled: nat)
    requires F.Progresses(c.snd.config) && Gated(c) && Speaks(c, spoiled) && Step(c, choice).Some?
    ensures Speaks(Step(c, choice).value, spoiled)
  {
    if Speaking(c.state) {
      SpeakStep(c, choice, spoiled);
      StepDescends(c, choice);
      LeadsOn(c, Step(c, choice).value);
    } else if c.state.AwaitFinished? {
      FinishedHeard(c);
    } else if BeforeApplication(c.state) {
      StepGated(c, choice);
      EarlyStep(c, choice);
      EarlySpeaks(Step(c, choice).value);
    } else {
      LaterStep(c, choice);
      SilentSpeaks(c, Step(c, choice).value, spoiled);
    }
  }

  lemma ClosingSpeaks(c: Connection, spoiled: nat)
    requires Gated(c) && Speaks(c, spoiled)
    ensures Speaks(Closing(c), spoiled)
  {
    ClosingTouches(c);
    ClosingTerms(c);
    SilentSpeaks(c, Closing(c), spoiled);
  }

  lemma AsideSpeaks(c: Connection, input: Input, spoiled: nat)
    requires Between(input) && Speaks(c, spoiled)
    ensures Speaks(Aside(c, input), spoiled)
  {
    AsideTerms(c, input);
    SilentSpeaks(c, Aside(c, input), spoiled);
  }

  lemma SpoiledStep(c: Connection, inputs: seq<Input>, next: Connection, spoils: bool)
    requires F.Progresses(c.snd.config) && inputs != [] && next == Take(c, inputs[0]) && spoils == Spoils(c, inputs[0])
    ensures F.Progresses(next.snd.config)
    ensures Run(c, inputs) == Run(next, inputs[1..])
    ensures Spoiled(c, inputs) == One(spoils) + Spoiled(next, inputs[1..])
  {
    TakeKeepsConfig(c, inputs[0]);
  }

  /** What the first input makes of the client, and the entries spoiled by then. */
  ghost predicate Continues(c: Connection, inputs: seq<Input>, spoiled: nat, next: Connection, spoiled': nat)
    requires F.Progresses(c.snd.config) && inputs != []
  {
    && F.Progresses(next.snd.config) && Gated(next) && Speaks(next, spoiled')
    && Run(c, inputs) == Run(next, inputs[1..])
    && spoiled + Spoiled(c, inputs) == spoiled' + Spoiled(next, inputs[1..])
  }

  /** The input is a transition with this choice that fails. */
  predicate IsFailing(c: Connection, input: Input, choice: Choice)
    requires F.Progresses(c.snd.config)
  {
    input == Fail(choice) || (input == Move(choice) && Step(c, choice).None?)
  }

  lemma FailIsTaken(c: Connection, input: Input, choice: Choice)
    requires F.Progresses(c.snd.config) && IsFailing(c, input, choice)
    ensures Take(c, input) == Fails(c, choice)
    ensures Spoils(c, input) == (Speaking(c.state) && choice.built)
  {
  }

  lemma MoveIsTaken(c: Connection, choice: Choice)
    requires F.Progresses(c.snd.config) && Step(c, choice).Some?
    ensures Take(c, Move(choice)) == Step(c, choice).value && !Spoils(c, Move(choice))
  {
  }

  lemma OneStep(c: Connection, inputs: seq<Input>, choice: Choice, spoiled: nat) returns (next: Connection)
    requires F.Progresses(c.snd.config) && inputs != [] && Gated(c) && Speaks(c, spoiled)
    requires inputs[0] == Move(choice) && Step(c, choice).Some?
    ensures Continues(c, inputs, spoiled, next, spoiled)
  {
    next := SteppedOnce(c, choice, spoiled);
    MoveIsTaken(c, choice);
    SpoiledStep(c, inputs, next, false);
  }

  lemma SteppedOnce(c: Connection, choice: Choice, spoiled: nat) returns (next: Connection)
    requires F.Progresses(c.snd.config) && Gated(c) && Speaks(c, spoiled) && Step(c, choice).Some?
    ensures next == Step(c, choice).value && Gated(next) && Speaks(next, spoiled)
  {
    next := Step(c, choice).value;
    StepSpeaks(c, choice, spoiled);
    StepGated(c, choice);
  }

  /** A send of the last flight fails. */
  lemma OneSpoils(c: Connection, inputs: seq<Input>, choice: Choice, spoiled: nat) returns (next: Connection)
    requires F.Progresses(c.snd.config) && inputs != [] && Gated(c) && Speaks(c, spoiled)
    requires IsFailing(c, inputs[0], choice) && Speaking(c.state)
    ensures Continues(c, inputs, spoiled, next, spoiled + One(choice.built))
  {
    next := SpoiledOnce(c, choice, spoiled);
    FailIsTaken(c, inputs[0], choice);
    SpoiledStep(c, inputs, next, choice.built);
  }

  lemma SpoiledOnce(c: Connection, choice: Choice, spoiled: nat) returns (next: Connection)
    requires F.Progresses(c.snd.config) && Gated(c) && Speaks(c, spoiled) && Speaking(c.state)
    ensures next == Fails(c, choice) && Gated(next) && Speaks(next, spoiled + One(choice.built))
  {
    next := Fails(c, choice);
    SpeakFail(c, choice, spoiled);
    FailKeepsState(c, choice);
    FailGates(c, choice);
  }

  /** A transition before the last flight fails. */
  lemma OneEarlyFail(c: Connection, inputs: seq<Input>, choice: Choice) returns (next: Connection)
    requires F.Progresses(c.snd.config) && inputs != [] && Gated(c) && Speaks(c, 0)
    requires IsFailing(c, inputs[0], choice) && BeforeApplication(c.state)
    ensures Continues(c, inputs, 0, next, 0)
  {
    next := FailedEarly(c, choice);
    FailIsTaken(c, inputs[0], choice);
    SpoiledStep(c, inputs, next, false);
  }

  lemma FailedEarly(c: Connection, choice: Choice) returns (next: Connection)
    requires F.Progresses(c.snd.config) && Gated(c) && Asked(c) && BeforeApplication(c.state)
    ensures next == Fails(c, choice) && Gated(next) && Speaks(next, 0)
  {
    next := Fails(c, choice);
    FailKeepsState(c, choice);
    FailGates(c, choice);
    EarlyFail(c, choice);
    EarlySpeaks(next);
  }

  /** A transition behind the last flight fails. */
  lemma OneLaterFail(c: Connection, inputs: seq<Input>, choice: Choice, spoiled: nat) returns (next: Connection)
    requires F.Progresses(c.snd.config) && inputs != [] && Gated(c) && Speaks(c, spoiled)
    requires IsFailing(c, inputs[0], choice) && !Speaking(c.state) && !BeforeApplication(c.state)
    ensures Continues(c, inputs, spoiled, next, spoiled)
  {
    next := FailedLater(c, choice, spoiled);
    FailIsTaken(c, inputs[0], choice);
    SpoiledStep(c, inputs, next, false);
  }

  lemma FailedLater(c: Connection, choice: Choice, spoiled: nat) returns (next: Connection)
    requires F.Progresses(c.snd.config) && Gated(c) && Speaks(c, spoiled)
    requires !Speaking(c.state) && !BeforeApplication(c.state)
    ensures next == Fails(c, choice) && Gated(next) && Speaks(next, spoiled)
  {
    next := Fails(c, choice);
    LaterFail(c, choice);
    SilentSpeaks(c, next, spoiled);
    FailGates(c, choice);
  }

  lemma OneQuiet(c: Connection, inputs: seq<Input>, spoiled: nat) returns (next: Connection)
    requires F.Progresses(c.snd.config) && inputs != [] && Gated(c) && Speaks(c, spoiled)
    requires !inputs[0].Move? && !inputs[0].Fail?
    ensures Continues(c, inputs, spoiled, next, spoiled)
  {
    next := if inputs[0].CloseLocally? then Closing(c) else Aside(c, inputs[0]);
    if inputs[0].CloseLocally? {
      ClosingSpeaks(c, spoiled);
      ClosingGates(c);
    } else {
      AsideSpeaks(c, inputs[0], spoiled);
      BetweenGated(c, inputs[0]);
    }
    SpoiledStep(c, inputs, next, false);
  }

  lemma OneInput(c: Connection, inputs: seq<Input>, spoiled: nat) returns (next: Connection, spoiled': nat)
    requires F.Progresses(c.snd.config) && inputs != [] && Gated(c) && Speaks(c, spoiled)
    ensures Continues(c, inputs, spoiled, next, spoiled')
  {
    spoiled' := spoiled;
    if !inputs[0].Move? && !inputs[0].Fail? {
      next := OneQuiet(c, inputs, spoiled);
    } else if inputs[0].Move? && Step(c, inputs[0].choice).Some? {
      next := OneStep(c, inputs, inputs[0].choice, spoiled);
    } else {
      next, spoiled' := OneFails(c, inputs, inputs[0].choice, spoiled);
    }
  }

  lemma {:induction false} OneFails(c: Connection, inputs: seq<Input>, choice: Choice, spoiled: nat)
    returns (next: Connection, spoiled': nat)
    requires F.Progresses(c.snd.config) && inputs != [] && Gated(c) && Speaks(c, spoiled)
    requires IsFailing(c, inputs[0], choice)
    ensures Continues(c, inputs, spoiled, next, spoiled')
  {
    spoiled' := spoiled;
    if Speaking(c.state) {
      next := OneSpoils(c, inputs, choice, spoiled);
      spoiled' := spoiled + One(choice.built);
    } else if BeforeApplication(c.state) {
      next := OneEarlyFail(c, inputs, choice);
    } else {
      next := OneLaterFail(c, inputs, choice, spoiled);
    }
  }

  lemma {:induction false} RunSpeaks(c: Connection, inputs: seq<Input>, spoiled: nat)
    requires F.Progresses(c.snd.config) && Gated(c) && Speaks(c, spoiled)
    ensures Speaks(Run(c, inputs), spoiled + Spoiled(c, inputs)) && Gated(Run(c, inputs))
    decreases |inputs|
  {
    if inputs != [] {
      var next, spoiled' := OneInput(c, inputs, spoiled);
      RunSpeaks(next, inputs[1..], spoiled');
    }
  }

  /** Whatever arrives and whatever fails: when the connection is reported, what stands behind the
      server's Finished in the transcript is the client's last flight and nothing else.  That is
      a Certificate if the server has asked for one, empty if the client has none, a
      CertificateVerify over all before it if it has one, and a Finished over all before it under
      the handshake secret; each once, and once more for every send of it that failed. */
  lemma LastFlightExact(c: Connection, config: Config, inputs: seq<Input>)
    requires Starts(c, config)
    ensures F.Progresses(c.snd.config)
    ensures var end := Run(c, inputs);
            Connected in end.events ==>
              && end.handshakeSecret.Some?
              && exists k: nat, m: nat, n: nat ::
                   && FinishedAt(end.transcript, end.handshakeSecret.value, k)
                   && Speech(end.transcript, k, m, n, end.hasCertificate, end.handshakeSecret.value)
                   && n < |end.transcript|
                   && (m > k + 1 <==> end.clientAuthRequested)
                   && (end.clientAuthRequested ==> Said(CertificateRequestBody(true)) in end.transcript[..k])
                   && (n > m <==> end.clientAuthRequested && end.hasCertificate)
                   && |end.transcript| == k + 1 + Expected(end) + Spoiled(c, inputs)
  {
    StartInOrder(c, config);
    RunSpeaks(c, inputs, 0);
    SpokenInFull(Run(c, inputs), Spoiled(c, inputs));
  }

  lemma SpokenInFull(end: Connection, spoiled: nat)
    requires Gated(end) && Speaks(end, spoiled)
    ensures Connected in end.events ==>
              && end.handshakeSecret.Some?
              && exists k: nat, m: nat, n: nat ::
                   && FinishedAt(end.transcript, end.handshakeSecret.value, k)
                   && Speech(end.transcript, k, m, n, end.hasCertificate, end.handshakeSecret.value)
                   && n < |end.transcript|
                   && (m > k + 1 <==> end.clientAuthRequested)
                   && (end.clientAuthRequested ==> Said(CertificateRequestBody(true)) in end.transcript[..k])
                   && (n > m <==> end.clientAuthRequested && end.hasCertificate)
                   && |end.transcript| == k + 1 + Expected(end) + spoiled
  {
    if Connected in end.events {
      var k: nat, m: nat, n: nat :| Spoke(end, k, m, n, spoiled);
      assert !Speaking(end.state);
    }
  }
}
