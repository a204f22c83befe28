/** An honest DTLS 1.2 client and server over a network that loses, duplicates and
    reorders: their transcripts agree wherever one is hashed. */
module Agreement12 {
  import opened Handshakes
  import opened Messages12
  import C = Client12
  import S = Server12

  /** `story` lists the messages that count, by either side, in the order they were
      created; asking for a cookie starts it afresh. */
  datatype System = System(client: C.Client, server: S.Server, story: seq<Message>)

  /** One side takes a transition, or any message ever sent arrives, once more or never. */
  datatype Step =
    | ClientMoves(content: nat)
    | ServerMoves(content: nat)
    | ToClient(i: nat)
    | ToServer(i: nat)
    | CipherSpecToClient
    | CipherSpecToServer
    | CloseToClient
    | CloseToServer

  predicate Enabled(sys: System, step: Step) {
    match step
    case ClientMoves(content) => C.ClientStep(sys.client, content).Some?
    case ServerMoves(content) => S.ServerStep(sys.server, content).Some?
    case ToClient(i) => i < |sys.server.engine.sent|
    case ToServer(i) => i < |sys.client.engine.sent|
    case CipherSpecToClient => sys.server.engine.ccsSent
    case CipherSpecToServer => sys.client.engine.ccsSent
    case _ => true
  }

  function Told(story: seq<Message>, before: seq<Message>, after: seq<Message>): seq<Message> {
    if |after| <= |before| then story
    else if after[|after| - 1].body.HelloVerifyRequestBody? then []
    else story + [after[|after| - 1]]
  }

  function Next(sys: System, step: Step): System
    requires Enabled(sys, step)
  {
    var (c, s) := (sys.client, sys.server);
    match step
    case ClientMoves(content) =>
      var c' := C.ClientStep(c, content).value;
      System(c', s, Told(sys.story, c.engine.sent, c'.engine.sent))
    case ServerMoves(content) =>
      var s' := S.ServerStep(s, content).value;
      System(c, s', Told(sys.story, s.engine.sent, s'.engine.sent))
    case ToClient(i) => sys.(client := c.(engine := Arrive(c.engine, s.engine.sent[i])))
    case ToServer(i) => sys.(server := s.(engine := Arrive(s.engine, c.engine.sent[i])))
    case CipherSpecToClient => sys.(client := c.(engine := c.engine.(ccsPending := true)))
    case CipherSpecToServer => sys.(server := s.(engine := s.engine.(ccsPending := true)))
    case CloseToClient => sys.(client := c.(engine := c.engine.(closeNotify := true)))
    case CloseToServer => sys.(server := s.(engine := s.engine.(closeNotify := true)))
  }

  predicate EnabledRun(sys: System, steps: seq<Step>)
    decreases |steps|
  {
    steps == [] || (Enabled(sys, steps[0]) && EnabledRun(Next(sys, steps[0]), steps[1..]))
  }

  function Run(sys: System, steps: seq<Step>): System
    requires EnabledRun(sys, steps)
    decreases |steps|
  {
    if steps == [] then sys else Run(Next(sys, steps[0]), steps[1..])
  }

  // ----- Where a message stands in the story -----

  /** Position of the first message of a kind, or the number of messages. */
  function First(sent: seq<Message>, kind: Kind): (i: nat)
    ensures i <= |sent|
    ensures i < |sent| ==> KindOf(sent[i].body) == kind
    ensures forall j :: 0 <= j < i ==> KindOf(sent[j].body) != kind
  {
    if sent == [] || KindOf(sent[0].body) == kind then 0 else 1 + First(sent[1..], kind)
  }

  predicate Has(sent: seq<Message>, kind: Kind) {
    First(sent, kind) < |sent|
  }

  lemma {:induction false} FirstAppend(sent: seq<Message>, m: Message, kind: Kind)
    ensures First(sent + [m], kind)
            == if Has(sent, kind) then First(sent, kind)
               else if KindOf(m.body) == kind then |sent| else |sent| + 1
    decreases |sent|
  {
    if sent == [] {
      assert [m][1..] == [] && sent + [m] == [m];
    } else {
      assert (sent + [m])[1..] == sent[1..] + [m];
      FirstAppend(sent[1..], m, kind);
    }
  }

  lemma FirstIsNone(sent: seq<Message>, kind: Kind)
    requires forall i :: 0 <= i < |sent| ==> KindOf(sent[i].body) != kind
    ensures First(sent, kind) == |sent|
  {
  }

  /** 1 when the server asked for a cookie first. */
  function Base(server: seq<Message>): nat {
    if server != [] && server[0].body.HelloVerifyRequestBody? then 1 else 0
  }

  function Done(server: seq<Message>): nat {
    First(server, ServerHelloDoneKind)
  }

  /** The client's message `j` follows the hello and the server's flight. */
  function ClientPlace(server: seq<Message>, j: nat): int {
    Done(server) + 1 + j - 2 * Base(server)
  }

  /** Hello, server's flight, client's flight, server's Finished. */
  ghost predicate StoryValid(client: seq<Message>, server: seq<Message>, story: seq<Message>) {
    var b, done := Base(server), Done(server);
    && b <= |server|
    && (|client| <= b ==> story == [] && |server| == b)
    && (|client| > b ==>
          && |story| == |server| + |client| - 2 * b
          && story[0] == client[b]
          && (forall j :: b <= j < |server| && j <= done ==> story[1 + j - b] == server[j])
          && (|client| > b + 1 ==> done < |server|)
          && (forall j :: b < j < |client| ==>
                0 <= ClientPlace(server, j) < |story| && story[ClientPlace(server, j)] == client[j])
          && (forall j :: done < j < |server| ==> j == done + 1 && story[|story| - 1] == server[j])
          && (|server| > done + 1 ==> Has(client, FinishedKind)))
  }

  lemma PrefixesEqual(a: seq<Message>, b: seq<Message>, story: seq<Message>)
    requires a <= story && b <= story && |a| == |b|
    ensures a == b
  {
  }

  // ----- Invariants -----

  predicate Reading(state: C.ClientState) {
    state.AwaitServerHello? || state.AwaitCertificate? || state.AwaitServerKeyExchange?
    || state.AwaitCertificateRequest? || state.AwaitServerHelloDone?
  }

  /** States before the ClientKeyExchange is sent, and after. */
  predicate WritingFirst(state: C.ClientState) {
    state.SendCertificate? || state.SendClientKeyExchange?
  }

  predicate WritingLast(state: C.ClientState) {
    state.SendCertificateVerify? || state.SendChangeCipherSpec? || state.SendFinished?
  }

  predicate Waiting(state: C.ClientState) {
    state.AwaitChangeCipherSpec? || state.AwaitNewSessionTicket? || state.AwaitFinished?
  }

  predicate ServerWriting(state: S.ServerState) {
    state.SendServerHello? || state.SendCertificate? || state.SendServerKeyExchange?
    || state.SendCertificateRequest? || state.SendServerHelloDone?
  }

  predicate ReadingFirst(state: S.ServerState) {
    state.AwaitCertificate? || state.AwaitClientKeyExchange?
  }

  predicate ReadingLast(state: S.ServerState) {
    state.AwaitCertificateVerify? || state.AwaitChangeCipherSpec? || state.AwaitFinished?
  }

  predicate ServerFinishing(state: S.ServerState) {
    state.SendChangeCipherSpec? || state.SendFinished?
  }

  /** Messages are numbered as they are sent, and heard as they were sent. */
  ghost predicate Numbered(e: Engine) {
    |e.sent| == e.nextSeqNo && forall i :: 0 <= i < |e.sent| ==> e.sent[i].seqNo == i
  }

  ghost predicate Hears(e: Engine, peer: seq<Message>) {
    e.peerSeqNo <= |peer| && forall n :: n in e.received ==> n < |peer| && e.received[n] == peer[n]
  }

  /** The client's hellos: the first without a cookie, the second with the server's; and
      what is never sent later, or at all. */
  ghost predicate HellosValid(random: nat, cookie: Option<nat>, client: seq<Message>, server: seq<Message>) {
    var b := Base(server);
    && (|client| > 0 ==> client[0].body == ClientHelloBody(random, None))
    && (b == 1 && |client| > 1 ==> client[1].body == ClientHelloBody(random, Some(S.ComputeCookie(random))))
    && (b == 1 ==> |client| > 0 && server[0].body == HelloVerifyRequestBody(S.ComputeCookie(random)))
    && (cookie.Some? ==> b == 1 && cookie == Some(S.ComputeCookie(random)))
    && (forall i :: b < i < |client| ==> !client[i].body.ClientHelloBody?)
    && (forall i :: 0 <= i < |client| ==> !client[i].body.HelloVerifyRequestBody?)
    && (forall i :: 0 < i < |server| ==> !server[i].body.HelloVerifyRequestBody?)
    && (forall i :: 0 <= i < |server| ==> !server[i].body.ClientHelloBody?)
    && !Has(server, NewSessionTicketKind)
  }

  /** What the client has sent, read and hashed, state by state. */
  ghost predicate ClientKnows(c: C.Client, server: seq<Message>, story: seq<Message>) {
    var e, b, done := c.engine, Base(server), Done(server);
    if c.state.SendClientHello? then
      && e.transcript == []
      && (if c.cookie.None? then e.sent == [] && e.peerSeqNo == 0 else |e.sent| == 1 && e.peerSeqNo == 1)
    else if c.state.AwaitHelloVerifyRequest? then
      c.cookie.None? && |e.sent| == 1 && e.peerSeqNo == 0 && e.transcript == e.sent
    else
      && server != [] && b == (if c.cookie.None? then 0 else 1)
      && b < |e.sent| && b <= e.peerSeqNo && e.transcript <= story
      && (if Reading(c.state) then
            |e.sent| == b + 1 && e.peerSeqNo <= done && |e.transcript| == 1 + e.peerSeqNo - b
          else if WritingFirst(c.state) || WritingLast(c.state) || Waiting(c.state) then
            Has(server, ServerHelloDoneKind) && e.peerSeqNo == done + 1
            && |e.transcript| == ClientPlace(server, |e.sent|)
          else
            Has(server, ServerHelloDoneKind) && e.peerSeqNo == done + 2
            && |e.transcript| == ClientPlace(server, |e.sent|) + 1)
  }

  predicate BeforeKeyExchange(state: C.ClientState) {
    state.SendClientHello? || state.AwaitHelloVerifyRequest? || Reading(state) || WritingFirst(state)
  }

  /** The session hash covers everything up to the first ClientKeyExchange. */
  ghost predicate HashedAt(client: seq<Message>, server: seq<Message>, story: seq<Message>, hash: seq<Message>) {
    var k := First(client, ClientKeyExchangeKind);
    && Base(server) < k < |client| && Has(server, ServerHelloDoneKind)
    && hash <= story && |hash| == ClientPlace(server, k) + 1
  }

  ghost predicate ClientHashed(c: C.Client, server: seq<Message>, story: seq<Message>) {
    if BeforeKeyExchange(c.state) then c.sessionHash == None && !Has(c.engine.sent, ClientKeyExchangeKind)
    else c.sessionHash.Some? && HashedAt(c.engine.sent, server, story, c.sessionHash.value)
  }

  /** A signature or MAC of the client is over the story before it. */
  ghost predicate SignedOver(
      m: Message, j: nat, server: seq<Message>, story: seq<Message>, hash: Option<seq<Message>>)
  {
    match m.body
    case CertificateVerifyBody(over) =>
      Has(server, ServerHelloDoneKind) && over <= story && |over| == ClientPlace(server, j)
    case FinishedBody(tag) =>
      && Has(server, ServerHelloDoneKind) && hash.Some? && tag.byClient && tag.sessionHash == hash.value
      && tag.transcript <= story && |tag.transcript| == ClientPlace(server, j)
    case _ => true
  }

  ghost predicate ClientSigned(c: C.Client, server: seq<Message>, story: seq<Message>) {
    var sent := c.engine.sent;
    && (forall j :: 0 <= j < |sent| ==> SignedOver(sent[j], j, server, story, c.sessionHash))
    && First(sent, FinishedKind) == if BeforeKeyExchange(c.state) || WritingLast(c.state) then |sent| else |sent| - 1
  }

  ghost predicate ServerKnows(s: S.Server, client: seq<Message>, story: seq<Message>) {
    var e := s.engine;
    var b, done := Base(e.sent), Done(e.sent);
    if s.state.AwaitClientHello? then e.transcript == [] && |e.sent| == b == e.peerSeqNo
    else
      && b < e.peerSeqNo && b <= |e.sent| && b < |client| && client[b].body.ClientHelloBody?
      && e.transcript <= story
      && (s.state.SendServerHello? <==> |e.sent| == b)
      && (if ServerWriting(s.state) then
            done == |e.sent| && e.peerSeqNo == b + 1 && |e.transcript| == 1 + |e.sent| - b
          else if ReadingFirst(s.state) || ReadingLast(s.state) || ServerFinishing(s.state) then
            |e.sent| == done + 1 && |e.transcript| == ClientPlace(e.sent, e.peerSeqNo)
          else
            |e.sent| == done + 2 && |e.transcript| == ClientPlace(e.sent, e.peerSeqNo) + 1)
  }

  ghost predicate ServerHashed(s: S.Server, client: seq<Message>, story: seq<Message>) {
    if s.state.AwaitClientHello? || ServerWriting(s.state) || ReadingFirst(s.state) then
      s.sessionHash == None && First(client, ClientKeyExchangeKind) >= s.engine.peerSeqNo
    else
      && s.sessionHash.Some? && HashedAt(client, s.engine.sent, story, s.sessionHash.value)
      && First(client, ClientKeyExchangeKind) < s.engine.peerSeqNo
  }

  /** The server finishes after the client's Finished, and its own is over the story so far. */
  ghost predicate ServerSigned(s: S.Server, client: seq<Message>, story: seq<Message>) {
    var e, fin := s.engine, First(client, FinishedKind);
    if s.state.AwaitClientHello? || ServerWriting(s.state) || ReadingFirst(s.state) || ReadingLast(s.state) then
      fin >= e.peerSeqNo
    else
      && fin < |client| && e.peerSeqNo == fin + 1
      && (ServerFinishing(s.state) || ServerFinished(e.sent, story, s.sessionHash, ClientPlace(e.sent, fin + 1)))
  }

  ghost predicate ServerFinished(server: seq<Message>, story: seq<Message>, hash: Option<seq<Message>>, place: int) {
    && Done(server) + 1 < |server| && hash.Some?
    && server[Done(server) + 1].body.FinishedBody?
    && var tag := server[Done(server) + 1].body.verifyData;
       !tag.byClient && tag.sessionHash == hash.value && tag.transcript <= story && |tag.transcript| == place
  }

  ghost predicate ClientValid(c: C.Client, server: seq<Message>, story: seq<Message>) {
    && Numbered(c.engine) && Hears(c.engine, server)
    && ClientKnows(c, server, story) && ClientHashed(c, server, story) && ClientSigned(c, server, story)
  }

  ghost predicate ServerValid(s: S.Server, client: seq<Message>, story: seq<Message>) {
    && Numbered(s.engine) && Hears(s.engine, client)
    && ServerKnows(s, client, story) && ServerHashed(s, client, story) && ServerSigned(s, client, story)
  }

  ghost predicate Agree(sys: System) {
    var (client, server) := (sys.client.engine.sent, sys.server.engine.sent);
    && HellosValid(sys.client.random, sys.client.cookie, client, server)
    && StoryValid(client, server, sys.story)
    && ClientValid(sys.client, server, sys.story)
    && ServerValid(sys.server, client, sys.story)
  }

  // ----- A message from one side leaves what the other side knows -----

  /** The client hears nothing new yet when the server creates a message that counts. */
  lemma ClientStable(c: C.Client, server: seq<Message>, m: Message, story: seq<Message>)
    requires ClientValid(c, server, story)
    requires Base(server) == Base(server + [m])
    ensures ClientValid(c, server + [m], story + [m])
  {
    FirstAppend(server, m, ServerHelloDoneKind);
    forall j | 0 <= j < |c.engine.sent|
      ensures SignedOver(c.engine.sent[j], j, server + [m], story + [m], c.sessionHash)
    {
      assert SignedOver(c.engine.sent[j], j, server, story, c.sessionHash);
    }
  }

  lemma ServerStable(s: S.Server, client: seq<Message>, m: Message, story: seq<Message>)
    requires ServerValid(s, client, story)
    ensures ServerValid(s, client + [m], story + [m])
  {
    FirstAppend(client, m, ClientKeyExchangeKind);
    FirstAppend(client, m, FinishedKind);
  }

  // ----- The client's transitions -----

  /** The other side's messages, as this side reads them. */
  lemma ReadHears(e: Engine, peer: seq<Message>)
    requires Numbered(e) && Hears(e, peer) && e.peerSeqNo in e.received
    requires forall i :: 0 <= i < |peer| ==> peer[i].seqNo == i
    ensures var (m, e') := Read(e);
            && e.peerSeqNo < |peer| && m == peer[e.peerSeqNo]
            && Numbered(e') && Hears(e', peer)
            && e'.peerSeqNo == e.peerSeqNo + 1 && e'.sent == e.sent && e'.transcript == e.transcript + [m]
  {
  }

  /** What a client transition keeps, given what it did to the story. */
  ghost predicate ClientKeeps(c: C.Client, c': C.Client, server: seq<Message>, story: seq<Message>) {
    var story' := Told(story, c.engine.sent, c'.engine.sent);
    && (c'.engine.sent == c.engine.sent
        || (|c'.engine.sent| == |c.engine.sent| + 1
            && c'.engine.sent == c.engine.sent + [c'.engine.sent[|c.engine.sent|]]
            && story' == story + [c'.engine.sent[|c.engine.sent|]]))
    && HellosValid(c'.random, c'.cookie, c'.engine.sent, server)
    && StoryValid(c'.engine.sent, server, story')
    && ClientValid(c', server, story')
  }

  ghost predicate ClientHearing(c: C.Client, server: seq<Message>, story: seq<Message>) {
    && (forall i :: 0 <= i < |server| ==> server[i].seqNo == i)
    && Numbered(c.engine) && Hears(c.engine, server) && ClientKnows(c, server, story)
  }

  ghost predicate ClientBefore(c: C.Client, server: seq<Message>, story: seq<Message>) {
    && (forall i :: 0 <= i < |server| ==> server[i].seqNo == i)
    && HellosValid(c.random, c.cookie, c.engine.sent, server)
    && StoryValid(c.engine.sent, server, story)
    && ClientValid(c, server, story)
  }

  /** The first hello, and the second. */
  lemma ClientSaysHello(c: C.Client, server: seq<Message>, story: seq<Message>, content: nat)
    requires ClientBefore(c, server, story) && c.state.SendClientHello?
    ensures ClientKeeps(c, C.ClientStep(c, content).value, server, story)
  {
    var m := Message(c.engine.nextSeqNo, ClientHelloBody(c.random, c.cookie), content);
    HelloStory(c, m, server, story);
    HelloSigned(c, C.ClientStep(c, content).value, m, server, story);
  }

  /** The hello is the first message that counts. */
  lemma HelloStory(c: C.Client, m: Message, server: seq<Message>, story: seq<Message>)
    requires ClientKnows(c, server, story) && StoryValid(c.engine.sent, server, story)
    requires HellosValid(c.random, c.cookie, c.engine.sent, server)
    requires c.state.SendClientHello? && m.body == ClientHelloBody(c.random, c.cookie)
    ensures story == [] && StoryValid(c.engine.sent + [m], server, [m])
    ensures HellosValid(c.random, c.cookie, c.engine.sent + [m], server)
  {
  }

  lemma HelloSigned(c: C.Client, c': C.Client, m: Message, server: seq<Message>, story: seq<Message>)
    requires ClientSigned(c, server, story) && ClientHashed(c, server, story) && c.state.SendClientHello?
    requires m.body.ClientHelloBody? && c'.engine.sent == c.engine.sent + [m] && BeforeKeyExchange(c'.state)
    requires c'.sessionHash == c.sessionHash && |c.engine.sent| <= 1
    requires forall i :: 0 <= i < |c.engine.sent| ==> c.engine.sent[i].body.ClientHelloBody?
    ensures ClientSigned(c', server, story + [m]) && ClientHashed(c', server, story + [m])
  {
    FirstIsNone(c'.engine.sent, ClientKeyExchangeKind);
    FirstIsNone(c'.engine.sent, FinishedKind);
  }

  lemma ClientAwaitsCookie(c: C.Client, server: seq<Message>, story: seq<Message>, content: nat)
    requires ClientBefore(c, server, story) && c.state.AwaitHelloVerifyRequest?
    ensures ClientKeeps(c, C.ClientStep(c, content).value, server, story)
  {
    if HasComplete(c.engine, ServerHelloKind) {
      ClientSkipsCookie(c, server, story);
    } else if HasComplete(c.engine, HelloVerifyRequestKind) {
      ClientTakesCookie(c, server, story);
    }
  }

  lemma ClientSkipsCookie(c: C.Client, server: seq<Message>, story: seq<Message>)
    requires ClientBefore(c, server, story) && c.state.AwaitHelloVerifyRequest?
    requires HasComplete(c.engine, ServerHelloKind)
    ensures ClientKeeps(c, c.(state := C.AwaitServerHello), server, story)
  {
    assert server[0].body.ServerHelloBody?;
  }

  lemma ClientTakesCookie(c: C.Client, server: seq<Message>, story: seq<Message>)
    requires ClientBefore(c, server, story) && c.state.AwaitHelloVerifyRequest?
    requires !HasComplete(c.engine, ServerHelloKind) && HasComplete(c.engine, HelloVerifyRequestKind)
    ensures ClientKeeps(c, C.ClientAwaitsCookie(c), server, story)
  {
    ReadHears(c.engine, server);
  }

  /** `c'` is `c` after reading the message it waited for, or none. */
  ghost predicate ReadOne(c: C.Client, c': C.Client) {
    && c'.random == c.random && c'.cookie == c.cookie && c'.sessionHash == c.sessionHash
    && if c.engine.peerSeqNo in c.engine.received && c'.engine.peerSeqNo != c.engine.peerSeqNo then
         var (m, e) := Read(c.engine);
         && c'.engine == e.(released := c'.engine.released)
         && if Reading(c.state) then
              if m.body.ServerHelloDoneBody? then WritingFirst(c'.state) else Reading(c'.state)
            else if m.body.FinishedBody? then c'.state.AwaitApplicationData?
            else m.body.NewSessionTicketBody? && c'.state.AwaitFinished?
       else
         c'.engine == c.engine && (if Reading(c.state) then Reading(c'.state) else Waiting(c'.state))
  }

  lemma AcceptsReads(c: C.Client, wanted: Kind)
    requires Numbered(c.engine) && C.ClientReads(c, wanted).Some?
    requires HasComplete(c.engine, wanted) ==> c.engine.received[c.engine.peerSeqNo].seqNo == c.engine.peerSeqNo
    requires Reading(c.state) ==>
               wanted in {ServerHelloKind, CertificateKind, ServerKeyExchangeKind, CertificateRequestKind,
                          ServerHelloDoneKind}
    requires Waiting(c.state) ==> wanted in {NewSessionTicketKind, FinishedKind}
    requires Reading(c.state) || Waiting(c.state)
    ensures ReadOne(c, C.ClientReads(c, wanted).value)
  {
  }

  lemma ReadingReads(c: C.Client, content: nat)
    requires Numbered(c.engine) && Reading(c.state) && C.ClientStep(c, content).Some?
    requires forall n :: n in c.engine.received ==> c.engine.received[n].seqNo == n
    ensures ReadOne(c, C.ClientStep(c, content).value)
  {
    match c.state
    case AwaitServerHello => AcceptsReads(c, ServerHelloKind);
    case AwaitCertificate => AcceptsReads(c, CertificateKind);
    case AwaitServerKeyExchange =>
      if !(c.psk && HasComplete(c.engine, ServerHelloDoneKind)) {
        AcceptsReads(c, ServerKeyExchangeKind);
      }
    case AwaitCertificateRequest =>
      if !HasComplete(c.engine, ServerHelloDoneKind) {
        AcceptsReads(c, CertificateRequestKind);
      }
    case AwaitServerHelloDone => AcceptsReads(c, ServerHelloDoneKind);
  }

  /** A transition that sends and hashes nothing: what is left to show is what it knows. */
  lemma NothingSent(c: C.Client, c': C.Client, server: seq<Message>, story: seq<Message>)
    requires ClientBefore(c, server, story)
    requires c'.engine.sent == c.engine.sent && c'.sessionHash == c.sessionHash
    requires BeforeKeyExchange(c.state) <==> BeforeKeyExchange(c'.state)
    requires WritingLast(c.state) <==> WritingLast(c'.state)
    requires Numbered(c'.engine) && Hears(c'.engine, server) && ClientKnows(c', server, story)
    requires HellosValid(c'.random, c'.cookie, c.engine.sent, server)
    ensures ClientKeeps(c, c', server, story)
  {
    assert ClientHashed(c', server, story);
    assert ClientSigned(c', server, story) by {
      forall j | 0 <= j < |c'.engine.sent|
        ensures SignedOver(c'.engine.sent[j], j, server, story, c'.sessionHash)
      {
        assert SignedOver(c.engine.sent[j], j, server, story, c.sessionHash);
      }
    }
  }

  lemma FlightReadKnows(c: C.Client, c': C.Client, server: seq<Message>, story: seq<Message>)
    requires ClientHearing(c, server, story) && StoryValid(c.engine.sent, server, story)
    requires Reading(c.state) && ReadOne(c, c')
    ensures Numbered(c'.engine) && Hears(c'.engine, server) && ClientKnows(c', server, story)
  {
    var e := c.engine;
    if e.peerSeqNo in e.received && c'.engine.peerSeqNo != e.peerSeqNo {
      ReadHears(e, server);
      assert story[1 + e.peerSeqNo - Base(server)] == server[e.peerSeqNo];
      assert KindOf(server[e.peerSeqNo].body) == ServerHelloDoneKind <==> e.peerSeqNo == Done(server);
    }
  }

  lemma LastReadKnows(c: C.Client, c': C.Client, server: seq<Message>, story: seq<Message>)
    requires ClientHearing(c, server, story) && StoryValid(c.engine.sent, server, story)
    requires Waiting(c.state) && ReadOne(c, c') && !Has(server, NewSessionTicketKind)
    ensures Numbered(c'.engine) && Hears(c'.engine, server) && ClientKnows(c', server, story)
  {
    var e := c.engine;
    if e.peerSeqNo in e.received && c'.engine.peerSeqNo != e.peerSeqNo {
      ReadHears(e, server);
      assert KindOf(server[e.peerSeqNo].body) != NewSessionTicketKind;
      FinishedRead(c, c', server, story);
    }
  }

  /** What is left to read is the server's Finished, the last of the story. */
  lemma FinishedRead(c: C.Client, c': C.Client, server: seq<Message>, story: seq<Message>)
    requires ClientKnows(c, server, story) && StoryValid(c.engine.sent, server, story) && Waiting(c.state)
    requires c.engine.peerSeqNo < |server| && c'.state.AwaitApplicationData? && c'.cookie == c.cookie
    requires c'.engine.sent == c.engine.sent && c'.engine.peerSeqNo == c.engine.peerSeqNo + 1
    requires c'.engine.transcript == c.engine.transcript + [server[c.engine.peerSeqNo]]
    ensures ClientKnows(c', server, story)
  {
    var n := c.engine.peerSeqNo;
    assert n == Done(server) + 1 && story[|story| - 1] == server[n];
    assert story[|story| - 1] == server[|server| - 1];
    assert |c.engine.transcript| == |story| - 1;
  }

  lemma ReadOneSendsNothing(c: C.Client, c': C.Client)
    requires ReadOne(c, c') && (Reading(c.state) || Waiting(c.state))
    ensures c'.engine.sent == c.engine.sent && c'.sessionHash == c.sessionHash
    ensures c'.random == c.random && c'.cookie == c.cookie
    ensures BeforeKeyExchange(c.state) <==> BeforeKeyExchange(c'.state)
    ensures WritingLast(c.state) <==> WritingLast(c'.state)
  {
  }

  /** Within the server's flight the next message is the next of the story. */
  lemma FlightReadKeeps(c: C.Client, c': C.Client, server: seq<Message>, story: seq<Message>)
    requires ClientBefore(c, server, story) && Reading(c.state) && ReadOne(c, c')
    ensures ClientKeeps(c, c', server, story)
  {
    FlightReadKnows(c, c', server, story);
    ReadOneSendsNothing(c, c');
    NothingSent(c, c', server, story);
  }

  /** After its own flight the client reads the server's Finished, the last of the story. */
  lemma LastReadKeeps(c: C.Client, c': C.Client, server: seq<Message>, story: seq<Message>)
    requires ClientBefore(c, server, story) && Waiting(c.state) && ReadOne(c, c')
    ensures ClientKeeps(c, c', server, story)
  {
    LastReadKnows(c, c', server, story);
    ReadOneSendsNothing(c, c');
    NothingSent(c, c', server, story);
  }

  lemma ClientReadsFlight(c: C.Client, server: seq<Message>, story: seq<Message>, content: nat)
    requires ClientBefore(c, server, story) && Reading(c.state) && C.ClientStep(c, content).Some?
    ensures ClientKeeps(c, C.ClientStep(c, content).value, server, story)
  {
    ReadingReads(c, content);
    FlightReadKeeps(c, C.ClientStep(c, content).value, server, story);
  }

  /** `c'` is `c` after writing one message of its flight, `m`. */
  ghost predicate Wrote(c: C.Client, c': C.Client, m: Message) {
    && (WritingFirst(c.state) || WritingLast(c.state))
    && (WritingFirst(c'.state) || WritingLast(c'.state) || Waiting(c'.state))
    && m.seqNo == c.engine.nextSeqNo && !m.body.ClientHelloBody? && !m.body.HelloVerifyRequestBody?
    && c'.engine == Create(c.engine, m.body, m.content)
    && c'.random == c.random && c'.cookie == c.cookie
  }

  /** It is the next message of the story. */
  lemma WroteNext(c: C.Client, c': C.Client, m: Message, server: seq<Message>, story: seq<Message>)
    requires ClientKnows(c, server, story) && StoryValid(c.engine.sent, server, story) && Wrote(c, c', m)
    requires First(c.engine.sent, FinishedKind) == |c.engine.sent|
    ensures c.engine.transcript == story && |server| == Done(server) + 1
    ensures c'.engine.sent == c.engine.sent + [m] && c'.engine.transcript == story + [m]
    ensures Told(story, c.engine.sent, c'.engine.sent) == story + [m]
    ensures |story| == ClientPlace(server, |c.engine.sent|)
  {
    assert !Has(c.engine.sent, FinishedKind);
    assert |server| == Done(server) + 1;
    PrefixesEqual(c.engine.transcript, story, story);
  }

  lemma WroteStory(c: C.Client, c': C.Client, m: Message, server: seq<Message>, story: seq<Message>)
    requires ClientKnows(c, server, story) && StoryValid(c.engine.sent, server, story) && Wrote(c, c', m)
    requires HellosValid(c.random, c.cookie, c.engine.sent, server)
    requires First(c.engine.sent, FinishedKind) == |c.engine.sent|
    ensures HellosValid(c'.random, c'.cookie, c'.engine.sent, server)
    ensures StoryValid(c'.engine.sent, server, story + [m])
  {
    WroteNext(c, c', m, server, story);
    FirstAppend(c.engine.sent, m, FinishedKind);
  }

  lemma WroteKnows(c: C.Client, c': C.Client, m: Message, server: seq<Message>, story: seq<Message>)
    requires ClientHearing(c, server, story) && StoryValid(c.engine.sent, server, story) && Wrote(c, c', m)
    requires First(c.engine.sent, FinishedKind) == |c.engine.sent|
    ensures Numbered(c'.engine) && Hears(c'.engine, server) && ClientKnows(c', server, story + [m])
  {
    WroteNext(c, c', m, server, story);
  }

  lemma WroteHashed(c: C.Client, c': C.Client, m: Message, server: seq<Message>, story: seq<Message>)
    requires ClientKnows(c, server, story) && StoryValid(c.engine.sent, server, story) && Wrote(c, c', m)
    requires ClientHashed(c, server, story) && First(c.engine.sent, FinishedKind) == |c.engine.sent|
    requires if c.state.SendClientKeyExchange? then
               && m.body.ClientKeyExchangeBody? && c'.sessionHash == Some(c'.engine.transcript)
               && !BeforeKeyExchange(c'.state)
             else
               && !m.body.ClientKeyExchangeBody? && c'.sessionHash == c.sessionHash
               && (BeforeKeyExchange(c.state) <==> BeforeKeyExchange(c'.state))
    ensures ClientHashed(c', server, story + [m])
  {
    WroteNext(c, c', m, server, story);
    FirstAppend(c.engine.sent, m, ClientKeyExchangeKind);
  }

  lemma WroteSigned(c: C.Client, c': C.Client, m: Message, server: seq<Message>, story: seq<Message>)
    requires ClientKnows(c, server, story) && StoryValid(c.engine.sent, server, story) && Wrote(c, c', m)
    requires ClientSigned(c, server, story) && First(c.engine.sent, FinishedKind) == |c.engine.sent|
    requires c.sessionHash.None? || c'.sessionHash == c.sessionHash
    requires m.body.CertificateVerifyBody? ==> m.body.signedData == story
    requires m.body.FinishedBody? <==> Waiting(c'.state)
    requires m.body.FinishedBody? ==>
               c.sessionHash.Some? && m.body.verifyData == VerifyData(true, c.sessionHash.value, story)
    ensures ClientSigned(c', server, story + [m])
  {
    WroteNext(c, c', m, server, story);
    FirstAppend(c.engine.sent, m, FinishedKind);
    var sent := c'.engine.sent;
    forall j | 0 <= j < |sent|
      ensures SignedOver(sent[j], j, server, story + [m], c'.sessionHash)
    {
      if j < |c.engine.sent| {
        assert sent[j] == c.engine.sent[j] && SignedOver(c.engine.sent[j], j, server, story, c.sessionHash);
      } else {
        assert sent[j] == m;
      }
    }
  }

  lemma WroteKeeps(c: C.Client, c': C.Client, m: Message, server: seq<Message>, story: seq<Message>)
    requires ClientBefore(c, server, story) && Wrote(c, c', m)
    requires ClientHashed(c', server, story + [m]) && ClientSigned(c', server, story + [m])
    ensures ClientKeeps(c, c', server, story)
  {
    WroteNext(c, c', m, server, story);
    WroteStory(c, c', m, server, story);
    WroteKnows(c, c', m, server, story);
  }

  lemma ClientSends(c: C.Client, server: seq<Message>, story: seq<Message>, content: nat)
    requires ClientBefore(c, server, story) && C.ClientStep(c, content).Some?
    requires WritingFirst(c.state) || c.state.SendCertificateVerify? || c.state.SendFinished?
    ensures ClientKeeps(c, C.ClientStep(c, content).value, server, story)
  {
    var c', m := ClientStepSends(c, content);
    WroteNext(c, c', m, server, story);
    WroteHashed(c, c', m, server, story);
    WroteSigned(c, c', m, server, story);
    WroteKeeps(c, c', m, server, story);
  }

  /** What those four state functions do. */
  lemma ClientStepSends(c: C.Client, content: nat) returns (c': C.Client, m: Message)
    requires WritingFirst(c.state) || c.state.SendCertificateVerify? || c.state.SendFinished?
    requires C.ClientStep(c, content).Some?
    ensures c' == C.ClientStep(c, content).value && Wrote(c, c', m)
    ensures m.body.ClientKeyExchangeBody? <==> c.state.SendClientKeyExchange?
    ensures c'.sessionHash == if c.state.SendClientKeyExchange? then Some(c'.engine.transcript) else c.sessionHash
    ensures BeforeKeyExchange(c'.state) <==> c.state.SendCertificate?
    ensures m.body.CertificateVerifyBody? ==> m.body.signedData == c.engine.transcript
    ensures m.body.FinishedBody? <==> Waiting(c'.state)
    ensures m.body.FinishedBody? ==>
              c.sessionHash.Some? && m.body.verifyData == VerifyData(true, c.sessionHash.value, c.engine.transcript)
  {
    c' := C.ClientStep(c, content).value;
    var e := c.engine;
    var body :=
      if c.state.SendCertificate? then CertificateBody(c.hasCertificate)
      else if c.state.SendClientKeyExchange? then ClientKeyExchangeBody(content % 2 == 0)
      else if c.state.SendCertificateVerify? then CertificateVerifyBody(e.transcript)
      else FinishedBody(VerifyData(true, c.sessionHash.value, e.transcript));
    m := Message(e.nextSeqNo, body, content);
    assert c'.engine == Create(e, body, content);
  }

  lemma WaitingReads(c: C.Client, content: nat)
    requires Numbered(c.engine) && (c.state.AwaitNewSessionTicket? || c.state.AwaitFinished?)
    requires forall n :: n in c.engine.received ==> c.engine.received[n].seqNo == n
    requires C.ClientStep(c, content).Some?
    ensures ReadOne(c, C.ClientStep(c, content).value)
  {
    if c.state.AwaitFinished? {
      AcceptsReads(c, FinishedKind);
    } else if !HasComplete(c.engine, FinishedKind) {
      AcceptsReads(c, NewSessionTicketKind);
    }
  }

  lemma ClientFinishes(c: C.Client, server: seq<Message>, story: seq<Message>, content: nat)
    requires ClientBefore(c, server, story) && C.ClientStep(c, content).Some?
    requires c.state.AwaitNewSessionTicket? || c.state.AwaitFinished?
    ensures ClientKeeps(c, C.ClientStep(c, content).value, server, story)
  {
    WaitingReads(c, content);
    LastReadKeeps(c, C.ClientStep(c, content).value, server, story);
  }

  lemma RestsIdle(c: C.Client, content: nat)
    requires C.ClientStep(c, content).Some?
    requires c.state.SendChangeCipherSpec? || c.state.AwaitChangeCipherSpec? || c.state.AwaitApplicationData?
             || c.state.Closed?
    ensures var c' := C.ClientStep(c, content).value; Idle(c, c') && c'.engine.received == c.engine.received
  {
  }

  lemma ClientRests(c: C.Client, server: seq<Message>, story: seq<Message>, content: nat)
    requires ClientBefore(c, server, story) && C.ClientStep(c, content).Some?
    requires c.state.SendChangeCipherSpec? || c.state.AwaitChangeCipherSpec? || c.state.AwaitApplicationData?
             || c.state.Closed?
    ensures ClientKeeps(c, C.ClientStep(c, content).value, server, story)
  {
    RestsIdle(c, content);
    ClientIdles(c, C.ClientStep(c, content).value, server, story);
  }

  /** Nothing read, written or hashed. */
  lemma IdleKnows(c: C.Client, c': C.Client, server: seq<Message>, story: seq<Message>)
    requires ClientKnows(c, server, story) && Idle(c, c')
    ensures ClientKnows(c', server, story)
  {
  }

  ghost predicate Idle(c: C.Client, c': C.Client) {
    && c'.engine.transcript == c.engine.transcript && c'.engine.sent == c.engine.sent
    && c'.engine.peerSeqNo == c.engine.peerSeqNo && c'.engine.nextSeqNo == c.engine.nextSeqNo
    && c'.random == c.random && c'.cookie == c.cookie && c'.sessionHash == c.sessionHash
    && (c'.state == c.state
        || (c.state.SendChangeCipherSpec? && c'.state.SendFinished?)
        || (Waiting(c.state) && Waiting(c'.state))
        || (c.state.AwaitApplicationData? && c'.state.Closed?))
  }

  lemma IdleHashed(c: C.Client, c': C.Client, server: seq<Message>, story: seq<Message>)
    requires ClientHashed(c, server, story) && Idle(c, c')
    ensures ClientHashed(c', server, story)
  {
  }

  lemma IdleSigned(c: C.Client, c': C.Client, server: seq<Message>, story: seq<Message>)
    requires ClientSigned(c, server, story) && Idle(c, c')
    ensures ClientSigned(c', server, story)
  {
  }

  lemma ClientIdles(c: C.Client, c': C.Client, server: seq<Message>, story: seq<Message>)
    requires ClientBefore(c, server, story) && Idle(c, c') && Hears(c'.engine, server)
    ensures ClientKeeps(c, c', server, story)
  {
    IdleKnows(c, c', server, story);
    IdleHashed(c, c', server, story);
    IdleSigned(c, c', server, story);
  }

  lemma ClientStepKeeps(c: C.Client, server: seq<Message>, story: seq<Message>, content: nat)
    requires ClientBefore(c, server, story) && C.ClientStep(c, content).Some?
    ensures ClientKeeps(c, C.ClientStep(c, content).value, server, story)
  {
    if c.state.SendClientHello? {
      ClientSaysHello(c, server, story, content);
    } else if c.state.AwaitHelloVerifyRequest? {
      ClientAwaitsCookie(c, server, story, content);
    } else if Reading(c.state) {
      ClientReadsFlight(c, server, story, content);
    } else if WritingFirst(c.state) || c.state.SendCertificateVerify? || c.state.SendFinished? {
      ClientSends(c, server, story, content);
    } else if c.state.AwaitNewSessionTicket? || c.state.AwaitFinished? {
      ClientFinishes(c, server, story, content);
    } else {
      ClientRests(c, server, story, content);
    }
  }

  // ----- The server's transitions -----

  ghost predicate ServerBefore(s: S.Server, c: C.Client, story: seq<Message>) {
    && (forall i :: 0 <= i < |c.engine.sent| ==> c.engine.sent[i].seqNo == i)
    && HellosValid(c.random, c.cookie, c.engine.sent, s.engine.sent)
    && StoryValid(c.engine.sent, s.engine.sent, story)
    && ServerValid(s, c.engine.sent, story)
  }

  ghost predicate ServerKeeps(s: S.Server, s': S.Server, c: C.Client, story: seq<Message>) {
    var story' := Told(story, s.engine.sent, s'.engine.sent);
    && (s'.engine.sent == s.engine.sent
        || (|s'.engine.sent| == |s.engine.sent| + 1
            && s'.engine.sent == s.engine.sent + [s'.engine.sent[|s.engine.sent|]]))
    && HellosValid(c.random, c.cookie, c.engine.sent, s'.engine.sent)
    && StoryValid(c.engine.sent, s'.engine.sent, story')
    && ServerValid(s', c.engine.sent, story')
  }

  ghost predicate ServerHearing(s: S.Server, client: seq<Message>, story: seq<Message>) {
    && (forall i :: 0 <= i < |client| ==> client[i].seqNo == i)
    && Numbered(s.engine) && Hears(s.engine, client) && ServerKnows(s, client, story)
  }

  /** A hello is answered with a cookie, or begins the story as it stands. */
  lemma ServerAwaitsHello(s: S.Server, c: C.Client, story: seq<Message>, content: nat)
    requires ServerBefore(s, c, story) && s.state.AwaitClientHello? && S.ServerStep(s, content).Some?
    ensures ServerKeeps(s, S.ServerStep(s, content).value, c, story)
  {
    var e, client := s.engine, c.engine.sent;
    if HasComplete(e, ClientHelloKind) {
      ReadHears(e, client);
      var (m, e') := Read(e);
      if s.config.useCookie && !S.VerifyCookie(m.body.random, m.body.cookie) {
        ServerAsksCookie(s, c, story, content);
      } else {
        ServerAcceptsHello(s, c, story);
      }
    }
  }

  /** Only the first hello, which has no cookie, is answered with one. */
  lemma ServerAsksCookie(s: S.Server, c: C.Client, story: seq<Message>, content: nat)
    requires ServerBefore(s, c, story) && s.state.AwaitClientHello? && HasComplete(s.engine, ClientHelloKind)
    requires var m := Read(s.engine).0; s.config.useCookie && !S.VerifyCookie(m.body.random, m.body.cookie)
    ensures var (m, e) := Read(s.engine);
            var asked := Create(e, HelloVerifyRequestBody(S.ComputeCookie(m.body.random)), content);
            ServerKeeps(s, s.(engine := ResetServerForHelloVerifyRequest(asked)), c, story)
  {
    ReadHears(s.engine, c.engine.sent);
    assert s.engine.sent == [];
    var (m, e) := Read(s.engine);
    FirstIsNone(Create(e, HelloVerifyRequestBody(S.ComputeCookie(m.body.random)), content).sent, NewSessionTicketKind);
  }

  lemma ServerAcceptsHello(s: S.Server, c: C.Client, story: seq<Message>)
    requires ServerBefore(s, c, story) && s.state.AwaitClientHello? && HasComplete(s.engine, ClientHelloKind)
    ensures ServerKeeps(s, s.(engine := Read(s.engine).1, state := S.ServerState.SendServerHello), c, story)
  {
    ReadHears(s.engine, c.engine.sent);
    FirstIsNone(s.engine.sent, ServerHelloDoneKind);
  }

  /** `s'` is `s` after writing `m`, a message that counts. */
  ghost predicate ServerWrote(s: S.Server, s': S.Server, m: Message) {
    && m.seqNo == s.engine.nextSeqNo
    && s'.engine == Create(s.engine, m.body, m.content).(released := s'.engine.released)
    && s'.sessionHash == s.sessionHash
    && !m.body.HelloVerifyRequestBody? && !m.body.NewSessionTicketBody? && !m.body.ClientHelloBody?
    && if s.state.SendFinished? then
         && s'.state.AwaitApplicationData? && s.sessionHash.Some?
         && m.body == FinishedBody(VerifyData(false, s.sessionHash.value, s.engine.transcript))
       else
         && ServerWriting(s.state)
         && (if s.state.SendServerHelloDone? then m.body.ServerHelloDoneBody? && ReadingFirst(s'.state)
             else !m.body.ServerHelloDoneBody? && ServerWriting(s'.state) && !s'.state.SendServerHello?)
  }

  /** Nothing was ahead of the transcript, and now the message ends it. */
  ghost predicate ServerAppended(s: S.Server, s': S.Server, m: Message, story: seq<Message>) {
    && s.engine.transcript == story && s'.engine.transcript == story + [m]
    && s'.engine.sent == s.engine.sent + [m] && Base(s'.engine.sent) == Base(s.engine.sent)
  }

  lemma ServerWroteNext(s: S.Server, s': S.Server, m: Message, client: seq<Message>, story: seq<Message>)
    requires ServerKnows(s, client, story) && StoryValid(client, s.engine.sent, story) && ServerWrote(s, s', m)
    requires s.state.SendFinished? ==> s.engine.peerSeqNo == |client|
    ensures ServerAppended(s, s', m, story) && Told(story, s.engine.sent, s'.engine.sent) == story + [m]
  {
    if ServerWriting(s.state) {
      assert |client| == Base(s.engine.sent) + 1;
    }
    PrefixesEqual(s.engine.transcript, story, story);
  }

  lemma HellosGrow(random: nat, cookie: Option<nat>, client: seq<Message>, server: seq<Message>, m: Message)
    requires HellosValid(random, cookie, client, server) && Base(server + [m]) == Base(server)
    requires !m.body.HelloVerifyRequestBody? && !m.body.NewSessionTicketBody? && !m.body.ClientHelloBody?
    ensures HellosValid(random, cookie, client, server + [m])
  {
    FirstAppend(server, m, NewSessionTicketKind);
  }

  /** A message of the server's flight, and its Finished, each end the story so far. */
  lemma FlightGrows(client: seq<Message>, server: seq<Message>, story: seq<Message>, m: Message)
    requires StoryValid(client, server, story) && |client| == Base(server) + 1
    requires Done(server) == |server| && Base(server + [m]) == Base(server)
    ensures StoryValid(client, server + [m], story + [m])
  {
    FirstAppend(server, m, ServerHelloDoneKind);
  }

  lemma LastGrows(client: seq<Message>, server: seq<Message>, story: seq<Message>, m: Message)
    requires StoryValid(client, server, story) && |client| > Base(server) && Has(client, FinishedKind)
    requires |server| == Done(server) + 1 && Base(server + [m]) == Base(server)
    ensures StoryValid(client, server + [m], story + [m])
  {
    FirstAppend(server, m, ServerHelloDoneKind);
  }

  lemma ServerWroteStory(s: S.Server, s': S.Server, m: Message, client: seq<Message>, story: seq<Message>)
    requires ServerKnows(s, client, story) && StoryValid(client, s.engine.sent, story) && ServerWrote(s, s', m)
    requires ServerAppended(s, s', m, story)
    requires s.state.SendFinished? ==> s.engine.peerSeqNo == |client| && Has(client, FinishedKind)
    ensures StoryValid(client, s'.engine.sent, story + [m])
  {
    if s.state.SendFinished? {
      LastGrows(client, s.engine.sent, story, m);
    } else {
      FlightGrows(client, s.engine.sent, story, m);
    }
  }

  lemma ServerWroteKnows(s: S.Server, s': S.Server, m: Message, client: seq<Message>, story: seq<Message>)
    requires ServerHearing(s, client, story) && ServerWrote(s, s', m) && ServerAppended(s, s', m, story)
    requires ServerWriting(s.state) ==> Done(s.engine.sent) == |s.engine.sent|
    ensures Numbered(s'.engine) && Hears(s'.engine, client) && ServerKnows(s', client, story + [m])
  {
    ServerWroteHears(s, s', m, client);
    ServerWroteOn(s, s', m, client, story);
  }

  lemma ServerWroteHears(s: S.Server, s': S.Server, m: Message, client: seq<Message>)
    requires Numbered(s.engine) && Hears(s.engine, client) && ServerWrote(s, s', m)
    ensures Numbered(s'.engine) && Hears(s'.engine, client)
  {
  }

  lemma ServerWroteOn(s: S.Server, s': S.Server, m: Message, client: seq<Message>, story: seq<Message>)
    requires ServerKnows(s, client, story) && ServerWrote(s, s', m) && ServerAppended(s, s', m, story)
    requires ServerWriting(s.state) ==> Done(s.engine.sent) == |s.engine.sent|
    ensures ServerKnows(s', client, story + [m])
  {
    FirstAppend(s.engine.sent, m, ServerHelloDoneKind);
  }

  lemma ServerWroteHashed(s: S.Server, s': S.Server, m: Message, client: seq<Message>, story: seq<Message>)
    requires ServerWrote(s, s', m) && ServerAppended(s, s', m, story) && ServerHashed(s, client, story)
    ensures ServerHashed(s', client, story + [m])
  {
    FirstAppend(s.engine.sent, m, ServerHelloDoneKind);
  }

  lemma LastSigned(server: seq<Message>, story: seq<Message>, m: Message, hash: seq<Message>)
    requires |server| == Done(server) + 1 && m.body == FinishedBody(VerifyData(false, hash, story))
    ensures ServerFinished(server + [m], story + [m], Some(hash), |story|)
    ensures Done(server + [m]) == Done(server)
  {
    FirstAppend(server, m, ServerHelloDoneKind);
  }

  lemma ServerWroteSigned(s: S.Server, s': S.Server, m: Message, client: seq<Message>, story: seq<Message>)
    requires ServerKnows(s, client, story) && ServerWrote(s, s', m) && ServerAppended(s, s', m, story)
    requires ServerSigned(s, client, story)
    ensures ServerSigned(s', client, story + [m])
  {
    if s.state.SendFinished? {
      LastSigned(s.engine.sent, story, m, s.sessionHash.value);
    } else {
      FlightUnsigned(s, s', client, story, story + [m]);
    }
  }

  /** Before the client's Finished there is nothing to sign. */
  lemma FlightUnsigned(
      s: S.Server, s': S.Server, client: seq<Message>, story: seq<Message>, story': seq<Message>)
    requires ServerSigned(s, client, story) && ServerWriting(s.state)
    requires ServerWriting(s'.state) || ReadingFirst(s'.state)
    requires s'.engine.peerSeqNo == s.engine.peerSeqNo
    ensures ServerSigned(s', client, story')
  {
  }

  lemma ServerStepWrites(s: S.Server, content: nat) returns (s': S.Server, m: Message)
    requires ServerWriting(s.state) || s.state.SendFinished?
    requires S.ServerStep(s, content).Some?
    requires s.state.SendServerKeyExchange? ==> !s.config.psk || s.config.identityHint
    ensures s' == S.ServerStep(s, content).value && ServerWrote(s, s', m)
  {
    s' := S.ServerStep(s, content).value;
    var body :=
      if s.state.SendServerHello? then ServerHelloBody(s.config.psk, true)
      else if s.state.SendCertificate? then CertificateBody(true)
      else if s.state.SendServerKeyExchange? then ServerKeyExchangeBody(!s.config.psk)
      else if s.state.SendCertificateRequest? then CertificateRequestBody(true)
      else if s.state.SendServerHelloDone? then ServerHelloDoneBody
      else FinishedBody(VerifyData(false, s.sessionHash.value, s.engine.transcript));
    m := Message(s.engine.nextSeqNo, body, content);
  }

  lemma ServerSends(s: S.Server, c: C.Client, story: seq<Message>, content: nat)
    requires ServerBefore(s, c, story) && S.ServerStep(s, content).Some?
    requires ServerWriting(s.state) || s.state.SendFinished?
    requires s.state.SendServerKeyExchange? ==> !s.config.psk || s.config.identityHint
    requires s.state.SendFinished? ==> s.engine.peerSeqNo == |c.engine.sent|
    ensures ServerKeeps(s, S.ServerStep(s, content).value, c, story)
  {
    var s', m := ServerStepWrites(s, content);
    ServerWrites(s, s', m, c, story);
  }

  lemma ServerWrites(s: S.Server, s': S.Server, m: Message, c: C.Client, story: seq<Message>)
    requires ServerBefore(s, c, story) && ServerWrote(s, s', m)
    requires s.state.SendFinished? ==> s.engine.peerSeqNo == |c.engine.sent|
    ensures ServerKeeps(s, s', c, story)
  {
    var client := c.engine.sent;
    ServerWroteNext(s, s', m, client, story);
    HellosGrow(c.random, c.cookie, client, s.engine.sent, m);
    ServerWroteStory(s, s', m, client, story);
    ServerWroteValid(s, s', m, client, story);
  }

  lemma ServerWroteValid(s: S.Server, s': S.Server, m: Message, client: seq<Message>, story: seq<Message>)
    requires ServerValid(s, client, story) && ServerWrote(s, s', m) && ServerAppended(s, s', m, story)
    requires forall i :: 0 <= i < |client| ==> client[i].seqNo == i
    ensures ServerValid(s', client, story + [m])
  {
    ServerWroteKnows(s, s', m, client, story);
    ServerWroteHashed(s, s', m, client, story);
    ServerWroteSigned(s, s', m, client, story);
  }

  /** `s'` is `s` after reading the message it waited for, or none. */
  ghost predicate ServerReadOne(s: S.Server, s': S.Server) {
    if s.engine.peerSeqNo in s.engine.received && s'.engine.peerSeqNo != s.engine.peerSeqNo then
      var (m, e) := Read(s.engine);
      && s'.engine == e
      && (if m.body.ClientKeyExchangeBody? then
            ReadingFirst(s.state) && ReadingLast(s'.state) && s'.sessionHash == Some(e.transcript)
          else
            && s'.sessionHash == s.sessionHash
            && if m.body.FinishedBody? then ReadingLast(s.state) && ServerFinishing(s'.state)
               else
                 && (ReadingFirst(s.state) <==> ReadingFirst(s'.state))
                 && (ReadingLast(s.state) <==> ReadingLast(s'.state)))
    else
      && s'.engine == s.engine && s'.sessionHash == s.sessionHash && s'.state == s.state
  }

  lemma ServerAcceptsReads(s: S.Server, wanted: Kind)
    requires Numbered(s.engine) && S.ServerReads(s, wanted).Some?
    requires HasComplete(s.engine, wanted) ==> s.engine.received[s.engine.peerSeqNo].seqNo == s.engine.peerSeqNo
    requires match s.state
             case AwaitCertificate => wanted == CertificateKind
             case AwaitClientKeyExchange => wanted == ClientKeyExchangeKind
             case AwaitCertificateVerify => wanted == CertificateVerifyKind
             case AwaitFinished => wanted == FinishedKind
             case _ => false
    ensures ServerReadOne(s, S.ServerReads(s, wanted).value)
  {
  }

  /** The client's flight, heard message by message, is the next of the story. */
  lemma ServerReadKnows(s: S.Server, s': S.Server, client: seq<Message>, story: seq<Message>)
    requires ServerHearing(s, client, story) && StoryValid(client, s.engine.sent, story)
    requires (ReadingFirst(s.state) || ReadingLast(s.state)) && ServerReadOne(s, s')
    ensures Numbered(s'.engine) && Hears(s'.engine, client) && ServerKnows(s', client, story)
  {
    var e := s.engine;
    if e.peerSeqNo in e.received && s'.engine.peerSeqNo != e.peerSeqNo {
      ReadHears(e, client);
      assert story[ClientPlace(e.sent, e.peerSeqNo)] == client[e.peerSeqNo];
    }
  }

  /** Reading the client's first ClientKeyExchange is the moment the server hashes. */
  lemma ServerHashes(s: S.Server, s': S.Server, client: seq<Message>, story: seq<Message>)
    requires ServerKnows(s', client, story)
    requires ReadingLast(s'.state) && s'.engine.sent == s.engine.sent
    requires s'.engine.peerSeqNo == s.engine.peerSeqNo + 1 && Base(s.engine.sent) < s.engine.peerSeqNo < |client|
    requires client[s.engine.peerSeqNo].body.ClientKeyExchangeBody?
    requires First(client, ClientKeyExchangeKind) >= s.engine.peerSeqNo
    requires s'.sessionHash == Some(s'.engine.transcript)
    ensures ServerHashed(s', client, story)
  {
    assert First(client, ClientKeyExchangeKind) == s.engine.peerSeqNo;
  }

  /** Hearing a message that is not the first of a kind leaves that one ahead. */
  lemma KindAhead(client: seq<Message>, n: nat, kind: Kind)
    requires n < |client| && First(client, kind) >= n
    ensures KindOf(client[n].body) == kind ==> First(client, kind) == n
    ensures KindOf(client[n].body) != kind ==> First(client, kind) >= n + 1
  {
    var first := First(client, kind);
    assert forall j :: 0 <= j < first ==> KindOf(client[j].body) != kind;
    FirstOfKindAhead(client, n, first, kind);
  }

  lemma FirstOfKindAhead(client: seq<Message>, n: nat, first: nat, kind: Kind)
    requires n < |client| && n <= first <= |client|
    requires first < |client| ==> KindOf(client[first].body) == kind
    requires forall j :: 0 <= j < first ==> KindOf(client[j].body) != kind
    ensures KindOf(client[n].body) == kind ==> first == n
    ensures KindOf(client[n].body) != kind ==> first >= n + 1
  {
  }

  lemma ServerReadHashed(s: S.Server, s': S.Server, client: seq<Message>, story: seq<Message>)
    requires (forall i :: 0 <= i < |client| ==> client[i].seqNo == i) && Numbered(s.engine) && Hears(s.engine, client)
    requires !s.state.AwaitClientHello? && Base(s.engine.sent) < s.engine.peerSeqNo
    requires (ReadingFirst(s.state) || ReadingLast(s.state)) && ServerReadOne(s, s')
    requires ServerHashed(s, client, story) && ServerKnows(s', client, story)
    ensures ServerHashed(s', client, story)
  {
    var e := s.engine;
    if e.peerSeqNo in e.received && s'.engine.peerSeqNo != e.peerSeqNo {
      ReadHears(e, client);
      var m := client[e.peerSeqNo];
      assert Read(e).0 == m && s'.engine == Read(e).1;
      if m.body.ClientKeyExchangeBody? {
        ServerHashes(s, s', client, story);
      } else if ReadingFirst(s.state) {
        KindAhead(client, e.peerSeqNo, ClientKeyExchangeKind);
        StillUnhashed(s, s', client, story);
      } else {
        StillHashed(s, s', client, story);
      }
    }
  }

  lemma StillUnhashed(s: S.Server, s': S.Server, client: seq<Message>, story: seq<Message>)
    requires ServerHashed(s, client, story) && ReadingFirst(s.state) && ReadingFirst(s'.state)
    requires s'.sessionHash == s.sessionHash && First(client, ClientKeyExchangeKind) >= s'.engine.peerSeqNo
    ensures ServerHashed(s', client, story)
  {
  }

  lemma StillHashed(s: S.Server, s': S.Server, client: seq<Message>, story: seq<Message>)
    requires ServerHashed(s, client, story) && ReadingLast(s.state)
    requires ReadingLast(s'.state) || ServerFinishing(s'.state)
    requires s'.sessionHash == s.sessionHash && s'.engine.sent == s.engine.sent
    requires s'.engine.peerSeqNo >= s.engine.peerSeqNo
    ensures ServerHashed(s', client, story)
  {
  }

  lemma ServerReadSigned(s: S.Server, s': S.Server, client: seq<Message>, story: seq<Message>)
    requires (forall i :: 0 <= i < |client| ==> client[i].seqNo == i) && Numbered(s.engine) && Hears(s.engine, client)
    requires (ReadingFirst(s.state) || ReadingLast(s.state)) && ServerReadOne(s, s')
    requires ServerSigned(s, client, story)
    ensures ServerSigned(s', client, story)
  {
    var e := s.engine;
    if e.peerSeqNo in e.received && s'.engine.peerSeqNo != e.peerSeqNo {
      ReadHears(e, client);
      KindAhead(client, e.peerSeqNo, FinishedKind);
    }
  }

  lemma ServerHearsFlight(s: S.Server, c: C.Client, story: seq<Message>, content: nat)
    requires ServerBefore(s, c, story) && S.ServerStep(s, content).Some?
    requires (ReadingFirst(s.state) || ReadingLast(s.state)) && !s.state.AwaitChangeCipherSpec?
    ensures ServerKeeps(s, S.ServerStep(s, content).value, c, story)
  {
    var s' := S.ServerStep(s, content).value;
    ServerStepReads(s, content);
    ServerReadKnows(s, s', c.engine.sent, story);
    ServerReadHashed(s, s', c.engine.sent, story);
    ServerReadSigned(s, s', c.engine.sent, story);
  }

  lemma ServerStepReads(s: S.Server, content: nat)
    requires Numbered(s.engine) && S.ServerStep(s, content).Some?
    requires forall n :: n in s.engine.received ==> s.engine.received[n].seqNo == n
    requires (ReadingFirst(s.state) || ReadingLast(s.state)) && !s.state.AwaitChangeCipherSpec?
    ensures ServerReadOne(s, S.ServerStep(s, content).value)
    ensures S.ServerStep(s, content).value.engine.sent == s.engine.sent
  {
    match s.state
    case AwaitCertificate => ServerAcceptsReads(s, CertificateKind);
    case AwaitClientKeyExchange => ServerAcceptsReads(s, ClientKeyExchangeKind);
    case AwaitCertificateVerify => ServerAcceptsReads(s, CertificateVerifyKind);
    case AwaitFinished => ServerAcceptsReads(s, FinishedKind);
  }

  ghost predicate ServerIdle(s: S.Server, s': S.Server) {
    && s'.engine.transcript == s.engine.transcript && s'.engine.sent == s.engine.sent
    && s'.engine.peerSeqNo == s.engine.peerSeqNo && s'.engine.nextSeqNo == s.engine.nextSeqNo
    && s'.sessionHash == s.sessionHash
    && (s'.state == s.state
        || (ServerWriting(s.state) && ServerWriting(s'.state)
            && !s.state.SendServerHello? && !s'.state.SendServerHello?)
        || (s.state.AwaitChangeCipherSpec? && ReadingLast(s'.state))
        || (ServerFinishing(s.state) && ServerFinishing(s'.state))
        || (s.state.AwaitApplicationData? && s'.state.Closed?))
  }

  lemma ServerIdles(s: S.Server, s': S.Server, c: C.Client, story: seq<Message>)
    requires ServerBefore(s, c, story) && ServerIdle(s, s') && Hears(s'.engine, c.engine.sent)
    ensures ServerKeeps(s, s', c, story)
  {
    IdleServerKnows(s, s', c.engine.sent, story);
    IdleServerHashed(s, s', c.engine.sent, story);
    IdleServerSigned(s, s', c.engine.sent, story);
  }

  lemma IdleServerKnows(s: S.Server, s': S.Server, client: seq<Message>, story: seq<Message>)
    requires ServerIdle(s, s') && ServerKnows(s, client, story)
    ensures ServerKnows(s', client, story)
  {
  }

  lemma IdleServerHashed(s: S.Server, s': S.Server, client: seq<Message>, story: seq<Message>)
    requires ServerIdle(s, s') && ServerHashed(s, client, story)
    ensures ServerHashed(s', client, story)
  {
  }

  lemma IdleServerSigned(s: S.Server, s': S.Server, client: seq<Message>, story: seq<Message>)
    requires ServerIdle(s, s') && ServerSigned(s, client, story)
    ensures ServerSigned(s', client, story)
  {
  }

  lemma ServerStepIdles(s: S.Server, content: nat)
    requires S.ServerStep(s, content).Some?
    requires s.state.AwaitChangeCipherSpec? || s.state.SendChangeCipherSpec? || s.state.AwaitApplicationData?
             || s.state.Closed? || (s.state.SendServerKeyExchange? && s.config.psk && !s.config.identityHint)
    ensures var s' := S.ServerStep(s, content).value;
            ServerIdle(s, s') && s'.engine.received == s.engine.received
  {
  }

  lemma ServerStepKeeps(s: S.Server, c: C.Client, story: seq<Message>, content: nat)
    requires ServerBefore(s, c, story) && S.ServerStep(s, content).Some?
    requires s.state.SendFinished? ==> s.engine.peerSeqNo == |c.engine.sent|
    ensures ServerKeeps(s, S.ServerStep(s, content).value, c, story)
  {
    if s.state.AwaitClientHello? {
      ServerAwaitsHello(s, c, story, content);
    } else if s.state.AwaitChangeCipherSpec? || s.state.SendChangeCipherSpec? || s.state.AwaitApplicationData?
              || s.state.Closed? || (s.state.SendServerKeyExchange? && s.config.psk && !s.config.identityHint) {
      ServerStepIdles(s, content);
      ServerIdles(s, S.ServerStep(s, content).value, c, story);
    } else if ServerWriting(s.state) || s.state.SendFinished? {
      ServerSends(s, c, story, content);
    } else {
      ServerHearsFlight(s, c, story, content);
    }
  }

  // ----- Whole runs -----

  /** When the server asks for a cookie the client has said its first hello at most. */
  lemma ClientStartsAfresh(c: C.Client, m: Message, story: seq<Message>)
    requires ClientValid(c, [], story) && m.body.HelloVerifyRequestBody?
    requires |c.engine.sent| > 0 ==> c.engine.sent[0].body.ClientHelloBody?
    ensures ClientValid(c, [m], [])
  {
    forall j | 0 <= j < |c.engine.sent|
      ensures SignedOver(c.engine.sent[j], j, [m], [], c.sessionHash)
    {
      assert j == 0;
    }
  }

  lemma ClientMoveAgrees(sys: System, content: nat)
    requires Agree(sys) && Enabled(sys, ClientMoves(content))
    ensures Agree(Next(sys, ClientMoves(content)))
  {
    var (c, s) := (sys.client, sys.server);
    ClientStepKeeps(c, s.engine.sent, sys.story, content);
    var c' := C.ClientStep(c, content).value;
    if c'.engine.sent != c.engine.sent {
      ServerStable(s, c.engine.sent, c'.engine.sent[|c.engine.sent|], sys.story);
    }
  }

  /** What a server transition leaves the client knowing. */
  lemma ServerMoveStable(s: S.Server, s': S.Server, c: C.Client, story: seq<Message>)
    requires ServerKeeps(s, s', c, story) && ServerKnows(s, c.engine.sent, story)
    requires ClientValid(c, s.engine.sent, story)
    requires |c.engine.sent| > 0 ==> c.engine.sent[0].body.ClientHelloBody?
    ensures ClientValid(c, s'.engine.sent, Told(story, s.engine.sent, s'.engine.sent))
  {
    if s'.engine.sent != s.engine.sent {
      var m := s'.engine.sent[|s.engine.sent|];
      if m.body.HelloVerifyRequestBody? {
        assert s.engine.sent == [];
        ClientStartsAfresh(c, m, story);
      } else {
        ClientStable(c, s.engine.sent, m, story);
      }
    }
  }

  /** A server that has read the client's Finished has read it last. */
  lemma PastFinished(s: S.Server, client: seq<Message>, story: seq<Message>)
    requires ServerSigned(s, client, story) && (s.state.SendFinished? || s.state.AwaitApplicationData?)
    ensures Has(client, FinishedKind) && s.engine.peerSeqNo == First(client, FinishedKind) + 1
  {
  }

  lemma ServerMayFinish(sys: System)
    requires Agree(sys)
    ensures sys.server.state.SendFinished? ==> sys.server.engine.peerSeqNo == |sys.client.engine.sent|
  {
    if sys.server.state.SendFinished? {
      PastFinished(sys.server, sys.client.engine.sent, sys.story);
      FinishedIsLast(sys);
    }
  }

  lemma ServerMoveAgrees(sys: System, content: nat)
    requires Agree(sys) && Enabled(sys, ServerMoves(content))
    ensures Agree(Next(sys, ServerMoves(content)))
  {
    ServerMayFinish(sys);
    ServerStepKeeps(sys.server, sys.client, sys.story, content);
    ServerMoved(sys, S.ServerStep(sys.server, content).value);
  }

  lemma ServerMoved(sys: System, s': S.Server)
    requires Agree(sys) && ServerKeeps(sys.server, s', sys.client, sys.story)
    ensures Agree(System(sys.client, s', Told(sys.story, sys.server.engine.sent, s'.engine.sent)))
  {
    ServerMoveStable(sys.server, s', sys.client, sys.story);
  }

  lemma FinishedIsLast(sys: System)
    requires Agree(sys) && Has(sys.client.engine.sent, FinishedKind)
    ensures First(sys.client.engine.sent, FinishedKind) == |sys.client.engine.sent| - 1
  {
    SignedLast(sys.client, sys.server.engine.sent, sys.story);
  }

  lemma SignedLast(c: C.Client, server: seq<Message>, story: seq<Message>)
    requires ClientSigned(c, server, story) && Has(c.engine.sent, FinishedKind)
    ensures First(c.engine.sent, FinishedKind) == |c.engine.sent| - 1
  {
  }

  lemma ArrivalKeepsHearing(sys: System, step: Step)
    requires Numbered(sys.client.engine) && Hears(sys.client.engine, sys.server.engine.sent)
    requires Numbered(sys.server.engine) && Hears(sys.server.engine, sys.client.engine.sent)
    requires Enabled(sys, step) && !step.ClientMoves? && !step.ServerMoves?
    ensures var next := Next(sys, step);
            && Idle(sys.client, next.client) && Hears(next.client.engine, sys.server.engine.sent)
            && ServerIdle(sys.server, next.server) && Hears(next.server.engine, sys.client.engine.sent)
            && next.story == sys.story
  {
    match step
    case ToClient(i) => ArriveHears(sys.client.engine, sys.server.engine.sent, i);
    case ToServer(i) => ArriveHears(sys.server.engine, sys.client.engine.sent, i);
    case _ =>
  }

  lemma ArriveHears(e: Engine, peer: seq<Message>, i: nat)
    requires Hears(e, peer) && i < |peer| && peer[i].seqNo == i
    ensures Hears(Arrive(e, peer[i]), peer)
  {
  }

  lemma ArrivalsAgree(sys: System, step: Step)
    requires Agree(sys) && Enabled(sys, step) && !step.ClientMoves? && !step.ServerMoves?
    ensures Agree(Next(sys, step))
  {
    var next := Next(sys, step);
    ArrivalKeepsHearing(sys, step);
    ClientIdles(sys.client, next.client, sys.server.engine.sent, sys.story);
    ServerIdles(sys.server, next.server, sys.client, sys.story);
  }

  lemma NextAgrees(sys: System, step: Step)
    requires Agree(sys) && Enabled(sys, step)
    ensures Agree(Next(sys, step))
  {
    match step
    case ClientMoves(content) => ClientMoveAgrees(sys, content);
    case ServerMoves(content) => ServerMoveAgrees(sys, content);
    case _ => ArrivalsAgree(sys, step);
  }

  lemma {:induction false} RunAgrees(sys: System, steps: seq<Step>)
    requires Agree(sys) && EnabledRun(sys, steps)
    ensures Agree(Run(sys, steps))
    decreases |steps|
  {
    if steps != [] {
      NextAgrees(sys, steps[0]);
      RunAgrees(Next(sys, steps[0]), steps[1..]);
    }
  }

  /** A plain start, or one from a hybrid ClientHello. */
  datatype Origin = Plain | Hybrid(content: nat)

  function Start(origin: Origin, random: nat, hasCertificate: bool, config: S.ServerConfig): System {
    var client := match origin
      case Plain => C.NewClient(random, hasCertificate)
      case Hybrid(content) => C.NewFromHybrid(random, hasCertificate, content);
    System(client, S.NewServer(config), client.engine.transcript)
  }

  lemma StartAgrees(origin: Origin, random: nat, hasCertificate: bool, config: S.ServerConfig)
    ensures Agree(Start(origin, random, hasCertificate, config))
  {
    var sys := Start(origin, random, hasCertificate, config);
    FirstIsNone(sys.client.engine.sent, ClientKeyExchangeKind);
    FirstIsNone(sys.client.engine.sent, FinishedKind);
  }

  ghost predicate Reached(origin: Origin, random: nat, hasCertificate: bool, config: S.ServerConfig,
                          steps: seq<Step>, sys: System) {
    EnabledRun(Start(origin, random, hasCertificate, config), steps)
    && sys == Run(Start(origin, random, hasCertificate, config), steps)
  }

  lemma ReachedAgrees(origin: Origin, random: nat, hasCertificate: bool, config: S.ServerConfig,
                      steps: seq<Step>, sys: System)
    requires Reached(origin, random, hasCertificate, config, steps, sys)
    ensures Agree(sys)
  {
    StartAgrees(origin, random, hasCertificate, config);
    RunAgrees(Start(origin, random, hasCertificate, config), steps);
  }

  predicate ClientPastHellos(c: C.Client) {
    !c.state.SendClientHello? && !c.state.AwaitHelloVerifyRequest?
  }

  predicate ServerPastHellos(s: S.Server) {
    !s.state.AwaitClientHello?
  }

  /** In every run, with or without the cookie exchange and from either start: past the
      hellos one transcript is always a prefix of the other, the session hashes the two
      sides capture are the same, and two finished sides have the same transcript. */
  lemma TranscriptsAgree(origin: Origin, random: nat, hasCertificate: bool, config: S.ServerConfig,
                         steps: seq<Step>, sys: System)
    requires Reached(origin, random, hasCertificate, config, steps, sys)
    ensures var (c, s) := (sys.client, sys.server);
            && (ClientPastHellos(c) && ServerPastHellos(s) ==>
                  c.engine.transcript <= s.engine.transcript || s.engine.transcript <= c.engine.transcript)
            && (c.sessionHash.Some? && s.sessionHash.Some? ==> c.sessionHash == s.sessionHash)
            && (c.state.AwaitApplicationData? && s.state.AwaitApplicationData? ==>
                  c.engine.transcript == s.engine.transcript)
  {
    ReachedAgrees(origin, random, hasCertificate, config, steps, sys);
    HashesAgree(sys);
    if ClientPastHellos(sys.client) && ServerPastHellos(sys.server) {
      PrefixesCompare(sys.client.engine.transcript, sys.server.engine.transcript, sys.story);
    }
    FinishedAgree(sys);
  }

  lemma HashesAgree(sys: System)
    requires Agree(sys)
    ensures sys.client.sessionHash.Some? && sys.server.sessionHash.Some?
            ==> sys.client.sessionHash == sys.server.sessionHash
  {
    var (c, s) := (sys.client, sys.server);
    if c.sessionHash.Some? && s.sessionHash.Some? {
      assert HashedAt(c.engine.sent, s.engine.sent, sys.story, c.sessionHash.value);
      assert HashedAt(c.engine.sent, s.engine.sent, sys.story, s.sessionHash.value);
      PrefixesEqual(c.sessionHash.value, s.sessionHash.value, sys.story);
    }
  }

  lemma FinishedAgree(sys: System)
    requires Agree(sys)
    ensures sys.client.state.AwaitApplicationData? && sys.server.state.AwaitApplicationData?
            ==> sys.client.engine.transcript == sys.server.engine.transcript
  {
    FinishedIsLastWhen(sys);
    BothFinished(sys.client, sys.server, sys.story);
  }

  lemma FinishedIsLastWhen(sys: System)
    requires Agree(sys)
    ensures sys.server.state.AwaitApplicationData? ==> sys.server.engine.peerSeqNo == |sys.client.engine.sent|
  {
    if sys.server.state.AwaitApplicationData? {
      PastFinished(sys.server, sys.client.engine.sent, sys.story);
      FinishedIsLast(sys);
    }
  }

  lemma BothFinished(c: C.Client, s: S.Server, story: seq<Message>)
    requires ClientKnows(c, s.engine.sent, story) && ServerKnows(s, c.engine.sent, story)
    requires s.state.AwaitApplicationData? ==> s.engine.peerSeqNo == |c.engine.sent|
    ensures c.state.AwaitApplicationData? && s.state.AwaitApplicationData?
            ==> c.engine.transcript == s.engine.transcript
  {
    if c.state.AwaitApplicationData? && s.state.AwaitApplicationData? {
      PrefixesEqual(c.engine.transcript, s.engine.transcript, story);
    }
  }

  lemma PrefixesCompare(a: seq<Message>, b: seq<Message>, story: seq<Message>)
    requires a <= story && b <= story
    ensures a <= b || b <= a
  {
  }

  /** The Finished or CertificateVerify the server waits for, if it is there, is over the
      server's own transcript and session hash. */
  ghost predicate ServerPasses(s: S.Server) {
    && (s.state.AwaitFinished? && HasComplete(s.engine, FinishedKind) ==>
          && s.sessionHash.Some?
          && s.engine.received[s.engine.peerSeqNo].body
             == FinishedBody(VerifyData(true, s.sessionHash.value, s.engine.transcript)))
    && (s.state.AwaitCertificateVerify? && HasComplete(s.engine, CertificateVerifyKind) ==>
          s.engine.received[s.engine.peerSeqNo].body == CertificateVerifyBody(s.engine.transcript))
  }

  ghost predicate ClientPasses(c: C.Client) {
    c.state.AwaitFinished? && HasComplete(c.engine, FinishedKind) ==>
      && c.sessionHash.Some?
      && c.engine.received[c.engine.peerSeqNo].body
         == FinishedBody(VerifyData(false, c.sessionHash.value, c.engine.transcript))
  }

  lemma AgreedServerPasses(sys: System)
    requires Agree(sys)
    ensures ServerPasses(sys.server)
  {
    var (c, s) := (sys.client, sys.server);
    if (s.state.AwaitFinished? || s.state.AwaitCertificateVerify?) && s.engine.peerSeqNo in s.engine.received {
      var j := s.engine.peerSeqNo;
      var m := c.engine.sent[j];
      assert SignedOver(m, j, s.engine.sent, sys.story, c.sessionHash);
      if m.body.FinishedBody? {
        PrefixesEqual(m.body.verifyData.transcript, s.engine.transcript, sys.story);
        PrefixesEqual(c.sessionHash.value, s.sessionHash.value, sys.story);
      } else if m.body.CertificateVerifyBody? {
        PrefixesEqual(m.body.signedData, s.engine.transcript, sys.story);
      }
    }
  }

  lemma AgreedClientPasses(sys: System)
    requires Agree(sys)
    ensures ClientPasses(sys.client)
  {
    var (c, s) := (sys.client, sys.server);
    if c.state.AwaitFinished? && HasComplete(c.engine, FinishedKind) {
      FinishedIsLast(sys);
      FinishedHeard(sys);
      var tag := s.engine.sent[Done(s.engine.sent) + 1].body.verifyData;
      PrefixesEqual(tag.transcript, c.engine.transcript, sys.story);
      PrefixesEqual(c.sessionHash.value, s.sessionHash.value, sys.story);
    }
  }

  /** The Finished a client hears is the server's last message, behind its flight. */
  lemma FinishedHeard(sys: System)
    requires Agree(sys) && sys.client.state.AwaitFinished? && HasComplete(sys.client.engine, FinishedKind)
    ensures var e, server := sys.client.engine, sys.server.engine.sent;
            && Done(server) + 1 < |server| && e.peerSeqNo == Done(server) + 1
            && e.received[e.peerSeqNo] == server[Done(server) + 1]
  {
  }

  /** Each signature and MAC that can be read is over the reader's own transcript, so no
      check of an honest peer's handshake fails. */
  lemma ServerChecksPass(origin: Origin, random: nat, hasCertificate: bool, config: S.ServerConfig,
                         steps: seq<Step>, sys: System)
    requires Reached(origin, random, hasCertificate, config, steps, sys)
    ensures ServerPasses(sys.server)
  {
    ReachedAgrees(origin, random, hasCertificate, config, steps, sys);
    AgreedServerPasses(sys);
  }

  lemma ClientChecksPass(origin: Origin, random: nat, hasCertificate: bool, config: S.ServerConfig,
                         steps: seq<Step>, sys: System)
    requires Reached(origin, random, hasCertificate, config, steps, sys)
    ensures ClientPasses(sys.client)
  {
    ReachedAgrees(origin, random, hasCertificate, config, steps, sys);
    AgreedClientPasses(sys);
  }

  /** The exchange that asked for a cookie leaves no trace: past the hellos a transcript
      opens with the ClientHello that was accepted, the one with the cookie if one was
      asked for, and holds no other hello and no HelloVerifyRequest. */
  ghost predicate OneHello(transcript: seq<Message>, random: nat, cookie: Option<nat>) {
    && transcript != [] && transcript[0].body == ClientHelloBody(random, cookie)
    && forall i :: 0 < i < |transcript| ==>
         !transcript[i].body.ClientHelloBody? && !transcript[i].body.HelloVerifyRequestBody?
  }

  lemma StoryHasOneHello(sys: System)
    requires Agree(sys) && |sys.client.engine.sent| > Base(sys.server.engine.sent)
    ensures OneHello(sys.story, sys.client.random,
                     if Base(sys.server.engine.sent) == 1 then Some(S.ComputeCookie(sys.client.random)) else None)
  {
    var (client, server, story) := (sys.client.engine.sent, sys.server.engine.sent, sys.story);
    var b, done := Base(server), Done(server);
    forall i | 0 < i < |story|
      ensures !story[i].body.ClientHelloBody? && !story[i].body.HelloVerifyRequestBody?
    {
      StoryAt(client, server, story, i);
    }
  }

  /** Every message of the story is one of the two sides', past its hello. */
  lemma StoryAt(client: seq<Message>, server: seq<Message>, story: seq<Message>, i: nat)
    requires StoryValid(client, server, story) && |client| > Base(server) && 0 < i < |story|
    ensures var b := Base(server);
            || (exists j :: b <= j < |server| && story[i] == server[j])
            || (exists j :: b < j < |client| && story[i] == client[j])
  {
    var b, done := Base(server), Done(server);
    if b + i - 1 < |server| && b + i - 1 <= done {
      assert story[1 + (b + i - 1) - b] == server[b + i - 1];
    } else {
      var j := i - done - 1 + 2 * b;
      if j < |client| {
        assert story[ClientPlace(server, j)] == client[j];
      } else {
        assert story[|story| - 1] == server[|server| - 1];
      }
    }
  }

  lemma CookieExchangeAbsent(origin: Origin, random: nat, hasCertificate: bool, config: S.ServerConfig,
                             steps: seq<Step>, sys: System)
    requires Reached(origin, random, hasCertificate, config, steps, sys)
    ensures var cookie := if Base(sys.server.engine.sent) == 1 then Some(S.ComputeCookie(random)) else None;
            && (ClientPastHellos(sys.client) ==> OneHello(sys.client.engine.transcript, random, cookie))
            && (ServerPastHellos(sys.server) ==> OneHello(sys.server.engine.transcript, random, cookie))
    ensures Base(sys.server.engine.sent) == 1 ==>
              sys.server.engine.sent[0].body == HelloVerifyRequestBody(S.ComputeCookie(random))
  {
    ReachedAgrees(origin, random, hasCertificate, config, steps, sys);
    SameRandom(Start(origin, random, hasCertificate, config), steps);
    if ClientPastHellos(sys.client) || ServerPastHellos(sys.server) {
      StoryHasOneHello(sys);
    }
  }

  lemma {:induction false} SameRandom(sys: System, steps: seq<Step>)
    requires EnabledRun(sys, steps)
    ensures Run(sys, steps).client.random == sys.client.random
    decreases |steps|
  {
    if steps != [] {
      if steps[0].ClientMoves? {
        StepSameRandom(sys.client, steps[0].content);
      }
      SameRandom(Next(sys, steps[0]), steps[1..]);
    }
  }

  lemma StepSameRandom(c: C.Client, content: nat)
    ensures C.ClientStep(c, content).Some? ==> C.ClientStep(c, content).value.random == c.random
  {
    match c.state
    case AwaitHelloVerifyRequest => CookieSameRandom(c);
    case AwaitServerHello => ReadsSameRandom(c, ServerHelloKind);
    case AwaitCertificate => ReadsSameRandom(c, CertificateKind);
    case AwaitServerKeyExchange => ReadsSameRandom(c, ServerKeyExchangeKind);
    case AwaitCertificateRequest => ReadsSameRandom(c, CertificateRequestKind);
    case AwaitServerHelloDone => ReadsSameRandom(c, ServerHelloDoneKind);
    case AwaitNewSessionTicket => ReadsSameRandom(c, NewSessionTicketKind);
    case AwaitFinished => ReadsSameRandom(c, FinishedKind);
    case _ =>
  }

  lemma CookieSameRandom(c: C.Client)
    ensures C.ClientAwaitsCookie(c).random == c.random
  {
    if HasComplete(c.engine, ServerHelloKind) {
    } else if HasComplete(c.engine, HelloVerifyRequestKind) {
    }
  }

  lemma ReadsSameRandom(c: C.Client, wanted: Kind)
    ensures C.ClientReads(c, wanted).Some? ==> C.ClientReads(c, wanted).value.random == c.random
  {
    if HasComplete(c.engine, wanted) {
      var (m, e) := Read(c.engine);
      AcceptsSameRandom(c.(engine := e), m, c.engine.transcript);
    }
  }

  lemma AcceptsSameRandom(c: C.Client, m: Message, before: seq<Message>)
    ensures C.ClientAccepts(c, m, before).Some? ==> C.ClientAccepts(c, m, before).value.random == c.random
  {
    match m.body
    case ServerHelloBody(psk, acceptable) =>
    case ServerKeyExchangeBody(verifies) =>
    case ServerHelloDoneBody =>
    case FinishedBody(verifyData) =>
    case _ =>
  }
}
