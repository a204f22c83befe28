/** DTLS 1.2 handshake messages, and the part of the engine that numbers, queues and hashes
    them. */
module Messages12 {
  import opened Handshakes

  /** Whole messages; hashes, MACs and signatures are named by what they are taken over,
      and `content` stands for everything the state machines do not look at. */
  datatype Message = Message(seqNo: nat, body: Body, content: nat)

  datatype Body =
    | ClientHelloBody(random: nat, cookie: Option<nat>)
    | HelloVerifyRequestBody(issued: nat)
    | ServerHelloBody(psk: bool, acceptable: bool)
    | CertificateBody(present: bool)
    | ServerKeyExchangeBody(verifies: bool)
    | CertificateRequestBody(supported: bool)
    | ServerHelloDoneBody
    | ClientKeyExchangeBody(knownIdentity: bool)
    | CertificateVerifyBody(signedData: seq<Message>)
    | NewSessionTicketBody
    | FinishedBody(verifyData: VerifyData)

  /** PRF over the master secret, itself made from the session hash, and a transcript. */
  datatype VerifyData = VerifyData(byClient: bool, sessionHash: seq<Message>, transcript: seq<Message>)

  datatype Kind =
    | ClientHelloKind | HelloVerifyRequestKind | ServerHelloKind | CertificateKind | ServerKeyExchangeKind
    | CertificateRequestKind | ServerHelloDoneKind | ClientKeyExchangeKind | CertificateVerifyKind
    | NewSessionTicketKind | FinishedKind

  function KindOf(b: Body): Kind {
    match b
    case ClientHelloBody(_, _) => ClientHelloKind
    case HelloVerifyRequestBody(_) => HelloVerifyRequestKind
    case ServerHelloBody(_, _) => ServerHelloKind
    case CertificateBody(_) => CertificateKind
    case ServerKeyExchangeBody(_) => ServerKeyExchangeKind
    case CertificateRequestBody(_) => CertificateRequestKind
    case ServerHelloDoneBody => ServerHelloDoneKind
    case ClientKeyExchangeBody(_) => ClientKeyExchangeKind
    case CertificateVerifyBody(_) => CertificateVerifyKind
    case NewSessionTicketBody => NewSessionTicketKind
    case FinishedBody(_) => FinishedKind
  }

  datatype Event = PeerCert | Connected

  // ----- The engine's share -----

  /** `received` holds complete messages not yet read, by number; `sent` every message
      ever created. */
  datatype Engine = Engine(
    transcript: seq<Message>,
    nextSeqNo: nat,
    peerSeqNo: nat,
    received: map<nat, Message>,
    sent: seq<Message>,
    ccsPending: bool,
    ccsSent: bool,
    peerEncrypted: bool,
    released: bool,
    closeNotify: bool)

  const NEW_ENGINE := Engine([], 0, 0, map[], [], false, false, false, false, false)

  /** Old messages are dropped, copies of queued ones too. */
  function Arrive(e: Engine, m: Message): Engine {
    if m.seqNo < e.peerSeqNo || m.seqNo in e.received then e else e.(received := e.received[m.seqNo := m])
  }

  predicate HasComplete(e: Engine, wanted: Kind) {
    e.peerSeqNo in e.received && KindOf(e.received[e.peerSeqNo].body) == wanted
  }

  /** The next message, hashed as it is read. */
  function Read(e: Engine): (Message, Engine)
    requires e.peerSeqNo in e.received
  {
    var m := e.received[e.peerSeqNo];
    (m, e.(transcript := e.transcript + [m], peerSeqNo := m.seqNo + 1, received := e.received - {e.peerSeqNo}))
  }

  /** A new message, hashed as it is written. */
  function Create(e: Engine, body: Body, content: nat): Engine {
    var m := Message(e.nextSeqNo, body, content);
    e.(transcript := e.transcript + [m], nextSeqNo := e.nextSeqNo + 1, sent := e.sent + [m])
  }

  function ResetServerForHelloVerifyRequest(e: Engine): Engine {
    e.(transcript := [], received := map[])
  }

  function ResetClientForHelloVerifyRequest(e: Engine): Engine {
    e.(transcript := [])
  }

  /** What waits after an arrival: what did before, as it was, and the new message if its number
      has neither been read nor come before. */
  lemma ArriveExact(e: Engine, m: Message, n: nat, x: Message)
    ensures n in Arrive(e, m).received && Arrive(e, m).received[n] == x
            <==> || (n in e.received && e.received[n] == x)
                 || (n == m.seqNo && x == m && n >= e.peerSeqNo && n !in e.received)
  {
  }

  /** What is read is the next message; it is hashed, and read once. */
  lemma ReadExact(e: Engine, wanted: Kind)
    requires HasComplete(e, wanted) && e.received[e.peerSeqNo].seqNo == e.peerSeqNo
    ensures var (m, t) := Read(e);
            && m == e.received[e.peerSeqNo] && KindOf(m.body) == wanted && t.transcript == e.transcript + [m]
            && t.peerSeqNo == e.peerSeqNo + 1 && Arrive(t, m) == t
            && (forall n :: n != e.peerSeqNo ==>
                  (n in t.received <==> n in e.received) && (n in t.received ==> t.received[n] == e.received[n]))
  {
  }

  // ----- The engine as the mutable object it is -----

  class HandshakeEngine {
    var transcript: seq<Message>
    var nextHandshakeSeqNo: nat
    var peerHandshakeSeqNo: nat
    var queueRx: map<nat, Message>
    var sent: seq<Message>
    var ccsPending: bool
    var ccsSent: bool
    var peerEncryptionEnabled: bool
    var releaseAppData: bool
    var closeNotifyReceived: bool

    ghost function View(): Engine
      reads this
    {
      Engine(transcript, nextHandshakeSeqNo, peerHandshakeSeqNo, queueRx, sent, ccsPending, ccsSent,
             peerEncryptionEnabled, releaseAppData, closeNotifyReceived)
    }

    constructor ()
      ensures View() == NEW_ENGINE
    {
      transcript, nextHandshakeSeqNo, peerHandshakeSeqNo, queueRx, sent := [], 0, 0, map[], [];
      ccsPending, ccsSent, peerEncryptionEnabled, releaseAppData, closeNotifyReceived :=
        false, false, false, false, false;
    }

    method Insert(m: Message)
      modifies this`queueRx
      ensures View() == Arrive(old(View()), m)
    {
      if m.seqNo >= peerHandshakeSeqNo && m.seqNo !in queueRx {
        queueRx := queueRx[m.seqNo := m];
      }
    }

    method HasCompleteHandshake(wanted: Kind) returns (complete: bool)
      ensures complete == HasComplete(View(), wanted)
    {
      complete := peerHandshakeSeqNo in queueRx && KindOf(queueRx[peerHandshakeSeqNo].body) == wanted;
    }

    method NextHandshake(wanted: Kind) returns (m: Option<Message>)
      modifies this`transcript, this`peerHandshakeSeqNo, this`queueRx
      ensures if HasComplete(old(View()), wanted) then m.Some? && (m.value, View()) == Read(old(View()))
              else m.None? && View() == old(View())
    {
      var complete := HasCompleteHandshake(wanted);
      if !complete {
        return None;
      }
      var handshake := queueRx[peerHandshakeSeqNo];
      transcript := transcript + [handshake];
      queueRx := queueRx - {peerHandshakeSeqNo};
      peerHandshakeSeqNo := handshake.seqNo + 1;
      return Some(handshake);
    }

    method CreateHandshake(body: Body, content: nat)
      modifies this`transcript, this`nextHandshakeSeqNo, this`sent
      ensures View() == Create(old(View()), body, content)
    {
      var m := Message(nextHandshakeSeqNo, body, content);
      transcript := transcript + [m];
      nextHandshakeSeqNo := nextHandshakeSeqNo + 1;
      sent := sent + [m];
    }

    method ResetForHelloVerifyRequest(isClient: bool)
      modifies this`transcript, this`queueRx
      ensures View() == if isClient then ResetClientForHelloVerifyRequest(old(View()))
                        else ResetServerForHelloVerifyRequest(old(View()))
    {
      transcript := [];
      if !isClient {
        queueRx := map[];
      }
    }

    /** A ChangeCipherSpec of the peer, if one is queued. */
    method NextChangeCipherSpec() returns (found: bool)
      modifies this`ccsPending, this`peerEncryptionEnabled
      ensures found == old(ccsPending)
      ensures View() == if found then old(View()).(ccsPending := false, peerEncrypted := true) else old(View())
    {
      found := ccsPending;
      if found {
        ccsPending := false;
        peerEncryptionEnabled := true;
      }
    }
  }
}
