/** Handshake message fragments as both DTLS versions put them in records. */
module Handshakes {

  datatype Option<+T> = None | Some(value: T)

  datatype MessageType =
    | ClientHello
    | ServerHello
    | EncryptedExtensions
    | Certificate
    | CertificateRequest
    | CertificateVerify
    | Finished
    | KeyUpdate
    | Unknown(code: nat)

  /** One fragment: `length` is that of the whole message, the fragment's own length is
      that of its bytes. */
  datatype Part = Part(msgType: MessageType, seqNo: nat, length: nat, offset: nat, bytes: seq<nat>) {

    function End(): nat {
      offset + |bytes|
    }

    /** Whether the fragment is the whole message. */
    predicate Whole() {
      |bytes| == length
    }

    /** Order of the receive queue: by message, then by offset. */
    predicate Before(other: Part) {
      seqNo < other.seqNo || (seqNo == other.seqNo && offset < other.offset)
    }

    predicate SameKey(other: Part) {
      seqNo == other.seqNo && offset == other.offset
    }
  }
}
