/** Traffic secrets, records and ACK payloads of the DTLS 1.3 record layer. */
module Records {
  import opened Handshakes
  import opened RecordNumbers

  datatype Side = Client | Server {
    function Peer(): Side {
      if this == Client then Server else Client
    }
  }

  /** A traffic secret, named by how it is derived.  `side` is the sending side; both ends
      derive the same secrets, and different derivations give different secrets. */
  datatype Secret =
    | HandshakeTraffic(side: Side)
    | ApplicationTraffic(side: Side)
    | NextTraffic(current: Secret)

  const HANDSHAKE_EPOCH := 2
  const FIRST_APP_EPOCH := 3
  const MAX_EPOCH := 0xFFFF

  /** The secret `side` sends epoch `epoch` under. */
  function SecretOf(side: Side, epoch: nat): Secret
    requires epoch >= HANDSHAKE_EPOCH
  {
    if epoch == HANDSHAKE_EPOCH then HandshakeTraffic(side)
    else if epoch == FIRST_APP_EPOCH then ApplicationTraffic(side)
    else NextTraffic(SecretOf(side, epoch - 1))
  }

  lemma {:induction false} SecretsDiffer(side: Side, e: nat, f: nat)
    requires e >= HANDSHAKE_EPOCH && f >= HANDSHAKE_EPOCH
    requires SecretOf(side, e) == SecretOf(side, f)
    ensures e == f
  {
    if e > FIRST_APP_EPOCH && f > FIRST_APP_EPOCH {
      SecretsDiffer(side, e - 1, f - 1);
    }
  }

  datatype Payload =
    | HandshakePart(part: Part)
    | AppData(bytes: seq<nat>)
    | AckData(bytes: seq<nat>)
    | CloseNotify

  /** A record as it leaves: in the clear, or sealed under `secret` with its full number in
      the nonce, two bits of its epoch and sixteen bits of its number in the header. */
  datatype Record =
    | Plaintext(number: nat, payload: Payload)
    | Ciphertext(secret: Secret, number: nat, epochBits: nat, field: nat, payload: Payload)

  const PLAINTEXT_HEADER_LEN := 13
  const UNIFIED_HEADER_LEN := 5
  const HANDSHAKE_HEADER_LEN := 12

  function PayloadLen(p: Payload): nat {
    match p
    case HandshakePart(part) => HANDSHAKE_HEADER_LEN + |part.bytes|
    case AppData(bytes) => |bytes|
    case AckData(bytes) => |bytes|
    case CloseNotify => 2
  }

  /** Length on the wire; a sealed record adds its inner content type and the AEAD tag. */
  function WireLen(r: Record, tagLen: nat): nat {
    match r
    case Plaintext(_, p) => PLAINTEXT_HEADER_LEN + PayloadLen(p)
    case Ciphertext(_, _, _, _, p) => UNIFIED_HEADER_LEN + PayloadLen(p) + 1 + tagLen
  }

  // ----- ACK payloads -----

  type Number = (nat, nat)

  function ToBytes(n: nat, width: nat): (b: seq<nat>)
    ensures |b| == width
  {
    if width == 0 then [] else ToBytes(n / 256, width - 1) + [n % 256]
  }

  function FromBytes(b: seq<nat>): nat {
    if b == [] then 0 else FromBytes(b[..|b| - 1]) * 256 + b[|b| - 1]
  }

  function Power256(width: nat): nat {
    if width == 0 then 1 else 256 * Power256(width - 1)
  }

  lemma {:induction false} BytesRoundTrip(n: nat, width: nat)
    requires n < Power256(width)
    ensures FromBytes(ToBytes(n, width)) == n
  {
    if width > 0 {
      BytesRoundTrip(n / 256, width - 1);
      var b := ToBytes(n, width);
      assert b[..|b| - 1] == ToBytes(n / 256, width - 1);
    }
  }

  function EncodeNumbers(numbers: seq<Number>): (b: seq<nat>)
    ensures |b| == 16 * |numbers|
  {
    if numbers == [] then []
    else ToBytes(numbers[0].0, 8) + ToBytes(numbers[0].1, 8) + EncodeNumbers(numbers[1..])
  }

  /** The ACK body: a 16-bit byte count, then epoch and number of each record, 8 bytes each. */
  function EncodeAck(numbers: seq<Number>): seq<nat> {
    ToBytes(16 * |numbers|, 2) + EncodeNumbers(numbers)
  }

  function DecodeNumbers(b: seq<nat>): seq<Number>
    decreases |b|
  {
    if |b| < 16 then []
    else [(FromBytes(b[..8]), FromBytes(b[8..16]))] + DecodeNumbers(b[16..])
  }

  /** The numbers an ACK body lists; none when it is shorter than it says. */
  function DecodeAck(b: seq<nat>): seq<Number> {
    if |b| < 2 then []
    else
      var count := FromBytes(b[..2]);
      if |b| - 2 < count then [] else DecodeNumbers(b[2..2 + count])
  }

  ghost predicate Encodable(numbers: seq<Number>) {
    && 16 * |numbers| < 0x1_0000
    && forall i :: 0 <= i < |numbers| ==> numbers[i].0 < Power256(8) && numbers[i].1 < Power256(8)
  }

  lemma {:induction false} NumbersRoundTrip(numbers: seq<Number>)
    requires forall i :: 0 <= i < |numbers| ==> numbers[i].0 < Power256(8) && numbers[i].1 < Power256(8)
    ensures DecodeNumbers(EncodeNumbers(numbers)) == numbers
  {
    if numbers != [] {
      var b := EncodeNumbers(numbers);
      var (epoch, number) := numbers[0];
      BytesRoundTrip(epoch, 8);
      BytesRoundTrip(number, 8);
      NumbersRoundTrip(numbers[1..]);
      assert b[..8] == ToBytes(epoch, 8);
      assert b[8..16] == ToBytes(number, 8);
      assert b[16..] == EncodeNumbers(numbers[1..]);
    }
  }

  /** Reading an ACK gives back the record numbers it was written from. */
  lemma AckRoundTrip(numbers: seq<Number>)
    requires Encodable(numbers)
    ensures DecodeAck(EncodeAck(numbers)) == numbers
  {
    var b := EncodeAck(numbers);
    assert Power256(2) == 0x1_0000 by { assert Power256(1) == 256; }
    BytesRoundTrip(16 * |numbers|, 2);
    NumbersRoundTrip(numbers);
    assert b[..2] == ToBytes(16 * |numbers|, 2);
    assert b[2..2 + 16 * |numbers|] == EncodeNumbers(numbers);
  }

  lemma {:induction false} FromBytesReads(b: seq<nat>)
    ensures FromBytes(b) == ReadBigEndian(b)
  {
    if b != [] {
      FromBytesReads(b[..|b| - 1]);
    }
  }

  lemma {:induction false} NumbersCount(b: seq<nat>)
    ensures |DecodeNumbers(b)| == |b| / 16
    decreases |b|
  {
    if |b| >= 16 {
      NumbersCount(b[16..]);
    }
  }

  lemma {:induction false} NumberAt(b: seq<nat>, i: nat)
    requires i < |b| / 16
    ensures i < |DecodeNumbers(b)|
    ensures DecodeNumbers(b)[i] == (FromBytes(b[16 * i..16 * i + 8]), FromBytes(b[16 * i + 8..16 * i + 16]))
    decreases i
  {
    NumbersCount(b);
    if i > 0 {
      NumberAt(b[16..], i - 1);
      var j := 16 * (i - 1);
      assert b[16..][j..j + 8] == b[16 * i..16 * i + 8];
      assert b[16..][j + 8..j + 16] == b[16 * i + 8..16 * i + 16];
    }
  }

  lemma SliceOfSlice(b: seq<nat>, from: nat, to: nat, i: nat, j: nat)
    requires from <= to <= |b| && i <= j <= to - from
    ensures b[from..to][i..j] == b[from + i..from + j]
  {
    assert |b[from..to][i..j]| == j - i;
    assert forall k :: 0 <= k < j - i ==> b[from..to][i..j][k] == b[from..to][i + k] == b[from + i + k];
  }

  /** The body says how many bytes of numbers it holds, and holds them. */
  predicate Announced(b: seq<nat>) {
    |b| >= 2 && ReadBigEndian(b[..2]) <= |b| - 2
  }

  /** What a body that keeps its word lists: as many pairs of big-endian numbers of eight bytes
      as the announced length has room for; any other lists none. */
  lemma AckReads(b: seq<nat>)
    ensures |DecodeAck(b)| == if Announced(b) then ReadBigEndian(b[..2]) / 16 else 0
    ensures forall i :: 0 <= i < |DecodeAck(b)| ==>
              DecodeAck(b)[i] == (ReadBigEndian(b[2 + 16 * i..10 + 16 * i]), ReadBigEndian(b[10 + 16 * i..18 + 16 * i]))
  {
    if |b| >= 2 {
      FromBytesReads(b[..2]);
    }
    if Announced(b) {
      var list := b[2..2 + ReadBigEndian(b[..2])];
      NumbersCount(list);
      forall i | 0 <= i < |DecodeAck(b)|
        ensures DecodeAck(b)[i]
                == (ReadBigEndian(b[2 + 16 * i..10 + 16 * i]), ReadBigEndian(b[10 + 16 * i..18 + 16 * i]))
      {
        NumberAt(list, i);
        SliceOfSlice(b, 2, 2 + |list|, 16 * i, 16 * i + 8);
        SliceOfSlice(b, 2, 2 + |list|, 16 * i + 8, 16 * i + 16);
        FromBytesReads(b[2 + 16 * i..10 + 16 * i]);
        FromBytesReads(b[10 + 16 * i..18 + 16 * i]);
      }
    }
  }

  lemma {:induction false} BytesAreBytes(n: nat, width: nat)
    ensures forall i :: 0 <= i < width ==> ToBytes(n, width)[i] < 256
  {
    if width > 0 {
      BytesAreBytes(n / 256, width - 1);
    }
  }

  lemma {:induction false} NumbersAreBytes(numbers: seq<Number>)
    ensures forall i :: 0 <= i < |EncodeNumbers(numbers)| ==> EncodeNumbers(numbers)[i] < 256
  {
    if numbers != [] {
      BytesAreBytes(numbers[0].0, 8);
      BytesAreBytes(numbers[0].1, 8);
      NumbersAreBytes(numbers[1..]);
    }
  }

  /** The layout of an ACK body: bytes, a big-endian count of those that follow, and for each
      record its epoch and its number, eight bytes each, most significant first. */
  lemma AckLayout(numbers: seq<Number>)
    requires Encodable(numbers)
    ensures var b := EncodeAck(numbers);
            && |b| == 2 + 16 * |numbers| && ReadBigEndian(b[..2]) == 16 * |numbers|
            && (forall i :: 0 <= i < |b| ==> b[i] < 256)
            && forall i :: 0 <= i < |numbers| ==>
                 && numbers[i].0 == ReadBigEndian(b[2 + 16 * i..10 + 16 * i])
                 && numbers[i].1 == ReadBigEndian(b[10 + 16 * i..18 + 16 * i])
  {
    var b := EncodeAck(numbers);
    assert Power256(2) == 0x1_0000 by { assert Power256(1) == 256; }
    BytesRoundTrip(16 * |numbers|, 2);
    assert b[..2] == ToBytes(16 * |numbers|, 2);
    FromBytesReads(b[..2]);
    BytesAreBytes(16 * |numbers|, 2);
    NumbersAreBytes(numbers);
    AckRoundTrip(numbers);
    AckReads(b);
    assert forall i :: 0 <= i < |numbers| ==> numbers[i] == DecodeAck(b)[i];
  }
}
