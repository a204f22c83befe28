/** Record numbers on the wire: the truncated sequence field, its reconstruction, and the
    AEAD nonce made from the full number. */
module RecordNumbers {

  const MAX_SEQUENCE_NUMBER: nat := 0xFFFF_FFFF_FFFF

  function Pow2(n: nat): (p: nat)
    ensures p >= 1
  {
    if n == 0 then 1 else 2 * Pow2(n - 1)
  }

  /** The number nearest to `expected` whose low `bits` bits are those of `partial`,
      clamped at zero.  Rust's signed 64-bit arithmetic does not overflow here, because
      record numbers stay below 2^48. */
  function ReconstructSequence(partial: nat, expected: nat, bits: nat): nat
    requires bits > 0
  {
    var window := Pow2(bits);
    Nearest(partial % window, expected % window, expected, window)
  }

  /** Step from `expected` to the nearest number with low part `low`, given the low part
      of `expected` itself. */
  function Nearest(low: nat, expectedLow: nat, expected: nat, window: nat): nat {
    var half := window / 2;
    var diff := low - expectedLow;
    var nearest :=
      if diff > half then diff - window
      else if diff < -half then diff + window
      else diff;
    if expected + nearest < 0 then 0 else expected + nearest
  }

  /** When the field of `s` is read back as `s`: strictly within half a window of the
      expected number always, and at exactly half a window only when the low bits of the
      expected number lie on the far side. */
  predicate Recoverable(s: nat, expected: nat, bits: nat)
    requires bits > 0
  {
    WithinReach(s, expected, expected % Pow2(bits), Pow2(bits) / 2)
  }

  predicate WithinReach(s: nat, expected: nat, expectedLow: nat, half: nat) {
    || (s < expected + half && expected < s + half)
    || (s - expected == half && expectedLow < half)
    || (expected - s == half && expectedLow >= half)
  }

  /** Reconstruction returns the sender's number exactly when it is `Recoverable`. */
  lemma ReconstructionExact(s: nat, expected: nat, bits: nat)
    requires bits > 0
    ensures ReconstructSequence(s % Pow2(bits), expected, bits) == s <==> Recoverable(s, expected, bits)
  {
    Pow2Even(bits);
    EvenWindowExact(s, expected, Pow2(bits));
  }

  lemma Pow2Even(n: nat)
    requires n > 0
    ensures Pow2(n) % 2 == 0
  {
  }

  lemma EvenWindowExact(s: nat, expected: nat, w: nat)
    requires w > 0 && w % 2 == 0
    ensures Nearest((s % w) % w, expected % w, expected, w) == s <==> WithinReach(s, expected, expected % w, w / 2)
  {
    var whole := WholeWindows(s, expected, w);
    LowOfLow(s, w);
    LowOfLow(expected, w);
    NearestExact(s, expected, s % w, expected % w, whole, w);
  }

  lemma WholeWindows(s: nat, e: nat, w: nat) returns (whole: int)
    requires w > 0
    ensures s - e == whole + (s % w - e % w)
    ensures whole + w == 0 || whole == 0 || whole == w || whole >= 2 * w || whole + 2 * w <= 0
  {
    var turns := s / w - e / w;
    whole := turns * w;
    Distribute(s / w, e / w, w);
    MultipleBounds(turns, w);
  }

  lemma LowOfLow(s: nat, w: nat)
    requires w > 0
    ensures (s % w) % w == s % w && s % w < w && s % w <= s
  {
  }

  /** The same, with the whole windows between the two numbers as a given `whole`. */
  lemma NearestExact(s: nat, e: nat, low: nat, expectedLow: nat, whole: int, w: nat)
    requires w % 2 == 0 && low < w && expectedLow < w && low <= s && expectedLow <= e
    requires s - e == whole + (low - expectedLow)
    requires whole + w == 0 || whole == 0 || whole == w || whole >= 2 * w || whole + 2 * w <= 0
    ensures Nearest(low, expectedLow, e, w) == s
            <==> WithinReach(s, e, expectedLow, w / 2)
  {
  }

  lemma Distribute(a: int, b: int, w: int)
    ensures (a - b) * w == a * w - b * w
  {
  }

  /** A multiple of `w` other than -w, 0 and w is at least 2w away from zero. */
  lemma MultipleBounds(k: int, w: int)
    requires w > 0
    ensures k >= 2 ==> k * w >= 2 * w
    ensures k <= -2 ==> k * w <= -2 * w
    ensures -1 <= k <= 1 ==> k * w == (if k == 1 then w else if k == 0 then 0 else -w)
  {
    if k >= 2 {
      assert (k - 2) * w >= 0;
    } else if k <= -2 {
      assert (-2 - k) * w >= 0;
    }
  }

  // ----- Nonces -----

  /** A byte as its bits, least significant first. */
  type Octet = b: seq<bool> | |b| == 8 witness seq(8, i => false)

  predicate BitOf(n: nat, i: nat) {
    if i == 0 then n % 2 == 1 else BitOf(n / 2, i - 1)
  }

  /** The eight bytes of a 64-bit number, most significant first. */
  function BigEndian(n: nat): (bytes: seq<Octet>)
    ensures |bytes| == 8
  {
    seq(8, i requires 0 <= i < 8 => seq(8, k requires 0 <= k < 8 => BitOf(n, 8 * (7 - i) + k)))
  }

  function XorOctet(a: Octet, b: Octet): Octet {
    seq(8, k requires 0 <= k < 8 => a[k] != b[k])
  }

  /** The IV with the number, left-padded to twelve bytes, XORed into it. */
  function Nonce(iv: seq<Octet>, number: nat): (nonce: seq<Octet>)
    requires |iv| == 12
  {
    seq(12, i requires 0 <= i < 12 => if i < 4 then iv[i] else XorOctet(iv[i], BigEndian(number)[i - 4]))
  }

  method NonceXor(iv: seq<Octet>, number: nat) returns (nonce: array<Octet>)
    requires |iv| == 12
    ensures fresh(nonce) && nonce[..] == Nonce(iv, number)
  {
    nonce := new Octet[12](i requires 0 <= i < 12 => iv[i]);
    var seqBytes := BigEndian(number);
    for i := 0 to 8
      invariant nonce.Length == 12
      invariant forall j :: 0 <= j < 4 + i ==> nonce[j] == Nonce(iv, number)[j]
      invariant forall j :: 4 + i <= j < 12 ==> nonce[j] == iv[j]
    {
      nonce[4 + i] := XorOctet(nonce[4 + i], seqBytes[i]);
    }
  }

  lemma {:induction false} BitsDetermine(n: nat, m: nat, width: nat)
    requires n < Pow2(width) && m < Pow2(width)
    requires forall i :: 0 <= i < width ==> BitOf(n, i) == BitOf(m, i)
    ensures n == m
  {
    if width > 0 {
      forall i | 0 <= i < width - 1
        ensures BitOf(n / 2, i) == BitOf(m / 2, i)
      {
        assert BitOf(n, i + 1) == BitOf(m, i + 1);
      }
      BitsDetermine(n / 2, m / 2, width - 1);
      assert BitOf(n, 0) == BitOf(m, 0);
    }
  }

  // ----- What a nonce says -----

  /** Bytes read as one number, the first of them the most significant. */
  function ReadBigEndian(bytes: seq<nat>): nat {
    if bytes == [] then 0 else ReadBigEndian(bytes[..|bytes| - 1]) * 256 + bytes[|bytes| - 1]
  }

  /** Bits read as one number, the first of them the least significant. */
  function ReadBits(bits: seq<bool>): nat {
    if bits == [] then 0 else (if bits[0] then 1 else 0) + 2 * ReadBits(bits[1..])
  }

  function ByteValues(bytes: seq<Octet>): (values: seq<nat>)
    ensures |values| == |bytes| && forall i :: 0 <= i < |bytes| ==> values[i] == ReadBits(bytes[i])
  {
    seq(|bytes|, i requires 0 <= i < |bytes| => ReadBits(bytes[i]))
  }

  function XorAll(a: seq<Octet>, b: seq<Octet>): (c: seq<Octet>)
    requires |a| == |b|
    ensures |c| == |a| && forall i :: 0 <= i < |a| ==> c[i] == XorOctet(a[i], b[i])
  {
    seq(|a|, i requires 0 <= i < |a| => XorOctet(a[i], b[i]))
  }

  function Shifted(n: nat, k: nat): nat {
    if k == 0 then n else Shifted(n / 2, k - 1)
  }

  lemma {:induction false} BitOfShifted(n: nat, k: nat, i: nat)
    ensures BitOf(Shifted(n, k), i) == BitOf(n, k + i)
  {
    if k > 0 {
      BitOfShifted(n / 2, k - 1, i);
    }
  }

  lemma {:induction false} ShiftedTwice(n: nat, j: nat, k: nat)
    ensures Shifted(n, j + k) == Shifted(Shifted(n, j), k)
  {
    if j > 0 {
      ShiftedTwice(n / 2, j - 1, k);
    }
  }

  lemma ShiftedByte(n: nat)
    ensures Shifted(n, 8) == n / 256
  {
    ShiftedNibble(n);
    ShiftedTwice(n, 4, 4);
    ShiftedNibble(n / 16);
  }

  lemma ShiftedNibble(n: nat)
    ensures Shifted(n, 4) == n / 16
  {
    ShiftedTwice(n, 2, 2);
    ShiftedPair(n);
    ShiftedPair(n / 4);
  }

  lemma ShiftedPair(n: nat)
    ensures Shifted(n, 2) == n / 4
  {
    assert Shifted(n / 2, 1) == n / 2 / 2;
  }

  lemma {:induction false} ShiftedOut(n: nat, k: nat)
    requires n < Pow2(k)
    ensures Shifted(n, k) == 0
  {
    if k > 0 {
      ShiftedOut(n / 2, k - 1);
    }
  }

  /** The low `w` bits of a number are its remainder. */
  lemma {:induction false} ReadBitsOf(n: nat, w: nat)
    ensures ReadBits(LowBits(n, w)) == n - Pow2(w) * Shifted(n, w)
    decreases w
  {
    if w > 0 {
      ReadBitsOf(n / 2, w - 1);
      var bits := LowBits(n, w);
      assert bits[1..] == LowBits(n / 2, w - 1);
      Doubled(Pow2(w - 1), Shifted(n, w));
    }
  }

  lemma Doubled(a: nat, b: nat)
    ensures 2 * (a * b) == (2 * a) * b
  {
  }

  function LowBits(n: nat, w: nat): (bits: seq<bool>)
    ensures |bits| == w && forall k :: 0 <= k < w ==> bits[k] == BitOf(n, k)
  {
    seq(w, k requires 0 <= k < w => BitOf(n, k))
  }

  /** Byte `i` of the eight is what is left of the number beyond the bytes behind it. */
  lemma ByteOf(n: nat, i: nat)
    requires i < 8
    ensures var rest := Shifted(n, 8 * (7 - i)); ReadBits(BigEndian(n)[i]) == rest - 256 * (rest / 256)
  {
    var rest := Shifted(n, 8 * (7 - i));
    forall k | 0 <= k < 8
      ensures BigEndian(n)[i][k] == BitOf(rest, k)
    {
      BitOfShifted(n, 8 * (7 - i), k);
    }
    assert BigEndian(n)[i] == LowBits(rest, 8);
    ReadBitsOf(rest, 8);
    ShiftedByte(rest);
    assert Pow2(8) == 256 by { assert Pow2(4) == 16; }
  }

  /** The first `i` of the eight bytes, behind zeros. */
  lemma {:induction false} FrontBytes(n: nat, values: seq<nat>, i: nat)
    requires n < Pow2(64) && |values| == 12 && i <= 8
    requires (forall j :: 0 <= j < 4 ==> values[j] == 0)
    requires forall j :: 0 <= j < 8 ==> values[4 + j] == ReadBits(BigEndian(n)[j])
    ensures ReadBigEndian(values[..4 + i]) == Shifted(n, 8 * (8 - i))
  {
    if i == 0 {
      ShiftedOut(n, 64);
      LeadingZeros(values, 4);
    } else {
      FrontBytes(n, values, i - 1);
      ByteOf(n, i - 1);
      assert values[..4 + i][..3 + i] == values[..3 + i];
      ShiftedTwice(n, 8 * (8 - i), 8);
      ShiftedByte(Shifted(n, 8 * (8 - i)));
    }
  }

  lemma {:induction false} LeadingZeros(values: seq<nat>, i: nat)
    requires i <= |values| && forall j :: 0 <= j < i ==> values[j] == 0
    ensures ReadBigEndian(values[..i]) == 0
  {
    if i > 0 {
      LeadingZeros(values, i - 1);
      assert values[..i][..i - 1] == values[..i - 1];
    }
  }

  /** XORed with the IV again, the twelve bytes of a nonce are the record number, written most
      significant byte first. */
  lemma NonceReads(iv: seq<Octet>, n: nat)
    requires |iv| == 12 && n < Pow2(64)
    ensures ReadBigEndian(ByteValues(XorAll(iv, Nonce(iv, n)))) == n
  {
    var plain := XorAll(iv, Nonce(iv, n));
    var values := ByteValues(plain);
    forall j | 0 <= j < 4
      ensures values[j] == 0
    {
      assert plain[j] == seq(8, k => false);
      NoBits(plain[j]);
    }
    forall j | 0 <= j < 8
      ensures values[4 + j] == ReadBits(BigEndian(n)[j])
    {
      assert plain[4 + j] == BigEndian(n)[j];
    }
    FrontBytes(n, values, 8);
    assert values[..12] == values;
  }

  lemma {:induction false} NoBits(bits: seq<bool>)
    requires forall k :: 0 <= k < |bits| ==> !bits[k]
    ensures ReadBits(bits) == 0
  {
    if bits != [] {
      NoBits(bits[1..]);
    }
  }

  lemma {:induction false} BitsRead(a: seq<bool>, b: seq<bool>)
    requires |a| == |b| && ReadBits(a) == ReadBits(b)
    ensures a == b
  {
    if a != [] {
      assert a[0] == b[0];
      BitsRead(a[1..], b[1..]);
      assert a == [a[0]] + a[1..] && b == [b[0]] + b[1..];
    }
  }

  lemma {:induction false} BitsBound(bits: seq<bool>)
    ensures ReadBits(bits) < Pow2(|bits|)
  {
    if bits != [] {
      BitsBound(bits[1..]);
    }
  }

  /** Bytes that read as the same number are the same bytes. */
  lemma {:induction false} BytesRead(a: seq<nat>, b: seq<nat>)
    requires |a| == |b| && ReadBigEndian(a) == ReadBigEndian(b)
    requires forall i :: 0 <= i < |a| ==> a[i] < 256 && b[i] < 256
    ensures a == b
  {
    if a != [] {
      var last := |a| - 1;
      assert a[last] == b[last];
      BytesRead(a[..last], b[..last]);
      assert a == a[..last] + [a[last]] && b == b[..last] + [b[last]];
    }
  }

  /** What the nonce of a 64-bit number is, whatever builds it: the twelve bytes that, XORed
      with the IV, read as that number. */
  lemma NonceExact(iv: seq<Octet>, n: nat, nonce: seq<Octet>)
    requires |iv| == 12 && |nonce| == 12 && n < Pow2(64)
    ensures nonce == Nonce(iv, n) <==> ReadBigEndian(ByteValues(XorAll(iv, nonce))) == n
  {
    NonceReads(iv, n);
    var a, b := XorAll(iv, nonce), XorAll(iv, Nonce(iv, n));
    if ReadBigEndian(ByteValues(a)) == n {
      assert Pow2(8) == 256 by { assert Pow2(4) == 16; }
      forall i | 0 <= i < 12
        ensures ByteValues(a)[i] < 256 && ByteValues(b)[i] < 256
      {
        BitsBound(a[i]);
        BitsBound(b[i]);
      }
      BytesRead(ByteValues(a), ByteValues(b));
      forall i | 0 <= i < 12
        ensures nonce[i] == Nonce(iv, n)[i]
      {
        assert ByteValues(a)[i] == ByteValues(b)[i];
        BitsRead(a[i], b[i]);
        XorBack(iv[i], nonce[i], Nonce(iv, n)[i]);
      }
    }
  }

  lemma XorBack(a: Octet, b: Octet, c: Octet)
    requires XorOctet(a, b) == XorOctet(a, c)
    ensures b == c
  {
    forall k | 0 <= k < 8
      ensures b[k] == c[k]
    {
      assert XorOctet(a, b)[k] == XorOctet(a, c)[k];
    }
  }

  /** Under one IV, two 64-bit numbers with the same nonce are the same number. */
  lemma NonceInjective(iv: seq<Octet>, n: nat, m: nat)
    requires |iv| == 12 && n < Pow2(64) && m < Pow2(64)
    requires Nonce(iv, n) == Nonce(iv, m)
    ensures n == m
  {
    forall j | 0 <= j < 64
      ensures BitOf(n, j) == BitOf(m, j)
    {
      var i, k := 7 - j / 8, j % 8;
      assert Nonce(iv, n)[4 + i][k] == (iv[4 + i][k] != BitOf(n, 8 * (7 - i) + k));
      assert Nonce(iv, m)[4 + i][k] == (iv[4 + i][k] != BitOf(m, 8 * (7 - i) + k));
    }
    BitsDetermine(n, m, 64);
  }
}
