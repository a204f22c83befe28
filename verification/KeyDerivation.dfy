/** The TLS 1.2 PRF and HKDF over an abstract HMAC: the in-place loops compute the recursive
    definitions of RFC 5246 section 5, RFC 5869 section 2.3 and RFC 8446 section 7.1. */
module KeyDerivation {
  import opened Handshakes

  type Bytes = seq<nat>

  /** Keyed hash of a message. */
  type Hmac = (Bytes, Bytes) -> Bytes

  const MAX_HASH_LEN := 48
  const MAX_BLOCKS := 255

  /** Every output is `hashLen` bytes, and fits the buffers. */
  ghost predicate HashesTo(hmac: Hmac, hashLen: nat) {
    && 0 < hashLen <= MAX_HASH_LEN
    && forall key, message :: |hmac(key, message)| == hashLen
  }

  /** The provider writes its output to the front of a buffer. */
  method HmacInto(hmac: Hmac, key: Bytes, message: Bytes, out: array<nat>) returns (n: nat)
    requires |hmac(key, message)| <= out.Length
    modifies out
    ensures n == |hmac(key, message)| && out[..n] == hmac(key, message)
    ensures out[n..] == old(out[n..])
  {
    var digest := hmac(key, message);
    n := |digest|;
    for i := 0 to n
      invariant out[..i] == digest[..i]
      invariant out[n..] == old(out[n..])
    {
      out[i] := digest[i];
    }
  }

  /** Number of whole blocks that `len` bytes take up. */
  function Blocks(len: nat, hashLen: nat): nat
    requires hashLen > 0
  {
    (len + hashLen - 1) / hashLen
  }

  lemma BlocksReach(len: nat, hashLen: nat, n: nat)
    requires hashLen > 0
    ensures n < Blocks(len, hashLen) <==> n * hashLen < len
  {
    var sum := len + hashLen - 1;
    var q, r := sum / hashLen, sum % hashLen;
    assert sum == q * hashLen + r;
    if n < q {
      Multiply(n + 1, q, hashLen);
    } else {
      Multiply(q, n, hashLen);
    }
  }

  lemma Multiply(a: nat, b: nat, c: nat)
    requires a <= b
    ensures a * c <= b * c && (a + 1) * c == a * c + c
  {
    assert b * c == a * c + (b - a) * c;
  }

  // ----- P_hash -----

  /** A(0) is the seed, A(i) the HMAC of A(i - 1). */
  function Chain(hmac: Hmac, secret: Bytes, seed: Bytes, i: nat): Bytes {
    if i == 0 then seed else hmac(secret, Chain(hmac, secret, seed, i - 1))
  }

  /** The first `n` blocks of P_hash(secret, seed). */
  function PHash(hmac: Hmac, secret: Bytes, seed: Bytes, n: nat): Bytes {
    if n == 0 then []
    else PHash(hmac, secret, seed, n - 1) + hmac(secret, Chain(hmac, secret, seed, n) + seed)
  }

  lemma {:induction false} PHashLength(hmac: Hmac, hashLen: nat, secret: Bytes, seed: Bytes, n: nat)
    requires HashesTo(hmac, hashLen)
    ensures |PHash(hmac, secret, seed, n)| == n * hashLen
  {
    if n > 0 {
      PHashLength(hmac, hashLen, secret, seed, n - 1);
      Multiply(n - 1, n, hashLen);
    }
  }

  /** What the PRF is to return: that many bytes of P_hash. */
  ghost function PrfBytes(hmac: Hmac, hashLen: nat, secret: Bytes, seed: Bytes, len: nat): (out: Bytes)
    requires HashesTo(hmac, hashLen)
    ensures |out| == len
  {
    var n := Blocks(len, hashLen);
    PHashLength(hmac, hashLen, secret, seed, n);
    BlocksReach(len, hashLen, n);
    PHash(hmac, secret, seed, n)[..len]
  }

  /** A(1) up to A(n), each the HMAC of the one before, the first that of the seed. */
  ghost predicate IsChain(hmac: Hmac, secret: Bytes, seed: Bytes, a: seq<Bytes>) {
    (a != [] ==> a[0] == hmac(secret, seed)) && forall i :: 0 < i < |a| ==> a[i] == hmac(secret, a[i - 1])
  }

  /** Block `i` of an output, counted from 0. */
  function Block(out: Bytes, hashLen: nat, i: nat): Bytes {
    if i * hashLen <= (i + 1) * hashLen <= |out| then out[i * hashLen..(i + 1) * hashLen] else []
  }

  /** Another block behind `n` of them. */
  lemma BlockBehind(front: Bytes, block: Bytes, hashLen: nat, n: nat)
    requires |block| == hashLen && |front| == n * hashLen
    ensures |front + block| == (n + 1) * hashLen && Block(front + block, hashLen, n) == block
    ensures forall i :: 0 <= i < n ==> Block(front + block, hashLen, i) == Block(front, hashLen, i)
  {
    Multiply(n, n, hashLen);
    forall i | 0 <= i < n
      ensures Block(front + block, hashLen, i) == Block(front, hashLen, i)
    {
      Multiply(i + 1, n, hashLen);
      Multiply(i, i + 1, hashLen);
      assert (front + block)[i * hashLen..(i + 1) * hashLen] == front[i * hashLen..(i + 1) * hashLen];
    }
  }

  /** An output of `n + 1` blocks, taken apart. */
  lemma LastOff(out: Bytes, hashLen: nat, n: nat) returns (front: Bytes)
    requires |out| == (n + 1) * hashLen
    ensures |front| == n * hashLen && out == front + Block(out, hashLen, n) && |Block(out, hashLen, n)| == hashLen
  {
    Multiply(n, n + 1, hashLen);
    front := out[..n * hashLen];
  }

  /** P_hash as RFC 5246 writes it: block by block the HMAC of A(i) and the seed. */
  lemma {:induction false} PHashBlocks(
      hmac: Hmac, hashLen: nat, secret: Bytes, seed: Bytes, a: seq<Bytes>, out: Bytes)
    requires HashesTo(hmac, hashLen) && IsChain(hmac, secret, seed, a)
    ensures out == PHash(hmac, secret, seed, |a|)
            <==> && |out| == |a| * hashLen
                 && forall i :: 0 <= i < |a| ==> Block(out, hashLen, i) == hmac(secret, a[i] + seed)
    decreases |a|
  {
    PHashLength(hmac, hashLen, secret, seed, |a|);
    if a != [] && |out| == |a| * hashLen {
      var n := |a| - 1;
      var front := LastOff(out, hashLen, n);
      ChainIs(hmac, secret, seed, a, n);
      assert forall i :: 0 <= i < n ==> a[..n][i] == a[i];
      PHashBlocks(hmac, hashLen, secret, seed, a[..n], front);
      PHashLength(hmac, hashLen, secret, seed, n);
      BlockBehind(front, Block(out, hashLen, n), hashLen, n);
      BlockBehind(PHash(hmac, secret, seed, n), hmac(secret, a[n] + seed), hashLen, n);
      SameParts(front, PHash(hmac, secret, seed, n), Block(out, hashLen, n), hmac(secret, a[n] + seed));
    }
  }

  lemma SameParts(a: Bytes, b: Bytes, c: Bytes, d: Bytes)
    requires |a| == |b|
    ensures a + c == b + d <==> a == b && c == d
  {
    if a + c == b + d {
      assert a == (a + c)[..|a|] && c == (a + c)[|a|..] && b == (b + d)[..|b|] && d == (b + d)[|b|..];
    }
  }

  lemma {:induction false} ChainIs(hmac: Hmac, secret: Bytes, seed: Bytes, a: seq<Bytes>, i: nat)
    requires IsChain(hmac, secret, seed, a) && i < |a|
    ensures a[i] == Chain(hmac, secret, seed, i + 1)
  {
    if i > 0 {
      ChainIs(hmac, secret, seed, a, i - 1);
    }
  }

  method PrfTls12(hmac: Hmac, ghost hashLen: nat, secret: Bytes, title: Bytes, seed: Bytes, outputLen: nat)
    returns (out: Bytes)
    requires HashesTo(hmac, hashLen)
    ensures out == PrfBytes(hmac, hashLen, secret, title + seed, outputLen)
  {
    var hmacA := new nat[MAX_HASH_LEN];
    var n := HmacInto(hmac, secret, title + seed, hmacA);
    var scratch := hmacA[..n] + title + seed;
    var payload := new nat[|scratch|](i requires 0 <= i < |scratch| => scratch[i]);
    ghost var labelSeed := title + seed;
    ghost var i := 0;
    out := [];
    assert payload[..n] == Chain(hmac, secret, labelSeed, 1) && payload[n..] == labelSeed;
    while |out| < outputLen
      invariant n == hashLen && n <= payload.Length
      invariant payload[n..] == labelSeed
      invariant |out| < outputLen ==> out == PHash(hmac, secret, labelSeed, i) && |out| == i * hashLen
      invariant |out| < outputLen ==> payload[..n] == Chain(hmac, secret, labelSeed, i + 1)
      invariant |out| >= outputLen ==> out == PrfBytes(hmac, hashLen, secret, labelSeed, outputLen)
      decreases outputLen - |out|
    {
      var hmacBlock := new nat[MAX_HASH_LEN];
      assert payload[..] == payload[..n] + payload[n..];
      var blockLen := HmacInto(hmac, secret, payload[..], hmacBlock);
      var remaining := outputLen - |out|;
      var toCopy := if remaining < blockLen then remaining else blockLen;
      ghost var before := out;
      out := out + hmacBlock[..toCopy];
      assert hmacBlock[..toCopy] == hmacBlock[..blockLen][..toCopy];
      TakesBlock(hmac, hashLen, secret, labelSeed, i, outputLen, before);
      i := i + 1;
      if |out| < outputLen {
        assert hmacBlock[..toCopy] == hmacBlock[..blockLen];
        var _ := HmacInto(hmac, secret, payload[..n], hmacA);
        CopyFront(payload, hmacA, n);
      }
    }
    if outputLen == 0 {
      assert PrfBytes(hmac, hashLen, secret, labelSeed, 0) == [];
    }
  }

  /** Overwrite the first `n` bytes of `to` with those of `from`. */
  method CopyFront(to: array<nat>, from: array<nat>, n: nat)
    requires n <= to.Length && n <= from.Length && to != from
    modifies to
    ensures to[..n] == from[..n] && to[n..] == old(to[n..])
  {
    for k := 0 to n
      invariant to[..k] == from[..k] && to[n..] == old(to[n..])
    {
      to[k] := from[k];
    }
  }

  /** Adding block `i + 1`, or what is still missing, to the first `i` blocks. */
  lemma TakesBlock(
      hmac: Hmac, hashLen: nat, secret: Bytes, seed: Bytes, i: nat, len: nat, done: Bytes)
    requires HashesTo(hmac, hashLen)
    requires done == PHash(hmac, secret, seed, i) && |done| == i * hashLen && |done| < len
    ensures var block := hmac(secret, Chain(hmac, secret, seed, i + 1) + seed);
            && PHash(hmac, secret, seed, i + 1) == done + block
            && |done + block| == (i + 1) * hashLen
            && (len - |done| <= hashLen ==>
                  PrfBytes(hmac, hashLen, secret, seed, len) == done + block[..len - |done|])
  {
    var block := hmac(secret, Chain(hmac, secret, seed, i + 1) + seed);
    Multiply(i, i + 1, hashLen);
    if len - |done| <= hashLen {
      BlocksReach(len, hashLen, i);
      BlocksReach(len, hashLen, i + 1);
      assert Blocks(len, hashLen) == i + 1;
      assert (done + block)[..len] == done + block[..len - |done|];
    }
  }

  lemma {:induction false} PHashExtends(
      hmac: Hmac, secret: Bytes, seed: Bytes, n: nat, m: nat)
    requires n <= m
    ensures PHash(hmac, secret, seed, n) <= PHash(hmac, secret, seed, m)
    decreases m
  {
    if n < m {
      PHashExtends(hmac, secret, seed, n, m - 1);
    }
  }

  /** Asking for fewer bytes gives a prefix of what asking for more gives. */
  lemma PrfPrefix(hmac: Hmac, hashLen: nat, secret: Bytes, seed: Bytes, len: nat, more: nat)
    requires HashesTo(hmac, hashLen) && len <= more
    ensures PrfBytes(hmac, hashLen, secret, seed, len) <= PrfBytes(hmac, hashLen, secret, seed, more)
  {
    var n, m := Blocks(len, hashLen), Blocks(more, hashLen);
    BlocksMonotone(len, more, hashLen);
    PHashExtends(hmac, secret, seed, n, m);
    PHashLength(hmac, hashLen, secret, seed, n);
    PHashLength(hmac, hashLen, secret, seed, m);
    BlocksReach(len, hashLen, n);
    BlocksReach(more, hashLen, m);
  }

  lemma BlocksMonotone(len: nat, more: nat, hashLen: nat)
    requires hashLen > 0 && len <= more
    ensures Blocks(len, hashLen) <= Blocks(more, hashLen)
  {
    var m := Blocks(more, hashLen);
    BlocksReach(more, hashLen, m);
    BlocksReach(len, hashLen, m);
  }

  // ----- HKDF-Expand -----

  /** T(0) is empty, T(i) the HMAC of T(i - 1), the info and the byte i. */
  function T(hmac: Hmac, prk: Bytes, info: Bytes, i: nat): Bytes {
    if i == 0 then [] else hmac(prk, T(hmac, prk, info, i - 1) + info + [i])
  }

  /** T(1) up to T(n). */
  function Okm(hmac: Hmac, prk: Bytes, info: Bytes, n: nat): Bytes {
    if n == 0 then [] else Okm(hmac, prk, info, n - 1) + T(hmac, prk, info, n)
  }

  lemma {:induction false} OkmLength(hmac: Hmac, hashLen: nat, prk: Bytes, info: Bytes, n: nat)
    requires HashesTo(hmac, hashLen)
    ensures |Okm(hmac, prk, info, n)| == n * hashLen
  {
    if n > 0 {
      OkmLength(hmac, hashLen, prk, info, n - 1);
      Multiply(n - 1, n, hashLen);
    }
  }

  /** The output keying material as RFC 5869 writes it: each block the HMAC of the one before, the
      info and its own number, counted from 1. */
  lemma {:induction false} OkmBlocks(hmac: Hmac, hashLen: nat, prk: Bytes, info: Bytes, n: nat)
    requires HashesTo(hmac, hashLen)
    ensures var okm := Okm(hmac, prk, info, n);
            && |okm| == n * hashLen
            && (n > 0 ==> Block(okm, hashLen, 0) == hmac(prk, info + [1]))
            && forall i :: 0 < i < n ==>
                 Block(okm, hashLen, i) == hmac(prk, Block(okm, hashLen, i - 1) + info + [i + 1])
    decreases n
  {
    OkmLength(hmac, hashLen, prk, info, n);
    if n > 0 {
      var front := Okm(hmac, prk, info, n - 1);
      OkmLength(hmac, hashLen, prk, info, n - 1);
      OkmBlocks(hmac, hashLen, prk, info, n - 1);
      BlockBehind(front, T(hmac, prk, info, n), hashLen, n - 1);
      if n == 1 {
        assert T(hmac, prk, info, 0) + info + [1] == info + [1];
      } else {
        OkmLength(hmac, hashLen, prk, info, n - 2);
        BlockBehind(Okm(hmac, prk, info, n - 2), T(hmac, prk, info, n - 1), hashLen, n - 2);
      }
    }
  }

  /** That many bytes of the output keying material. */
  ghost function ExpandBytes(hmac: Hmac, hashLen: nat, prk: Bytes, info: Bytes, len: nat): (out: Bytes)
    requires HashesTo(hmac, hashLen)
    ensures |out| == len
  {
    var n := Blocks(len, hashLen);
    OkmLength(hmac, hashLen, prk, info, n);
    BlocksReach(len, hashLen, n);
    Okm(hmac, prk, info, n)[..len]
  }

  /** Fails exactly when more than 255 blocks would be needed. */
  method HkdfExpand(hmac: Hmac, hashLen: nat, prk: Bytes, info: Bytes, outputLen: nat) returns (r: Option<Bytes>)
    requires HashesTo(hmac, hashLen)
    ensures r == if Blocks(outputLen, hashLen) > MAX_BLOCKS then None
                 else Some(ExpandBytes(hmac, hashLen, prk, info, outputLen))
    ensures r == None <==> outputLen > MAX_BLOCKS * hashLen
  {
    BlocksReach(outputLen, hashLen, MAX_BLOCKS);
    var n := Blocks(outputLen, hashLen);
    if n > MAX_BLOCKS {
      return None;
    }
    var tPrev := new nat[MAX_HASH_LEN];
    var tPrevLen: nat := 0;
    var out: Bytes := [];
    for i := 1 to n + 1
      invariant tPrevLen <= tPrev.Length && tPrev[..tPrevLen] == T(hmac, prk, info, i - 1)
      invariant i <= n ==> out == Okm(hmac, prk, info, i - 1)
      invariant i == n + 1 ==> out == ExpandBytes(hmac, hashLen, prk, info, outputLen)
    {
      var input := tPrev[..tPrevLen] + info + [i % 256];
      tPrevLen := HmacInto(hmac, prk, input, tPrev);
      var remaining := outputLen - |out|;
      OkmLength(hmac, hashLen, prk, info, i - 1);
      BlocksReach(outputLen, hashLen, i - 1);
      ExpandsBlock(hmac, hashLen, prk, info, i, outputLen);
      var toCopy := if remaining < tPrevLen then remaining else tPrevLen;
      assert tPrev[..toCopy] == tPrev[..tPrevLen][..toCopy];
      out := out + tPrev[..toCopy];
    }
    r := Some(out);
  }

  lemma ExpandsBlock(hmac: Hmac, hashLen: nat, prk: Bytes, info: Bytes, i: nat, len: nat)
    requires HashesTo(hmac, hashLen) && 1 <= i <= Blocks(len, hashLen)
    ensures var done, block := Okm(hmac, prk, info, i - 1), T(hmac, prk, info, i);
            && |done| == (i - 1) * hashLen < len && |block| == hashLen
            && Okm(hmac, prk, info, i) == done + block
            && (i < Blocks(len, hashLen) ==> len - |done| > hashLen)
            && (i == Blocks(len, hashLen) ==>
                  len - |done| <= hashLen
                  && ExpandBytes(hmac, hashLen, prk, info, len) == done + block[..len - |done|])
  {
    var done, block := Okm(hmac, prk, info, i - 1), T(hmac, prk, info, i);
    OkmLength(hmac, hashLen, prk, info, i - 1);
    BlocksReach(len, hashLen, i - 1);
    BlocksReach(len, hashLen, i);
    Multiply(i - 1, i, hashLen);
    if i == Blocks(len, hashLen) {
      assert (done + block)[..len] == done + block[..len - |done|];
    }
  }

  lemma {:induction false} OkmExtends(hmac: Hmac, prk: Bytes, info: Bytes, n: nat, m: nat)
    requires n <= m
    ensures Okm(hmac, prk, info, n) <= Okm(hmac, prk, info, m)
    decreases m
  {
    if n < m {
      OkmExtends(hmac, prk, info, n, m - 1);
    }
  }

  lemma ExpandPrefix(hmac: Hmac, hashLen: nat, prk: Bytes, info: Bytes, len: nat, more: nat)
    requires HashesTo(hmac, hashLen) && len <= more
    ensures ExpandBytes(hmac, hashLen, prk, info, len) <= ExpandBytes(hmac, hashLen, prk, info, more)
  {
    var n, m := Blocks(len, hashLen), Blocks(more, hashLen);
    BlocksMonotone(len, more, hashLen);
    OkmExtends(hmac, prk, info, n, m);
    OkmLength(hmac, hashLen, prk, info, n);
    OkmLength(hmac, hashLen, prk, info, m);
    BlocksReach(len, hashLen, n);
    BlocksReach(more, hashLen, m);
  }

  // ----- Labels -----

  const TLS13_PREFIX: Bytes := [0x74, 0x6C, 0x73, 0x31, 0x33, 0x20]
  const DTLS13_PREFIX: Bytes := [0x64, 0x74, 0x6C, 0x73, 0x31, 0x33]

  /** Length of the output, then the full label and the context, each behind its own length. */
  function BuildHkdfLabel(prefix: Bytes, title: Bytes, context: Bytes, outputLen: nat): Option<Bytes> {
    var fullLabelLen := |prefix| + |title|;
    if fullLabelLen > 255 || |context| > 255 || outputLen > 65535 then None
    else
      Some([outputLen / 256, outputLen % 256] + [fullLabelLen] + prefix + title + [|context|] + context)
  }

  /** An HkdfLabel: two bytes of output length, one of label length, prefix and title, one of
      context length, context. */
  predicate LaidOut(info: Bytes, prefix: Bytes, title: Bytes, context: Bytes, outputLen: nat) {
    var n := |prefix| + |title|;
    && n < 0x100 && |context| < 0x100 && outputLen < 0x1_0000
    && |info| == 4 + n + |context|
    && info[0] < 0x100 && info[1] < 0x100 && info[0] * 0x100 + info[1] == outputLen
    && info[2] == n && info[3..3 + |prefix|] == prefix && info[3 + |prefix|..3 + n] == title
    && info[3 + n] == |context| && info[4 + n..] == context
  }

  lemma LaidOutIs(info: Bytes, prefix: Bytes, title: Bytes, context: Bytes, outputLen: nat)
    requires LaidOut(info, prefix, title, context, outputLen)
    ensures BuildHkdfLabel(prefix, title, context, outputLen) == Some(info)
  {
    var n := |prefix| + |title|;
    assert info == info[..3] + info[3..3 + |prefix|] + info[3 + |prefix|..3 + n] + [info[3 + n]] + info[4 + n..];
    assert info[..3] == [outputLen / 256, outputLen % 256] + [n];
  }

  lemma BuiltIsLaidOut(info: Bytes, prefix: Bytes, title: Bytes, context: Bytes, outputLen: nat)
    requires BuildHkdfLabel(prefix, title, context, outputLen) == Some(info)
    ensures LaidOut(info, prefix, title, context, outputLen)
  {
    var rest := title + ([|context|] + context);
    assert info == [outputLen / 256, outputLen % 256, |prefix| + |title|] + (prefix + rest);
    assert info[3..] == prefix + rest;
    assert info[3 + |prefix|..] == rest;
  }

  /** A label is built exactly when each part fits the bytes that count it, and then it is laid
      out as an HkdfLabel. */
  lemma LabelLayout(prefix: Bytes, title: Bytes, context: Bytes, outputLen: nat, info: Bytes)
    ensures BuildHkdfLabel(prefix, title, context, outputLen) == Some(info)
            <==> LaidOut(info, prefix, title, context, outputLen)
  {
    if LaidOut(info, prefix, title, context, outputLen) {
      LaidOutIs(info, prefix, title, context, outputLen);
    } else if BuildHkdfLabel(prefix, title, context, outputLen) == Some(info) {
      BuiltIsLaidOut(info, prefix, title, context, outputLen);
    }
  }

  /** Two infos are equal only when full label, context and output length are. */
  lemma LabelInjective(
      prefix: Bytes, title: Bytes, context: Bytes, len: nat,
      prefix': Bytes, title': Bytes, context': Bytes, len': nat)
    requires BuildHkdfLabel(prefix, title, context, len).Some?
    requires BuildHkdfLabel(prefix', title', context', len').Some?
    ensures BuildHkdfLabel(prefix, title, context, len) == BuildHkdfLabel(prefix', title', context', len')
            <==> prefix + title == prefix' + title' && context == context' && len == len'
  {
    var info := BuildHkdfLabel(prefix, title, context, len).value;
    var info' := BuildHkdfLabel(prefix', title', context', len').value;
    var n, n' := |prefix + title|, |prefix' + title'|;
    assert info == [len / 256, len % 256, n] + (prefix + title) + [|context|] + context;
    assert info' == [len' / 256, len' % 256, n'] + (prefix' + title') + [|context'|] + context';
    if info == info' {
      assert info[0] == len / 256 && info[1] == len % 256 && info[2] == n;
      assert info'[0] == len' / 256 && info'[1] == len' % 256 && info'[2] == n';
      assert info[3..3 + n] == prefix + title && info'[3..3 + n] == prefix' + title';
      assert info[4 + n..] == context && info'[4 + n..] == context';
    }
  }

  /** No DTLS 1.3 title is ever the info of a TLS 1.3 one. */
  lemma ProtocolsSeparate(title: Bytes, context: Bytes, len: nat, title': Bytes, context': Bytes, len': nat)
    requires BuildHkdfLabel(DTLS13_PREFIX, title, context, len).Some?
    ensures BuildHkdfLabel(DTLS13_PREFIX, title, context, len) != BuildHkdfLabel(TLS13_PREFIX, title', context', len')
  {
    if BuildHkdfLabel(TLS13_PREFIX, title', context', len').Some? {
      LabelInjective(DTLS13_PREFIX, title, context, len, TLS13_PREFIX, title', context', len');
      assert (DTLS13_PREFIX + title)[0] != (TLS13_PREFIX + title')[0];
    }
  }
}
