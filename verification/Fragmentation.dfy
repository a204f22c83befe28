/** Sending a handshake message: cutting its body into fragments that fill the datagram
    being built, and what the peer gets back from them. */
module Fragmentation {
  import opened Handshakes
  import opened Records
  import opened Reassembly
  import opened SendSide

  const MIN_MTU := 64
  const MAX_AEAD_OVERHEAD := 24

  function EpochFor(msgType: MessageType): nat {
    if msgType.ClientHello? || msgType.ServerHello? then 0 else HANDSHAKE_EPOCH
  }

  /** Bytes of a handshake record besides the body fragment it carries. */
  function FixedOverhead(msgType: MessageType, tagLen: nat): nat {
    if EpochFor(msgType) == 0 then PLAINTEXT_HEADER_LEN + HANDSHAKE_HEADER_LEN
    else UNIFIED_HEADER_LEN + HANDSHAKE_HEADER_LEN + tagLen + 1
  }

  /** The configuration lets every record carry at least one body byte. */
  predicate Progresses(config: Config) {
    FixedOverhead(ClientHello, config.tagLen) < config.mtu && FixedOverhead(Finished, config.tagLen) < config.mtu
  }

  function UsedInLast(s: Sender): nat {
    if s.queueTx == [] then 0 else DatagramLen(s.queueTx[|s.queueTx| - 1], s.config.tagLen)
  }

  /** Room for body bytes in the datagram being built, or in a new one when it has none. */
  function AvailableForBody(s: Sender, msgType: MessageType): (n: nat)
    ensures n + FixedOverhead(msgType, s.config.tagLen) <= s.config.mtu || n == 0
  {
    var used, fixed := UsedInLast(s), FixedOverhead(msgType, s.config.tagLen);
    var available := if s.config.mtu > used then s.config.mtu - used else 0;
    if available > fixed then available - fixed
    else if s.config.mtu > fixed then s.config.mtu - fixed
    else 0
  }

  function NextPart(s: Sender, msgType: MessageType, seqNo: nat, body: seq<nat>, offset: nat): Part
    requires offset <= |body|
  {
    var available := AvailableForBody(s, msgType);
    var chunk := if |body| - offset < available then |body| - offset else available;
    Part(msgType, seqNo, |body|, offset, body[offset..offset + chunk])
  }

  function EmitPart(s: Sender, part: Part): Outcome {
    if EpochFor(part.msgType) == 0 then EmitPlaintext(s, true, HandshakePart(part))
    else EmitCiphertext(s, HANDSHAKE_EPOCH, true, HandshakePart(part))
  }

  /** Send the message from `offset` on; an empty message is one empty fragment. */
  function EmitParts(s: Sender, msgType: MessageType, seqNo: nat, body: seq<nat>, offset: nat): Outcome
    requires Progresses(s.config) && offset <= |body|
    decreases |body| - offset
  {
    var part := NextPart(s, msgType, seqNo, body, offset);
    var o := EmitPart(s, part);
    EmitPartFrame(s, part);
    if o.failure.Some? || part.End() == |body| then o
    else EmitParts(o.sender, msgType, seqNo, body, part.End())
  }

  lemma EmitPartFrame(s: Sender, part: Part)
    ensures SameKeys(s, EmitPart(s, part).sender)
  {
    EmitFrame(s, HANDSHAKE_EPOCH, true, HandshakePart(part));
  }

  /** One round of the fragmentation loop, `next` being the outcome of its record. */
  lemma EmitPartsStep(
      s: Sender, msgType: MessageType, seqNo: nat, body: seq<nat>, offset: nat, part: Part, next: Outcome)
    requires Progresses(s.config) && offset <= |body| && (offset == |body| ==> body == [])
    requires part == NextPart(s, msgType, seqNo, body, offset) && next == EmitPart(s, part)
    ensures next.sender.config == s.config && (part.bytes == [] ==> body == []) && part.End() <= |body|
    ensures EmitParts(s, msgType, seqNo, body, offset)
            == if next.failure.Some? || part.End() == |body| then next
               else EmitParts(next.sender, msgType, seqNo, body, part.End())
  {
    EmitPartFrame(s, part);
  }

  /** The room left in a sealed datagram sets the size of a fragment that then goes into a new
      one. */
  predicate Misjudged(s: Sender, msgType: MessageType) {
    && s.datagramSealed && UsedInLast(s) > 0
    && UsedInLast(s) + FixedOverhead(msgType, s.config.tagLen) < s.config.mtu
  }

  lemma LastAfter(s: Sender, r: Record)
    ensures UsedInLast(Enqueue(s, r))
            == (if CanAppend(s, r) then UsedInLast(s) else 0) + WireLen(r, s.config.tagLen)
  {
    var last := if CanAppend(s, r) then s.queueTx[|s.queueTx| - 1] else [];
    assert (last + [r])[..|last|] == last && [] + [r] == [r];
    var t := Enqueue(s, r);
    assert t.queueTx[|t.queueTx| - 1] == last + [r] && t.config == s.config;
    assert DatagramLen(last + [r], s.config.tagLen) == DatagramLen(last, s.config.tagLen) + WireLen(r, s.config.tagLen);
  }

  /** A fragment that does not end its message fills the datagram it goes into to the last byte,
      exactly unless its size was taken from a datagram that is sealed. */
  lemma FragmentFills(s: Sender, msgType: MessageType, seqNo: nat, body: seq<nat>, offset: nat)
    requires Progresses(s.config) && offset <= |body|
    requires var part := NextPart(s, msgType, seqNo, body, offset);
             part.End() < |body| && EmitPart(s, part).failure.None?
    ensures var t := EmitPart(s, NextPart(s, msgType, seqNo, body, offset)).sender;
            && !t.datagramSealed
            && (UsedInLast(t) == s.config.mtu <==> !Misjudged(s, msgType))
  {
    var part := NextPart(s, msgType, seqNo, body, offset);
    var t, fixed := EmitPart(s, part).sender, FixedOverhead(msgType, s.config.tagLen);
    var r := PartRecord(s, part);
    LastAfter(s, r);
    EmitQueues(s, part);
    assert WireLen(r, s.config.tagLen) == fixed + |part.bytes|;
  }

  /** The record that carries a fragment. */
  function PartRecord(s: Sender, part: Part): Record {
    if EpochFor(part.msgType) == 0 then Plaintext(s.plainSeq, HandshakePart(part))
    else
      Sealed(if s.hsSecret.Some? then s.hsSecret.value else HandshakeTraffic(s.side), HANDSHAKE_EPOCH, s.hsSeq,
             HandshakePart(part))
  }

  lemma EmitQueues(s: Sender, part: Part)
    requires EmitPart(s, part).failure.None?
    ensures var t, queued := EmitPart(s, part).sender, Enqueue(s, PartRecord(s, part));
            t.queueTx == queued.queueTx && t.datagramSealed == queued.datagramSealed && t.config == s.config
  {
    if EpochFor(part.msgType) != 0 {
      EmittedEnqueues(s, HANDSHAKE_EPOCH, true, HandshakePart(part));
      EmittedSender(s, HANDSHAKE_EPOCH, true, HandshakePart(part));
      EmittedSeals(s, HANDSHAKE_EPOCH, true, HandshakePart(part));
    }
  }

  lemma EmittedSeals(s: Sender, epoch: nat, save: bool, payload: Payload)
    requires EmitCiphertext(s, epoch, save, payload).failure.None? && SecretFor(s, epoch).Some?
    ensures EmitCiphertext(s, epoch, save, payload).sender.datagramSealed
            == Enqueue(s, Sealed(SecretFor(s, epoch).value, epoch, NumberFor(s, epoch), payload)).datagramSealed
  {
  }

  function CreateHandshake(s: Sender, msgType: MessageType, body: seq<nat>): Outcome
    requires Progresses(s.config)
  {
    if s.nextMsgSeq >= MAX_EPOCH then Outcome(s, Some(CounterOverflow))
    else EmitParts(s.(nextMsgSeq := s.nextMsgSeq + 1), msgType, s.nextMsgSeq, body, 0)
  }

  lemma {:induction false} EmitPartsKeys(s: Sender, msgType: MessageType, seqNo: nat, body: seq<nat>, offset: nat)
    requires Progresses(s.config) && offset <= |body|
    ensures SameKeys(s, EmitParts(s, msgType, seqNo, body, offset).sender)
    decreases |body| - offset
  {
    var part := NextPart(s, msgType, seqNo, body, offset);
    var o := EmitPart(s, part);
    EmitPartFrame(s, part);
    if o.failure.None? && part.End() != |body| {
      EmitPartsKeys(o.sender, msgType, seqNo, body, part.End());
    }
  }

  lemma CreateHandshakeConfig(s: Sender, msgType: MessageType, body: seq<nat>)
    requires Progresses(s.config)
    ensures var t := CreateHandshake(s, msgType, body).sender;
            && t.config == s.config && t.side == s.side && t.hsSecret == s.hsSecret && t.appSecret == s.appSecret
            && t.appEpoch == s.appEpoch && t.prevSecret == s.prevSecret
  {
    if s.nextMsgSeq < MAX_EPOCH {
      EmitPartsKeys(s.(nextMsgSeq := s.nextMsgSeq + 1), msgType, s.nextMsgSeq, body, 0);
    }
  }

  /** Sending a handshake message keeps record numbers unrepeated. */
  lemma {:induction false} EmitPartsKeeps(s: Sender, msgType: MessageType, seqNo: nat, body: seq<nat>, offset: nat)
    requires Progresses(s.config) && offset <= |body| && SenderValid(s)
    ensures SenderValid(EmitParts(s, msgType, seqNo, body, offset).sender)
    decreases |body| - offset
  {
    var part := NextPart(s, msgType, seqNo, body, offset);
    var o := EmitPart(s, part);
    EmitPartFrame(s, part);
    if EpochFor(msgType) == 0 {
      EmitPlaintextKeeps(s, true, HandshakePart(part));
    } else {
      EmitCiphertextKeeps(s, HANDSHAKE_EPOCH, true, HandshakePart(part));
    }
    if o.failure.None? && part.End() != |body| {
      EmitPartsKeeps(o.sender, msgType, seqNo, body, part.End());
    }
  }

  lemma CreateHandshakeKeeps(s: Sender, msgType: MessageType, body: seq<nat>)
    requires Progresses(s.config) && SenderValid(s)
    ensures SenderValid(CreateHandshake(s, msgType, body).sender)
  {
    if s.nextMsgSeq < MAX_EPOCH {
      EmitPartsKeeps(s.(nextMsgSeq := s.nextMsgSeq + 1), msgType, s.nextMsgSeq, body, 0);
    }
  }

  lemma {:induction false} EmitPartsAdvances(
      s: Sender, msgType: MessageType, seqNo: nat, body: seq<nat>, offset: nat)
    requires Progresses(s.config) && offset <= |body|
    ensures Advances(s, EmitParts(s, msgType, seqNo, body, offset).sender)
    decreases |body| - offset
  {
    var part := NextPart(s, msgType, seqNo, body, offset);
    var o := EmitPart(s, part);
    EmitPartFrame(s, part);
    EmitAdvances(s, HANDSHAKE_EPOCH, true, HandshakePart(part));
    if o.failure.None? && part.End() != |body| {
      EmitPartsAdvances(o.sender, msgType, seqNo, body, part.End());
      AdvancesTransitive(s, o.sender, EmitParts(s, msgType, seqNo, body, offset).sender);
    }
  }

  lemma CreateHandshakeAdvances(s: Sender, msgType: MessageType, body: seq<nat>)
    requires Progresses(s.config)
    ensures Advances(s, CreateHandshake(s, msgType, body).sender)
  {
    if s.nextMsgSeq < MAX_EPOCH {
      EmitPartsAdvances(s.(nextMsgSeq := s.nextMsgSeq + 1), msgType, s.nextMsgSeq, body, 0);
    }
  }

  /** The smallest MTU the configuration accepts leaves room, so sending always ends. */
  lemma MinimumMtuProgresses(config: Config)
    requires config.mtu >= MIN_MTU && config.tagLen <= MAX_AEAD_OVERHEAD
    ensures Progresses(config)
  {
  }

  /** The fragments cover the body from `offset` to its end, each starting where the one
      before it ends. */
  ghost predicate Tiles(parts: seq<Part>, msgType: MessageType, seqNo: nat, body: seq<nat>, offset: nat)
    decreases |parts|
  {
    && parts != [] && offset <= |body|
    && parts[0].msgType == msgType && parts[0].seqNo == seqNo && parts[0].length == |body|
    && parts[0].offset == offset && parts[0].End() <= |body|
    && parts[0].bytes == body[offset..parts[0].End()]
    && (parts[0].bytes == [] ==> body == [])
    && if |parts| == 1 then parts[0].End() == |body|
       else parts[0].End() < |body| && Tiles(parts[1..], msgType, seqNo, body, parts[0].End())
  }

  function Concatenated(parts: seq<Part>): seq<nat> {
    if parts == [] then [] else parts[0].bytes + Concatenated(parts[1..])
  }

  lemma {:induction false} TilesConcatenate(
      parts: seq<Part>, msgType: MessageType, seqNo: nat, body: seq<nat>, offset: nat)
    requires Tiles(parts, msgType, seqNo, body, offset)
    ensures Concatenated(parts) == body[offset..]
    decreases |parts|
  {
    if |parts| == 1 {
      assert Concatenated(parts[1..]) == [];
    } else {
      TilesConcatenate(parts[1..], msgType, seqNo, body, parts[0].End());
      assert body[offset..parts[0].End()] + body[parts[0].End()..] == body[offset..];
    }
  }

  function EntryParts(entries: seq<Entry>): seq<Part> {
    seq(|entries|, i requires 0 <= i < |entries| =>
      if entries[i].payload.HandshakePart? then entries[i].payload.part else Part(ClientHello, 0, 0, 0, []))
  }

  /** What sending a message adds: flight entries that tile it, and for each one a record
      carrying it that fits the MTU. */
  ghost predicate SentMessage(
      s: Sender, t: Sender, msgType: MessageType, seqNo: nat, body: seq<nat>, offset: nat)
  {
    && s.flight <= t.flight && s.sent <= t.sent
    && |t.flight| - |s.flight| == |t.sent| - |s.sent|
    && Tiles(EntryParts(t.flight[|s.flight|..]), msgType, seqNo, body, offset)
    && forall i :: |s.flight| <= i < |t.flight| ==>
         && t.flight[i].payload.HandshakePart? && !t.flight[i].acked
         && var record := t.sent[|s.sent| + i - |s.flight|];
            && record.payload == t.flight[i].payload && record.number == t.flight[i].sendSeq
            && WireLen(record, s.config.tagLen) <= s.config.mtu
  }

  /** One fragment: one entry, one record, within the MTU. */
  lemma PartSent(s: Sender, msgType: MessageType, seqNo: nat, body: seq<nat>, offset: nat)
    requires Progresses(s.config) && offset <= |body| && (offset == |body| ==> body == [])
    requires EmitPart(s, NextPart(s, msgType, seqNo, body, offset)).failure.None?
    ensures var part := NextPart(s, msgType, seqNo, body, offset);
            var t := EmitPart(s, part).sender;
            && SameKeys(s, t)
            && t.flight == s.flight + [t.flight[|s.flight|]]
            && t.sent == s.sent + [t.sent[|s.sent|]]
            && part.bytes == body[offset..part.End()] && part.End() <= |body|
            && (part.bytes == [] ==> body == [])
            && var e, r := t.flight[|s.flight|], t.sent[|s.sent|];
               && e.payload == HandshakePart(part) == r.payload && !e.acked && e.sendSeq == r.number
               && WireLen(r, s.config.tagLen) <= s.config.mtu
  {
    var part := NextPart(s, msgType, seqNo, body, offset);
    EmitPartFrame(s, part);
    if EpochFor(msgType) == 0 {
      PlainPartSent(s, part);
    } else {
      SealedPartSent(s, part);
    }
  }

  lemma PlainPartSent(s: Sender, part: Part)
    requires EmitPlaintext(s, true, HandshakePart(part)).failure.None?
    ensures var t := EmitPlaintext(s, true, HandshakePart(part)).sender;
            && t.flight == s.flight + [Entry(0, s.plainSeq, HandshakePart(part), false)]
            && t.sent == s.sent + [Plaintext(s.plainSeq, HandshakePart(part))]
  {
  }

  lemma SealedPartSent(s: Sender, part: Part)
    requires EmitCiphertext(s, HANDSHAKE_EPOCH, true, HandshakePart(part)).failure.None?
    ensures var t := EmitCiphertext(s, HANDSHAKE_EPOCH, true, HandshakePart(part)).sender;
            && t.flight == s.flight + [Entry(HANDSHAKE_EPOCH, s.hsSeq, HandshakePart(part), false)]
            && s.hsSecret.Some?
            && t.sent == s.sent + [Sealed(s.hsSecret.value, HANDSHAKE_EPOCH, s.hsSeq, HandshakePart(part))]
  {
    EmittedSender(s, HANDSHAKE_EPOCH, true, HandshakePart(part));
  }

  /** A message sent in full leaves fragments that tile its body, each saved in the flight
      and carried by a record within the MTU. */
  lemma {:induction false} PartsSent(s: Sender, msgType: MessageType, seqNo: nat, body: seq<nat>, offset: nat)
    requires Progresses(s.config) && offset <= |body| && (offset == |body| ==> body == [])
    requires EmitParts(s, msgType, seqNo, body, offset).failure.None?
    ensures SentMessage(s, EmitParts(s, msgType, seqNo, body, offset).sender, msgType, seqNo, body, offset)
    decreases |body| - offset
  {
    var part := NextPart(s, msgType, seqNo, body, offset);
    var m := EmitPart(s, part).sender;
    PartSent(s, msgType, seqNo, body, offset);
    var t := EmitParts(s, msgType, seqNo, body, offset).sender;
    if part.End() == |body| {
      assert t == m && t.flight[|s.flight|..] == [m.flight[|s.flight|]];
      assert EntryParts(t.flight[|s.flight|..]) == [part];
    } else {
      PartsSent(m, msgType, seqNo, body, part.End());
      MessageContinues(s, m, t, part, body, offset);
    }
  }

  lemma MessageContinues(s: Sender, m: Sender, t: Sender, part: Part, body: seq<nat>, offset: nat)
    requires offset <= |body| && part.offset == offset && part.length == |body|
    requires part.End() < |body| && part.bytes == body[offset..part.End()] && part.bytes != []
    requires m.config == s.config && |m.flight| == |s.flight| + 1 && |m.sent| == |s.sent| + 1
    requires s.flight == m.flight[..|s.flight|] && s.sent == m.sent[..|s.sent|]
    requires var e, r := m.flight[|s.flight|], m.sent[|s.sent|];
             && e.payload == HandshakePart(part) == r.payload && !e.acked && e.sendSeq == r.number
             && WireLen(r, s.config.tagLen) <= s.config.mtu
    requires SentMessage(m, t, part.msgType, part.seqNo, body, part.End())
    ensures SentMessage(s, t, part.msgType, part.seqNo, body, offset)
  {
    var all, rest := EntryParts(t.flight[|s.flight|..]), EntryParts(t.flight[|m.flight|..]);
    assert t.flight[|s.flight|] == m.flight[|s.flight|] && t.sent[|s.sent|] == m.sent[|s.sent|];
    assert all[0] == part && all[1..] == rest;
    forall i | |s.flight| <= i < |t.flight|
      ensures && t.flight[i].payload.HandshakePart? && !t.flight[i].acked
              && var record := t.sent[|s.sent| + i - |s.flight|];
                 && record.payload == t.flight[i].payload && record.number == t.flight[i].sendSeq
                 && WireLen(record, s.config.tagLen) <= s.config.mtu
    {
      if i > |s.flight| {
        assert |s.sent| + i - |s.flight| == |m.sent| + i - |m.flight|;
      }
    }
  }

  // ----- From the sender's body to the receiver's -----

  function PartSet(parts: seq<Part>): set<Part> {
    set i | 0 <= i < |parts| :: parts[i]
  }

  /** Tiling fragments are pieces of the body, and no two start at the same byte. */
  lemma {:induction false} TilePieces(
      parts: seq<Part>, msgType: MessageType, seqNo: nat, body: seq<nat>, offset: nat)
    requires Tiles(parts, msgType, seqNo, body, offset)
    ensures forall i :: 0 <= i < |parts| ==>
              && parts[i].msgType == msgType && parts[i].seqNo == seqNo && parts[i].length == |body|
              && parts[i].offset >= offset && parts[i].End() <= |body|
              && parts[i].bytes == body[parts[i].offset..parts[i].End()]
    ensures forall i, j :: 0 <= i < j < |parts| ==> parts[i].offset < parts[j].offset
    decreases |parts|
  {
    if |parts| > 1 {
      TilePieces(parts[1..], msgType, seqNo, body, parts[0].End());
      assert forall i :: 0 < i < |parts| ==> parts[i] == parts[1..][i - 1];
    }
  }

  lemma {:induction false} TilesCover(
      parts: seq<Part>, msgType: MessageType, seqNo: nat, body: seq<nat>, offset: nat, b: nat)
    requires Tiles(parts, msgType, seqNo, body, offset) && offset <= b < |body|
    ensures exists i :: 0 <= i < |parts| && parts[i].offset <= b < parts[i].End()
    decreases |parts|
  {
    if b < parts[0].End() {
      assert parts[0].offset <= b < parts[0].End();
    } else {
      TilesCover(parts[1..], msgType, seqNo, body, parts[0].End(), b);
      var i :| 0 <= i < |parts[1..]| && parts[1..][i].offset <= b < parts[1..][i].End();
      assert parts[i + 1] == parts[1..][i];
    }
  }

  lemma {:induction false} NothingHandled(q: seq<Item>, peerSeq: nat, maxQueue: nat, items: seq<Item>)
    requires FreshArrivals(items, peerSeq) && forall item :: item in q ==> !item.handled
    ensures forall item :: item in InsertAll(q, peerSeq, false, maxQueue, items) ==> !item.handled
    decreases |items|
  {
    if items != [] {
      var r := Insert(q, peerSeq, false, maxQueue, items[0]);
      assert forall item :: item in r ==> item in q || item == items[0];
      NothingHandled(r, peerSeq, maxQueue, items[1..]);
    }
  }

  /** The queue after any arrivals, in any order and with any repetitions, that bring every
      fragment of one message and nothing else. */
  lemma QueueOfMessage(
      parts: seq<Part>, msgType: MessageType, seqNo: nat, body: seq<nat>, maxQueue: nat, items: seq<Item>)
    requires Tiles(parts, msgType, seqNo, body, 0) && |parts| <= maxQueue
    requires FreshArrivals(items, seqNo) && Parts(items) == PartSet(parts)
    ensures var q := InsertAll([], seqNo, false, maxQueue, items);
            && Sorted(q) && Parts(q) == PartSet(parts) && 0 < |q| <= |parts| && FirstUnhandled(q) == 0
  {
    var q := InsertAll([], seqNo, false, maxQueue, items);
    TilePieces(parts, msgType, seqNo, body, 0);
    PartSetCount(parts);
    assert Parts([]) + Parts(items) == Parts(items);
    assert Consistent(PartSet(parts)) by {
      forall p, r | p in PartSet(parts) && r in PartSet(parts) && p.SameKey(r)
        ensures p == r
      {
        var i :| 0 <= i < |parts| && parts[i] == p;
        var j :| 0 <= j < |parts| && parts[j] == r;
      }
    }
    InsertAllParts([], seqNo, maxQueue, items);
    InsertAllKeepsSorted([], seqNo, false, maxQueue, items);
    NothingHandled([], seqNo, maxQueue, items);
    PartsCount(q);
    assert parts[0] in PartSet(parts);
    assert q != [];
  }

  lemma {:induction false} PartSetCount(parts: seq<Part>)
    ensures |PartSet(parts)| <= |parts|
    decreases |parts|
  {
    if parts != [] {
      var rest := parts[..|parts| - 1];
      PartSetCount(rest);
      assert PartSet(parts) == PartSet(rest) + {parts[|parts| - 1]};
    }
  }

  /** Fragment, lose order, duplicate, reassemble: from the fragments of any body, arriving
      in any order with any repetitions, the receiver reads exactly that body.  Fifty
      fragments is as far as the receiver's walk looks. */
  lemma FragmentsReassemble(
      parts: seq<Part>, msgType: MessageType, seqNo: nat, body: seq<nat>, maxQueue: nat, items: seq<Item>)
    requires Tiles(parts, msgType, seqNo, body, 0) && |parts| <= maxQueue && |parts| <= MAX_DEFRAGMENT_PACKETS
    requires FreshArrivals(items, seqNo) && Parts(items) == PartSet(parts)
    ensures var q := InsertAll([], seqNo, false, maxQueue, items);
            && HasComplete(q, msgType, seqNo)
            && Defragment(Window(q)) == Some(body)
  {
    var q := InsertAll([], seqNo, false, maxQueue, items);
    QueueOfMessage(parts, msgType, seqNo, body, maxQueue, items);
    TilePieces(parts, msgType, seqNo, body, 0);
    assert Window(q) == q && q[FirstUnhandled(q)..] == q;
    forall i | 0 <= i < |q|
      ensures && q[i].part.msgType == msgType && q[i].part.seqNo == seqNo && q[i].part.length == |body|
              && q[i].part.End() <= |body| && q[i].part.bytes == body[q[i].part.offset..q[i].part.End()]
    {
      assert q[i].part in Parts(q);
    }
    assert Covers(q, seqNo, 0, |body|) by {
      forall b: nat | b < |body|
        ensures CoversByte(q, seqNo, b)
      {
        TilesCover(parts, msgType, seqNo, body, 0, b);
        var i :| 0 <= i < |parts| && parts[i].offset <= b < parts[i].End();
        assert parts[i] in Parts(q);
      }
    }
    CompleteIsCoverage(q, msgType, seqNo);
    AllSameType(q, msgType);
    ReassemblyExact(q, seqNo, body);
  }

  lemma {:induction false} AllSameType(w: seq<Item>, t: MessageType)
    requires forall i :: 0 <= i < |w| ==> w[i].part.msgType == t
    ensures SameTypeRun(w, t) == w
  {
    if w != [] {
      AllSameType(w[1..], t);
    }
  }

  // ----- DTLS 1.2: no overlaps tolerated -----

  /** The DTLS 1.2 walk: each fragment of the message must start where the last one ended. */
  predicate StrictWalk(w: seq<Item>, seqNo: nat, length: nat, end: nat) {
    if w == [] then false
    else if w[0].part.seqNo != seqNo then StrictWalk(w[1..], seqNo, length, end)
    else if w[0].part.offset != end then false
    else w[0].part.End() == length || StrictWalk(w[1..], seqNo, length, w[0].part.End())
  }

  const RECORD_HEADER_LEN_12 := 13

  /** The DTLS 1.2 loop, whatever `used(offset)` bytes the datagram being built holds when
      the fragment at `offset` is cut: header, handshake header and AEAD overhead are fixed. */
  function Cut(mtu: nat, overhead: nat, used: nat -> nat, msgType: MessageType, seqNo: nat, body: seq<nat>, offset: nat)
    : seq<Part>
    requires RECORD_HEADER_LEN_12 + HANDSHAKE_HEADER_LEN + overhead < mtu && offset <= |body|
    decreases |body| - offset
  {
    var room := Room(mtu, RECORD_HEADER_LEN_12 + HANDSHAKE_HEADER_LEN + overhead, used(offset));
    var chunk := if |body| - offset < room then |body| - offset else room;
    var part := Part(msgType, seqNo, |body|, offset, body[offset..offset + chunk]);
    if part.End() == |body| then [part] else [part] + Cut(mtu, overhead, used, msgType, seqNo, body, part.End())
  }

  function Room(mtu: nat, fixed: nat, used: nat): (room: nat)
    requires fixed < mtu
    ensures 0 < room <= mtu - fixed
  {
    var available := if mtu > used then mtu - used else 0;
    if available > fixed then available - fixed else mtu - fixed
  }

  /** At the smallest MTU the configuration accepts the fragments tile the body, and each
      fits the MTU with its headers. */
  lemma {:induction false} CutTiles(
      mtu: nat, overhead: nat, used: nat -> nat, msgType: MessageType, seqNo: nat, body: seq<nat>, offset: nat)
    requires mtu >= MIN_MTU && overhead <= MAX_AEAD_OVERHEAD && offset <= |body| && (offset == |body| ==> body == [])
    ensures var parts := Cut(mtu, overhead, used, msgType, seqNo, body, offset);
            && Tiles(parts, msgType, seqNo, body, offset)
            && forall i :: 0 <= i < |parts| ==>
                 RECORD_HEADER_LEN_12 + HANDSHAKE_HEADER_LEN + overhead + |parts[i].bytes| <= mtu
    decreases |body| - offset
  {
    var parts := Cut(mtu, overhead, used, msgType, seqNo, body, offset);
    if parts[0].End() != |body| {
      CutTiles(mtu, overhead, used, msgType, seqNo, body, parts[0].End());
      assert parts[1..] == Cut(mtu, overhead, used, msgType, seqNo, body, parts[0].End());
      assert forall i :: 0 < i < |parts| ==> parts[i] == parts[1..][i - 1];
    }
  }

  lemma {:induction false} TilesWalk(w: seq<Item>, msgType: MessageType, seqNo: nat, body: seq<nat>, offset: nat)
    requires Tiles(PartsOf(w), msgType, seqNo, body, offset)
    ensures StrictWalk(w, seqNo, |body|, offset)
    decreases |w|
  {
    assert PartsOf(w)[0] == w[0].part && PartsOf(w)[1..] == PartsOf(w[1..]);
    if |w| > 1 {
      TilesWalk(w[1..], msgType, seqNo, body, w[0].part.End());
    }
  }

  /** The same arrivals satisfy the strict walk too, and reading the fragments one after
      the other gives the body. */
  lemma FragmentsReassembleStrictly(
      parts: seq<Part>, msgType: MessageType, seqNo: nat, body: seq<nat>, maxQueue: nat, items: seq<Item>)
    requires Tiles(parts, msgType, seqNo, body, 0) && |parts| <= maxQueue && |parts| <= MAX_DEFRAGMENT_PACKETS
    requires FreshArrivals(items, seqNo) && Parts(items) == PartSet(parts)
    ensures var q := InsertAll([], seqNo, false, maxQueue, items);
            StrictWalk(Window(q), seqNo, |body|, 0) && Concatenated(PartsOf(Window(q))) == body
  {
    var q := InsertAll([], seqNo, false, maxQueue, items);
    QueueOfMessage(parts, msgType, seqNo, body, maxQueue, items);
    TilePieces(parts, msgType, seqNo, body, 0);
    var inOrder := seq(|parts|, i requires 0 <= i < |parts| => Item(parts[i], 0, 0, false));
    assert Parts(inOrder) == PartSet(parts) by {
      assert forall i :: 0 <= i < |parts| ==> inOrder[i].part == parts[i];
    }
    SortedUnique(q, inOrder);
    assert PartsOf(q) == parts;
    assert Window(q) == q;
    TilesWalk(q, msgType, seqNo, body, 0);
    TilesConcatenate(parts, msgType, seqNo, body, 0);
  }

  /** The fragments a flight gained, delivered in any order, any of them any number of times. */
  lemma GainedIsRead(
      s: Sender, t: Sender, msgType: MessageType, seqNo: nat, body: seq<nat>, maxQueue: nat, items: seq<Item>)
    requires SentMessage(s, t, msgType, seqNo, body, 0)
    requires |t.flight| - |s.flight| <= maxQueue && |t.flight| - |s.flight| <= MAX_DEFRAGMENT_PACKETS
    requires Parts(items) == PartSet(EntryParts(t.flight[|s.flight|..])) && FreshArrivals(items, seqNo)
    ensures var q := InsertAll([], seqNo, false, maxQueue, items);
            HasComplete(q, msgType, seqNo) && Defragment(Window(q)) == Some(body)
  {
    FragmentsReassemble(EntryParts(t.flight[|s.flight|..]), msgType, seqNo, body, maxQueue, items);
  }

  /** The two halves together: a message sent by `CreateHandshake` and delivered in any
      order, any fragment any number of times, is read back as it was sent. */
  lemma SentMessageIsRead(s: Sender, msgType: MessageType, body: seq<nat>, maxQueue: nat, items: seq<Item>)
    requires Progresses(s.config) && CreateHandshake(s, msgType, body).failure.None?
    requires var t := CreateHandshake(s, msgType, body).sender;
             && |s.flight| <= |t.flight|
             && |t.flight| - |s.flight| <= maxQueue && |t.flight| - |s.flight| <= MAX_DEFRAGMENT_PACKETS
             && Parts(items) == PartSet(EntryParts(t.flight[|s.flight|..]))
    requires FreshArrivals(items, s.nextMsgSeq)
    ensures var q := InsertAll([], s.nextMsgSeq, false, maxQueue, items);
            HasComplete(q, msgType, s.nextMsgSeq) && Defragment(Window(q)) == Some(body)
  {
    MessageIsSent(s, msgType, body);
    GainedIsRead(s.(nextMsgSeq := s.nextMsgSeq + 1), CreateHandshake(s, msgType, body).sender, msgType, s.nextMsgSeq,
                 body, maxQueue, items);
  }

  lemma MessageIsSent(s: Sender, msgType: MessageType, body: seq<nat>)
    requires Progresses(s.config) && CreateHandshake(s, msgType, body).failure.None?
    ensures SentMessage(s.(nextMsgSeq := s.nextMsgSeq + 1), CreateHandshake(s, msgType, body).sender, msgType,
                        s.nextMsgSeq, body, 0)
  {
    PartsSent(s.(nextMsgSeq := s.nextMsgSeq + 1), msgType, s.nextMsgSeq, body, 0);
  }

  // ----- What goes out in the clear -----

  /** The records gained carry the hellos in the clear, and anything else sealed under the
      handshake key. */
  ghost predicate Protected(s: Sender, t: Sender, msgType: MessageType) {
    && s.sent <= t.sent
    && forall i :: |s.sent| <= i < |t.sent| ==>
      if msgType.ClientHello? || msgType.ServerHello? then t.sent[i].Plaintext?
      else t.sent[i].Ciphertext? && Some(t.sent[i].secret) == s.hsSecret
  }

  lemma PartProtected(s: Sender, part: Part)
    ensures Protected(s, EmitPart(s, part).sender, part.msgType)
  {
    if EmitPart(s, part).failure.None? {
      if EpochFor(part.msgType) == 0 {
        PlainPartSent(s, part);
      } else {
        SealedPartSent(s, part);
      }
    } else if EpochFor(part.msgType) != 0 {
      FailedEmit(s, HANDSHAKE_EPOCH, true, HandshakePart(part));
    }
  }

  lemma {:induction false} PartsProtected(s: Sender, msgType: MessageType, seqNo: nat, body: seq<nat>, offset: nat)
    requires Progresses(s.config) && offset <= |body|
    ensures Protected(s, EmitParts(s, msgType, seqNo, body, offset).sender, msgType)
    decreases |body| - offset
  {
    var part := NextPart(s, msgType, seqNo, body, offset);
    var o := EmitPart(s, part);
    EmitPartFrame(s, part);
    PartProtected(s, part);
    if o.failure.None? && part.End() != |body| {
      PartsProtected(o.sender, msgType, seqNo, body, part.End());
    }
  }

  /** Of all handshake messages only ClientHello and ServerHello ever leave in the clear, and
      these always; whether or not the message gets out whole. */
  lemma HellosInClear(s: Sender, msgType: MessageType, body: seq<nat>)
    requires Progresses(s.config)
    ensures Protected(s, CreateHandshake(s, msgType, body).sender, msgType)
  {
    if s.nextMsgSeq < MAX_EPOCH {
      PartsProtected(s.(nextMsgSeq := s.nextMsgSeq + 1), msgType, s.nextMsgSeq, body, 0);
    }
  }
}
