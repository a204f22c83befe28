/** The sending half of a DTLS 1.2 engine: records packed into datagrams, the saved flight,
    and handshake messages cut to fill what is left of the datagram being built. */
module Packing12 {
  import opened Queues
  import opened Handshakes
  import opened Reassembly
  import F = Fragmentation

  const HEADER_LEN := 13
  const HANDSHAKE_HEADER_LEN := 12
  const NEW_SESSION_TICKET := Unknown(4)

  /** `overhead` is the explicit nonce and the tag of a sealed record. */
  datatype Config = Config(mtu: nat, maxQueueTx: nat, overhead: nat)

  datatype Content = Fragment(part: Part) | Plain(contentType: nat, bytes: seq<nat>) {
    function Len(): nat {
      if Fragment? then HANDSHAKE_HEADER_LEN + |part.bytes| else |bytes|
    }
  }

  /** Epoch 0 is in the clear, the other one sealed. */
  datatype Record = Record(epoch: nat, number: nat, content: Content)

  /** What is kept for a resend. */
  datatype Entry = Entry(epoch: nat, content: Content)

  datatype Failure = NoCipherSuite | TransmitQueueFull | NoWriteKeys

  /** `sent` lists every record ever put on the transmit queue. */
  datatype Writer = Writer(
    config: Config,
    cipherSuite: bool,
    writeKeys: bool,
    sequenceEpoch0: nat,
    sequenceEpochN: nat,
    nextHandshakeSeqNo: nat,
    flight: seq<Entry>,
    queueTx: seq<seq<Record>>,
    sent: seq<Record>)

  datatype Outcome = Outcome(w: Writer, failure: Option<Failure>)

  function NewWriter(config: Config): Writer {
    Writer(config, false, false, 0, 0, 0, [], [], [])
  }

  // ----- Records -----

  function WireLen(c: Config, r: Record): nat {
    HEADER_LEN + r.content.Len() + if r.epoch >= 1 then c.overhead else 0
  }

  function DatagramLen(c: Config, d: seq<Record>): nat {
    if d == [] then 0 else DatagramLen(c, d[..|d| - 1]) + WireLen(c, d[|d| - 1])
  }

  predicate CanAppend(w: Writer, r: Record) {
    w.queueTx != [] && DatagramLen(w.config, w.queueTx[|w.queueTx| - 1]) + WireLen(w.config, r) <= w.config.mtu
  }

  function Enqueue(w: Writer, r: Record): Writer {
    var last := |w.queueTx| - 1;
    w.(queueTx := if CanAppend(w, r) then w.queueTx[last := w.queueTx[last] + [r]] else w.queueTx + [[r]],
       sent := w.sent + [r])
  }

  function NextNumber(w: Writer, epoch: nat): nat {
    if epoch == 0 then w.sequenceEpoch0 else w.sequenceEpochN
  }

  function Counted(w: Writer, epoch: nat): Writer {
    if epoch == 0 then w.(sequenceEpoch0 := w.sequenceEpoch0 + 1) else w.(sequenceEpochN := w.sequenceEpochN + 1)
  }

  /** A record is saved before there is known to be room for it. */
  function CreateRecord(w0: Writer, epoch: nat, save: bool, content: Content): Outcome {
    if epoch >= 1 && !w0.cipherSuite then Outcome(w0, Some(NoCipherSuite))
    else
      var w := if save then w0.(flight := w0.flight + [Entry(epoch, content)]) else w0;
      var r := Record(epoch, NextNumber(w, epoch), content);
      if !CanAppend(w, r) && |w.queueTx| >= w.config.maxQueueTx then Outcome(w, Some(TransmitQueueFull))
      else if epoch >= 1 && !w.writeKeys then Outcome(w, Some(NoWriteKeys))
      else Outcome(Enqueue(Counted(w, epoch), r), None)
  }

  // ----- Flights -----

  /** The saved records once more, up to the first failure. */
  function ResendEntries(w: Writer, entries: seq<Entry>): Outcome
    decreases |entries|
  {
    if entries == [] then Outcome(w, None)
    else
      var o := CreateRecord(w, entries[0].epoch, false, entries[0].content);
      if o.failure.Some? then o else ResendEntries(o.w, entries[1..])
  }

  /** A flight whose resend fails is forgotten. */
  function FlightResend(w: Writer): Outcome {
    var o := ResendEntries(w.(flight := []), w.flight);
    if o.failure.Some? then o else Outcome(o.w.(flight := w.flight), None)
  }

  // ----- Handshake messages -----

  function EpochOf(msgType: MessageType): nat {
    if msgType.Finished? || msgType == NEW_SESSION_TICKET then 1 else 0
  }

  function FixedOverhead(c: Config, msgType: MessageType): nat {
    HEADER_LEN + HANDSHAKE_HEADER_LEN + if EpochOf(msgType) >= 1 then c.overhead else 0
  }

  /** Every handshake record has room for a body byte. */
  predicate Progresses(c: Config) {
    HEADER_LEN + HANDSHAKE_HEADER_LEN + c.overhead < c.mtu
  }

  /** The datagram being built. */
  function LastDatagram(w: Writer): seq<Record> {
    if w.queueTx == [] then [] else w.queueTx[|w.queueTx| - 1]
  }

  function UsedInLast(w: Writer): nat {
    DatagramLen(w.config, LastDatagram(w))
  }

  function NextPart(w: Writer, msgType: MessageType, seqNo: nat, body: seq<nat>, offset: nat): (p: Part)
    requires Progresses(w.config) && offset <= |body|
    ensures p.offset == offset && p.End() <= |body| && (offset < |body| ==> p.bytes != [])
    ensures |p.bytes| + FixedOverhead(w.config, msgType) <= w.config.mtu
  {
    var room := F.Room(w.config.mtu, FixedOverhead(w.config, msgType), UsedInLast(w));
    var chunk := if |body| - offset < room then |body| - offset else room;
    Part(msgType, seqNo, |body|, offset, body[offset..offset + chunk])
  }

  function CreateParts(w: Writer, msgType: MessageType, seqNo: nat, body: seq<nat>, offset: nat): Outcome
    requires Progresses(w.config) && offset <= |body|
    decreases |body| - offset
  {
    var part := NextPart(w, msgType, seqNo, body, offset);
    var o := CreateRecord(w, EpochOf(msgType), true, Fragment(part));
    if o.failure.Some? || part.End() == |body| then o else CreateParts(o.w, msgType, seqNo, body, part.End())
  }

  /** One round of the loop, `next` being the outcome of its record. */
  lemma CreatePartsStep(w: Writer, msgType: MessageType, seqNo: nat, body: seq<nat>, offset: nat, next: Outcome)
    requires Progresses(w.config) && offset <= |body|
    requires next == CreateRecord(w, EpochOf(msgType), true, Fragment(NextPart(w, msgType, seqNo, body, offset)))
    ensures var part := NextPart(w, msgType, seqNo, body, offset);
            && next.w.config == w.config
            && CreateParts(w, msgType, seqNo, body, offset)
               == if next.failure.Some? || part.End() == |body| then next
                  else CreateParts(next.w, msgType, seqNo, body, part.End())
  {
  }

  lemma LastAfter(w: Writer, r: Record)
    ensures UsedInLast(Enqueue(w, r)) == (if CanAppend(w, r) then UsedInLast(w) else 0) + WireLen(w.config, r)
  {
    var last := if CanAppend(w, r) then w.queueTx[|w.queueTx| - 1] else [];
    assert (last + [r])[..|last|] == last && [] + [r] == [r];
    assert LastDatagram(Enqueue(w, r)) == last + [r] && Enqueue(w, r).config == w.config;
    assert DatagramLen(w.config, last + [r]) == DatagramLen(w.config, last) + WireLen(w.config, r);
  }

  /** A fragment that does not end its message fills the datagram it goes into to the last byte. */
  lemma FragmentFills(w: Writer, msgType: MessageType, seqNo: nat, body: seq<nat>, offset: nat)
    requires Progresses(w.config) && offset <= |body|
    requires var part := NextPart(w, msgType, seqNo, body, offset);
             part.End() < |body| && CreateRecord(w, EpochOf(msgType), true, Fragment(part)).failure.None?
    ensures var part := NextPart(w, msgType, seqNo, body, offset);
            UsedInLast(CreateRecord(w, EpochOf(msgType), true, Fragment(part)).w) == w.config.mtu
  {
    var part := NextPart(w, msgType, seqNo, body, offset);
    var r := Record(EpochOf(msgType), NextNumber(w, EpochOf(msgType)), Fragment(part));
    CreatedEnqueues(w, EpochOf(msgType), true, Fragment(part));
    LastAfter(w, r);
    RoomIsLeft(w, r, msgType, part, |body| - offset);
  }

  lemma CreatedEnqueues(w: Writer, epoch: nat, save: bool, content: Content)
    requires CreateRecord(w, epoch, save, content).failure.None?
    ensures UsedInLast(CreateRecord(w, epoch, save, content).w)
            == UsedInLast(Enqueue(w, Record(epoch, NextNumber(w, epoch), content)))
  {
  }

  /** Taking all the room there is. */
  lemma RoomIsLeft(w: Writer, r: Record, msgType: MessageType, part: Part, rest: nat)
    requires Progresses(w.config) && r.epoch == EpochOf(msgType) && r.content == Fragment(part) && |part.bytes| < rest
    requires var room := F.Room(w.config.mtu, FixedOverhead(w.config, msgType), UsedInLast(w));
             |part.bytes| == if rest < room then rest else room
    ensures (if CanAppend(w, r) then UsedInLast(w) else 0) + WireLen(w.config, r) == w.config.mtu
  {
    assert WireLen(w.config, r) == FixedOverhead(w.config, msgType) + |part.bytes|;
  }

  function CreateHandshake(w: Writer, msgType: MessageType, body: seq<nat>): Outcome
    requires Progresses(w.config)
  {
    var numbered := w.(nextHandshakeSeqNo := w.nextHandshakeSeqNo + 1);
    if EpochOf(msgType) >= 1 && !w.cipherSuite then Outcome(numbered, Some(NoCipherSuite))
    else CreateParts(numbered, msgType, w.nextHandshakeSeqNo, body, 0)
  }

  // ----- Runs -----

  datatype Op =
    | Create(epoch: nat, save: bool, content: Content)
    | CreateMessage(msgType: MessageType, body: seq<nat>)
    | FlightBegin
    | Resend
    | PollPacket
    | DiscardPendingWrites
    | Abort
    | SetCipherSuite
    | DeriveKeys

  /** The state functions never put a handshake fragment into a record themselves. */
  predicate Allowed(op: Op) {
    op.Create? ==> op.content.Plain?
  }

  function Perform(w: Writer, op: Op): Writer
    requires Progresses(w.config)
  {
    match op
    case Create(epoch, save, content) => CreateRecord(w, epoch, save, content).w
    case CreateMessage(msgType, body) => CreateHandshake(w, msgType, body).w
    case FlightBegin => w.(flight := [])
    case Resend => FlightResend(w).w
    case PollPacket => if w.queueTx == [] then w else w.(queueTx := w.queueTx[1..])
    case DiscardPendingWrites => w.(queueTx := [])
    case Abort => w.(queueTx := [], flight := [])
    case SetCipherSuite => w.(cipherSuite := true)
    case DeriveKeys => w.(writeKeys := true)
  }

  /** No more datagrams than allowed, each within the MTU but for a lone record that is not
      a handshake fragment. */
  ghost predicate WellPacked(w: Writer) {
    && |w.queueTx| <= w.config.maxQueueTx
    && forall d :: d in w.queueTx ==> Packed(w.config, d)
  }

  predicate Packed(c: Config, d: seq<Record>) {
    d != [] && (DatagramLen(c, d) <= c.mtu || (|d| == 1 && d[0].content.Plain?))
  }

  /** A content that a record of the epoch carries within the MTU, unless the caller made it. */
  predicate Fits(c: Config, epoch: nat, content: Content) {
    content.Fragment? ==> WireLen(c, Record(epoch, 0, content)) <= c.mtu
  }

  /** The numbers of an epoch so far: from 0, without gap or repetition. */
  function NumbersOf(sent: seq<Record>, sealed: bool): seq<nat> {
    if sent == [] then []
    else
      var last := |sent| - 1;
      NumbersOf(sent[..last], sealed) + if (sent[last].epoch >= 1) == sealed then [sent[last].number] else []
  }

  ghost predicate CountsUp(numbers: seq<nat>, next: nat) {
    |numbers| == next && forall i :: 0 <= i < |numbers| ==> numbers[i] == i
  }

  ghost predicate WriterValid(w: Writer) {
    && Progresses(w.config) && WellPacked(w)
    && (forall e :: e in w.flight ==> Fits(w.config, e.epoch, e.content))
    && CountsUp(NumbersOf(w.sent, false), w.sequenceEpoch0) && CountsUp(NumbersOf(w.sent, true), w.sequenceEpochN)
  }

  lemma LoneRecord(c: Config, r: Record)
    ensures DatagramLen(c, [r]) == WireLen(c, r)
  {
    assert [r][..0] == [];
  }

  lemma EnqueuePacks(w: Writer, r: Record)
    requires WellPacked(w) && Fits(w.config, r.epoch, r.content)
    requires CanAppend(w, r) || |w.queueTx| < w.config.maxQueueTx
    ensures WellPacked(Enqueue(w, r))
  {
    var t := Enqueue(w, r);
    LoneRecord(w.config, r);
    assert WireLen(w.config, r) == WireLen(w.config, Record(r.epoch, 0, r.content));
    if CanAppend(w, r) {
      var d := w.queueTx[|w.queueTx| - 1];
      assert (d + [r])[..|d + [r]| - 1] == d;
    }
    forall d | d in t.queueTx
      ensures Packed(w.config, d)
    {
      assert d in w.queueTx || d == t.queueTx[|t.queueTx| - 1];
    }
  }

  lemma NumbersLast(sent: seq<Record>, r: Record, sealed: bool)
    ensures NumbersOf(sent + [r], sealed)
            == NumbersOf(sent, sealed) + if (r.epoch >= 1) == sealed then [r.number] else []
  {
    assert (sent + [r])[..|sent + [r]| - 1] == sent;
  }

  lemma CountsOn(numbers: seq<nat>, next: nat)
    requires CountsUp(numbers, next)
    ensures CountsUp(numbers + [next], next + 1) && CountsUp(numbers + [], next)
  {
    assert numbers + [] == numbers;
  }

  lemma RecordCounts(w: Writer, epoch: nat, content: Content)
    requires CountsUp(NumbersOf(w.sent, false), w.sequenceEpoch0) && CountsUp(NumbersOf(w.sent, true), w.sequenceEpochN)
    ensures var t := Enqueue(Counted(w, epoch), Record(epoch, NextNumber(w, epoch), content));
            CountsUp(NumbersOf(t.sent, false), t.sequenceEpoch0) && CountsUp(NumbersOf(t.sent, true), t.sequenceEpochN)
  {
    var r := Record(epoch, NextNumber(w, epoch), content);
    NumbersLast(w.sent, r, false);
    NumbersLast(w.sent, r, true);
    CountsOn(NumbersOf(w.sent, false), w.sequenceEpoch0);
    CountsOn(NumbersOf(w.sent, true), w.sequenceEpochN);
  }

  lemma CreateRecordKeeps(w: Writer, epoch: nat, save: bool, content: Content)
    requires WriterValid(w) && Fits(w.config, epoch, content)
    ensures WriterValid(CreateRecord(w, epoch, save, content).w)
    ensures CreateRecord(w, epoch, save, content).w.config == w.config
  {
    var s := if save then w.(flight := w.flight + [Entry(epoch, content)]) else w;
    assert WriterValid(s);
    var r := Record(epoch, NextNumber(s, epoch), content);
    if CanAppend(s, r) || |s.queueTx| < s.config.maxQueueTx {
      assert WellPacked(Counted(s, epoch));
      EnqueuePacks(Counted(s, epoch), r);
      RecordCounts(s, epoch, content);
    }
  }

  lemma {:induction false} CreatePartsKeeps(w: Writer, msgType: MessageType, seqNo: nat, body: seq<nat>, offset: nat)
    requires WriterValid(w) && offset <= |body|
    ensures WriterValid(CreateParts(w, msgType, seqNo, body, offset).w)
    decreases |body| - offset
  {
    var part := NextPart(w, msgType, seqNo, body, offset);
    CreateRecordKeeps(w, EpochOf(msgType), true, Fragment(part));
    var o := CreateRecord(w, EpochOf(msgType), true, Fragment(part));
    if o.failure.None? && part.End() != |body| {
      CreatePartsKeeps(o.w, msgType, seqNo, body, part.End());
    }
  }

  lemma {:induction false} ResendKeeps(w: Writer, entries: seq<Entry>)
    requires WriterValid(w) && forall e :: e in entries ==> Fits(w.config, e.epoch, e.content)
    ensures WriterValid(ResendEntries(w, entries).w) && ResendEntries(w, entries).w.config == w.config
    decreases |entries|
  {
    if entries != [] {
      CreateRecordKeeps(w, entries[0].epoch, false, entries[0].content);
      var o := CreateRecord(w, entries[0].epoch, false, entries[0].content);
      if o.failure.None? {
        ResendKeeps(o.w, entries[1..]);
      }
    }
  }

  lemma PerformKeeps(w: Writer, op: Op)
    requires WriterValid(w) && Allowed(op)
    ensures WriterValid(Perform(w, op))
  {
    match op
    case Create(epoch, save, content) => CreateRecordKeeps(w, epoch, save, content);
    case CreateMessage(msgType, body) => CreateHandshakeKeeps(w, msgType, body);
    case Resend => ResendKeeps(w.(flight := []), w.flight);
    case _ =>
  }

  lemma CreateHandshakeKeeps(w: Writer, msgType: MessageType, body: seq<nat>)
    requires WriterValid(w) && Progresses(w.config)
    ensures WriterValid(CreateHandshake(w, msgType, body).w)
  {
    CreatePartsKeeps(w.(nextHandshakeSeqNo := w.nextHandshakeSeqNo + 1), msgType, w.nextHandshakeSeqNo, body, 0);
  }

  ghost function PerformAll(w: Writer, ops: seq<Op>): Writer
    requires WriterValid(w) && forall op :: op in ops ==> Allowed(op)
    decreases |ops|
  {
    if ops == [] then w
    else
      PerformKeeps(w, ops[0]);
      PerformAll(Perform(w, ops[0]), ops[1..])
  }

  /** Whatever is sent, resent and polled, with or without room: the transmit queue keeps to
      its bound, every datagram fits the MTU but for a lone record that is too large by
      itself and no handshake fragment, and the records of each epoch are numbered from 0
      without gap or repetition. */
  lemma {:induction false} DatagramsFit(w: Writer, ops: seq<Op>)
    requires WriterValid(w) && forall op :: op in ops ==> Allowed(op)
    ensures WriterValid(PerformAll(w, ops))
    decreases |ops|
  {
    if ops != [] {
      PerformKeeps(w, ops[0]);
      DatagramsFit(Perform(w, ops[0]), ops[1..]);
    }
  }

  lemma NewWriterValid(config: Config)
    requires Progresses(config)
    ensures WriterValid(NewWriter(config))
  {
  }

  // ----- From a message to its fragments -----

  function PartsOf(records: seq<Record>): seq<Part> {
    seq(|records|, i requires 0 <= i < |records| =>
      if records[i].content.Fragment? then records[i].content.part else Part(ClientHello, 0, 0, 0, []))
  }

  /** What sending a message adds: a record per saved entry, each a fragment within the MTU,
      and together they tile the body. */
  ghost predicate SentMessage(w: Writer, t: Writer, msgType: MessageType, seqNo: nat, body: seq<nat>, offset: nat) {
    && w.sent <= t.sent && w.flight <= t.flight && |t.sent| - |w.sent| == |t.flight| - |w.flight|
    && F.Tiles(PartsOf(t.sent[|w.sent|..]), msgType, seqNo, body, offset)
    && forall i :: |w.sent| <= i < |t.sent| ==>
         && t.sent[i].content.Fragment? && WireLen(w.config, t.sent[i]) <= w.config.mtu
         && t.flight[|w.flight| + i - |w.sent|] == Entry(t.sent[i].epoch, t.sent[i].content)
  }

  lemma PartSent(w: Writer, msgType: MessageType, seqNo: nat, body: seq<nat>, offset: nat)
    requires Progresses(w.config) && offset <= |body|
    requires CreateRecord(w, EpochOf(msgType), true, Fragment(NextPart(w, msgType, seqNo, body, offset))).failure.None?
    ensures var content := Fragment(NextPart(w, msgType, seqNo, body, offset));
            var r := Record(EpochOf(msgType), NextNumber(w, EpochOf(msgType)), content);
            var m := CreateRecord(w, EpochOf(msgType), true, content).w;
            && m.config == w.config && m.sent == w.sent + [r] && m.flight == w.flight + [Entry(r.epoch, content)]
            && WireLen(w.config, r) <= w.config.mtu
            && var part := content.part;
               && part.msgType == msgType && part.seqNo == seqNo && part.offset == offset && part.length == |body|
               && part.End() <= |body| && part.bytes == body[offset..part.End()]
               && (part.bytes == [] ==> offset == |body|)
  {
  }

  /** The first fragment before the rest of the message. */
  lemma MessageContinues(w: Writer, m: Writer, t: Writer, r: Record, body: seq<nat>)
    requires r.content.Fragment? && WireLen(w.config, r) <= w.config.mtu
    requires m.config == w.config && m.sent == w.sent + [r] && m.flight == w.flight + [Entry(r.epoch, r.content)]
    requires var part := r.content.part;
             && part.length == |body| && part.End() < |body| && part.bytes == body[part.offset..part.End()]
             && part.bytes != []
             && SentMessage(m, t, part.msgType, part.seqNo, body, part.End())
    ensures SentMessage(w, t, r.content.part.msgType, r.content.part.seqNo, body, r.content.part.offset)
  {
    var all, rest := PartsOf(t.sent[|w.sent|..]), PartsOf(t.sent[|m.sent|..]);
    assert t.sent[|w.sent|] == m.sent[|w.sent|] && t.flight[|w.flight|] == m.flight[|w.flight|];
    assert all[0] == r.content.part && all[1..] == rest;
  }

  lemma MessageEnds(w: Writer, m: Writer, r: Record, body: seq<nat>)
    requires r.content.Fragment? && WireLen(w.config, r) <= w.config.mtu
    requires m.config == w.config && m.sent == w.sent + [r] && m.flight == w.flight + [Entry(r.epoch, r.content)]
    requires var part := r.content.part;
             && part.length == |body| == part.End() && part.bytes == body[part.offset..part.End()]
             && (part.bytes == [] ==> body == [])
    ensures SentMessage(w, m, r.content.part.msgType, r.content.part.seqNo, body, r.content.part.offset)
  {
    assert m.sent[|w.sent|..] == [r] && PartsOf([r]) == [r.content.part];
  }

  /** A message sent in full leaves fragments that tile its body, each saved in the flight
      and carried by a record within the MTU. */
  lemma {:induction false} PartsSent(w: Writer, msgType: MessageType, seqNo: nat, body: seq<nat>, offset: nat)
    requires Progresses(w.config) && offset <= |body| && (offset == |body| ==> body == [])
    requires CreateParts(w, msgType, seqNo, body, offset).failure.None?
    ensures SentMessage(w, CreateParts(w, msgType, seqNo, body, offset).w, msgType, seqNo, body, offset)
    decreases |body| - offset
  {
    var part := NextPart(w, msgType, seqNo, body, offset);
    var next := CreateRecord(w, EpochOf(msgType), true, Fragment(part));
    CreatePartsStep(w, msgType, seqNo, body, offset, next);
    PartSent(w, msgType, seqNo, body, offset);
    var r := Record(EpochOf(msgType), NextNumber(w, EpochOf(msgType)), Fragment(part));
    if part.End() == |body| {
      MessageEnds(w, next.w, r, body);
    } else {
      PartsSent(next.w, msgType, seqNo, body, part.End());
      MessageContinues(w, next.w, CreateParts(next.w, msgType, seqNo, body, part.End()).w, r, body);
    }
  }

  /** The records a writer gained, delivered in any order, any of them any number of times. */
  lemma GainedIsRead(
      w: Writer, t: Writer, msgType: MessageType, seqNo: nat, body: seq<nat>, maxQueue: nat, items: seq<Item>)
    requires SentMessage(w, t, msgType, seqNo, body, 0)
    requires |t.sent| - |w.sent| <= maxQueue && |t.sent| - |w.sent| <= MAX_DEFRAGMENT_PACKETS
    requires Parts(items) == F.PartSet(PartsOf(t.sent[|w.sent|..])) && FreshArrivals(items, seqNo)
    ensures var q := InsertAll([], seqNo, false, maxQueue, items);
            && F.StrictWalk(Window(q), seqNo, |body|, 0)
            && F.Concatenated(Reassembly.PartsOf(Window(q))) == body
  {
    F.FragmentsReassembleStrictly(PartsOf(t.sent[|w.sent|..]), msgType, seqNo, body, maxQueue, items);
  }

  /** The records that carry a message sent in full bring the peer that message: in any order
      and with any repetitions its walk finds them complete and joins them to the body. */
  lemma SentMessageIsRead(w: Writer, msgType: MessageType, body: seq<nat>, maxQueue: nat, items: seq<Item>)
    requires Progresses(w.config) && CreateHandshake(w, msgType, body).failure.None?
    requires var t := CreateHandshake(w, msgType, body).w;
             && |w.sent| <= |t.sent|
             && |t.sent| - |w.sent| <= maxQueue && |t.sent| - |w.sent| <= MAX_DEFRAGMENT_PACKETS
             && Parts(items) == F.PartSet(PartsOf(t.sent[|w.sent|..]))
    requires FreshArrivals(items, w.nextHandshakeSeqNo)
    ensures var q := InsertAll([], w.nextHandshakeSeqNo, false, maxQueue, items);
            && F.StrictWalk(Window(q), w.nextHandshakeSeqNo, |body|, 0)
            && F.Concatenated(Reassembly.PartsOf(Window(q))) == body
  {
    var numbered, o := w.(nextHandshakeSeqNo := w.nextHandshakeSeqNo + 1), CreateHandshake(w, msgType, body);
    MessageIsSent(w, numbered, o, msgType, body);
    GainedIsRead(numbered, o.w, msgType, w.nextHandshakeSeqNo, body, maxQueue, items);
  }

  lemma MessageIsSent(w: Writer, numbered: Writer, o: Outcome, msgType: MessageType, body: seq<nat>)
    requires Progresses(w.config) && o == CreateHandshake(w, msgType, body) && o.failure.None?
    requires numbered == w.(nextHandshakeSeqNo := w.nextHandshakeSeqNo + 1)
    ensures SentMessage(numbered, o.w, msgType, w.nextHandshakeSeqNo, body, 0)
  {
    HandshakeIsParts(w, numbered, o, msgType, body);
    OutcomeSent(numbered, o, msgType, w.nextHandshakeSeqNo, body);
  }

  lemma HandshakeIsParts(w: Writer, numbered: Writer, o: Outcome, msgType: MessageType, body: seq<nat>)
    requires Progresses(w.config) && o == CreateHandshake(w, msgType, body) && o.failure.None?
    requires numbered == w.(nextHandshakeSeqNo := w.nextHandshakeSeqNo + 1)
    ensures o == CreateParts(numbered, msgType, w.nextHandshakeSeqNo, body, 0)
  {
  }

  lemma OutcomeSent(w: Writer, o: Outcome, msgType: MessageType, seqNo: nat, body: seq<nat>)
    requires Progresses(w.config) && o == CreateParts(w, msgType, seqNo, body, 0) && o.failure.None?
    ensures SentMessage(w, o.w, msgType, seqNo, body, 0)
  {
    PartsSent(w, msgType, seqNo, body, 0);
  }

  // ----- Small writes -----

  /** A write of one byte. */
  predicate Small(op: Op) {
    op.Create? && op.epoch == 1 && !op.save && op.content.Plain? && |op.content.bytes| == 1
  }

  /** Length of the record it makes. */
  function SmallLen(c: Config): nat {
    HEADER_LEN + 1 + c.overhead
  }

  ghost predicate Keyed(w: Writer) {
    WriterValid(w) && w.cipherSuite && w.writeKeys
  }

  /** A record that fits joins the datagram being built, or is the first of one. */
  lemma EnqueueJoins(w: Writer, r: Record)
    requires |w.queueTx| <= 1 && UsedInLast(w) + WireLen(w.config, r) <= w.config.mtu
    ensures var t := Enqueue(w, r);
            |t.queueTx| == 1 && LastDatagram(t) == LastDatagram(w) + [r]
  {
  }

  lemma LastAdds(c: Config, d: seq<Record>, r: Record)
    ensures DatagramLen(c, d + [r]) == DatagramLen(c, d) + WireLen(c, r)
  {
    assert (d + [r])[..|d + [r]| - 1] == d;
  }

  lemma WriteGoesOut(w: Writer, op: Op)
    requires Progresses(w.config) && w.cipherSuite && w.writeKeys && w.config.maxQueueTx > 0 && |w.queueTx| <= 1
    requires Small(op) && UsedInLast(w) + SmallLen(w.config) <= w.config.mtu
    ensures var r := Record(1, w.sequenceEpochN, op.content);
            Perform(w, op) == Enqueue(Counted(w, 1), r) && WireLen(w.config, r) == SmallLen(w.config)
  {
  }

  lemma WriteJoins(w: Writer, op: Op)
    requires Progresses(w.config) && w.cipherSuite && w.writeKeys && w.config.maxQueueTx > 0 && |w.queueTx| <= 1
    requires Small(op) && UsedInLast(w) + SmallLen(w.config) <= w.config.mtu
    ensures var t := Perform(w, op);
            && t.cipherSuite && t.writeKeys && t.config == w.config
            && |t.queueTx| == 1 && |LastDatagram(t)| == |LastDatagram(w)| + 1
            && UsedInLast(t) == UsedInLast(w) + SmallLen(w.config)
  {
    var r := Record(1, w.sequenceEpochN, op.content);
    WriteGoesOut(w, op);
    EnqueueJoins(Counted(w, 1), r);
    LastAdds(w.config, LastDatagram(w), r);
  }

  lemma OneAndTheRest(n: nat, len: nat)
    requires n > 0
    ensures n * len == len + (n - 1) * len && (n - 1) * len >= 0
  {
  }

  /** Small writes made without polling share a datagram as long as they fit it. */
  lemma {:induction false} WritesCrowd(w: Writer, ops: seq<Op>)
    requires Keyed(w) && w.config.maxQueueTx > 0 && |w.queueTx| <= 1
    requires forall op :: op in ops ==> Small(op) && Allowed(op)
    requires UsedInLast(w) + |ops| * SmallLen(w.config) <= w.config.mtu
    ensures var t := PerformAll(w, ops);
            |t.queueTx| <= 1 && |LastDatagram(t)| == |LastDatagram(w)| + |ops|
    decreases |ops|
  {
    if ops != [] {
      OneAndTheRest(|ops|, SmallLen(w.config));
      WriteJoins(w, ops[0]);
      PerformKeeps(w, ops[0]);
      WritesCrowd(Perform(w, ops[0]), ops[1..]);
    }
  }

  // ----- From the log to the wire -----

  /** Between `w` and `t` the datagrams `polled` have left, and the log has only grown: what
      left and what is queued is what was queued and what the log has gained, in order. */
  ghost predicate Flows(w: Writer, polled: seq<seq<Record>>, t: Writer) {
    && w.sent <= t.sent
    && Flat(polled) + Flat(t.queueTx) == Flat(w.queueTx) + t.sent[|w.sent|..]
  }

  lemma FlowsOn(w: Writer, a: seq<seq<Record>>, t: Writer, b: seq<seq<Record>>, u: Writer)
    requires Flows(w, a, t) && Flows(t, b, u)
    ensures Flows(w, a + b, u)
  {
    FlatConcat(a, b);
    var first, second := t.sent[|w.sent|..], u.sent[|t.sent|..];
    Chained(Flat(a), Flat(b), Flat(w.queueTx), Flat(t.queueTx), Flat(u.queueTx), first, second);
    assert u.sent[|w.sent|..] == t.sent[|w.sent|..] + u.sent[|t.sent|..];
  }

  lemma NothingFlows(w: Writer, t: Writer)
    requires t.sent == w.sent && t.queueTx == w.queueTx
    ensures Flows(w, [], t)
  {
    assert t.sent[|w.sent|..] == [];
  }

  lemma EnqueueFlat(w: Writer, r: Record)
    ensures Flat(Enqueue(w, r).queueTx) == Flat(w.queueTx) + [r]
  {
    var q := Enqueue(w, r).queueTx;
    assert w.queueTx[0..] == w.queueTx && q[0..] == q;
    if CanAppend(w, r) {
      FlatJoined(w.queueTx, r, 0);
    } else {
      FlatStarted(w.queueTx, r, 0);
    }
  }

  lemma EnqueueFlows(w: Writer, t: Writer, r: Record)
    requires t.queueTx == Enqueue(w, r).queueTx && t.sent == Enqueue(w, r).sent
    ensures Flows(w, [], t)
  {
    EnqueueFlat(w, r);
    assert t.sent == w.sent + [r] && (w.sent + [r])[|w.sent|..] == [r];
    assert Flat([]) + Flat(t.queueTx) == Flat(t.queueTx);
  }

  lemma CreateRecordFlows(w: Writer, epoch: nat, save: bool, content: Content)
    ensures Flows(w, [], CreateRecord(w, epoch, save, content).w)
  {
    var o := CreateRecord(w, epoch, save, content);
    if o.failure.None? {
      EnqueueFlows(w, o.w, Record(epoch, NextNumber(w, epoch), content));
    } else {
      NothingFlows(w, o.w);
    }
  }

  lemma {:induction false} CreatePartsFlow(w: Writer, msgType: MessageType, seqNo: nat, body: seq<nat>, offset: nat)
    requires Progresses(w.config) && offset <= |body|
    ensures Flows(w, [], CreateParts(w, msgType, seqNo, body, offset).w)
    decreases |body| - offset
  {
    var part := NextPart(w, msgType, seqNo, body, offset);
    var o := CreateRecord(w, EpochOf(msgType), true, Fragment(part));
    CreateRecordFlows(w, EpochOf(msgType), true, Fragment(part));
    CreatePartsStep(w, msgType, seqNo, body, offset, o);
    if o.failure.None? && part.End() != |body| {
      CreatePartsFlow(o.w, msgType, seqNo, body, part.End());
      FlowsOn(w, [], o.w, [], CreateParts(o.w, msgType, seqNo, body, part.End()).w);
    }
  }

  lemma CreateHandshakeFlows(w: Writer, msgType: MessageType, body: seq<nat>)
    requires Progresses(w.config)
    ensures Flows(w, [], CreateHandshake(w, msgType, body).w)
  {
    var numbered := w.(nextHandshakeSeqNo := w.nextHandshakeSeqNo + 1);
    CreatePartsFlow(numbered, msgType, w.nextHandshakeSeqNo, body, 0);
    NothingFlows(w, numbered);
  }

  lemma {:induction false} ResendFlows(w: Writer, entries: seq<Entry>)
    ensures Flows(w, [], ResendEntries(w, entries).w)
    decreases |entries|
  {
    if entries == [] {
      NothingFlows(w, w);
    } else {
      CreateRecordFlows(w, entries[0].epoch, false, entries[0].content);
      var o := CreateRecord(w, entries[0].epoch, false, entries[0].content);
      if o.failure.None? {
        ResendFlows(o.w, entries[1..]);
        FlowsOn(w, [], o.w, [], ResendEntries(o.w, entries[1..]).w);
      }
    }
  }

  function PolledBy(w: Writer, op: Op): seq<seq<Record>> {
    if op.PollPacket? && w.queueTx != [] then [w.queueTx[0]] else []
  }

  predicate Discards(op: Op) {
    op.DiscardPendingWrites? || op.Abort?
  }

  lemma PerformFlows(w: Writer, op: Op)
    requires Progresses(w.config) && !Discards(op)
    ensures Flows(w, PolledBy(w, op), Perform(w, op))
  {
    match op
    case Create(epoch, save, content) => CreateRecordFlows(w, epoch, save, content);
    case CreateMessage(msgType, body) => CreateHandshakeFlows(w, msgType, body);
    case Resend => ResendFlows(w.(flight := []), w.flight);
    case PollPacket =>
      if w.queueTx != [] {
        assert w.queueTx == [w.queueTx[0]] + w.queueTx[1..];
        FlatConcat([w.queueTx[0]], w.queueTx[1..]);
        assert w.sent[|w.sent|..] == [];
      } else {
        NothingFlows(w, w);
      }
    case FlightBegin => NothingFlows(w, Perform(w, op));
    case SetCipherSuite => NothingFlows(w, Perform(w, op));
    case DeriveKeys => NothingFlows(w, Perform(w, op));
    case _ =>
  }

  /** The datagrams a run lets out, in order. */
  ghost function Polled(w: Writer, ops: seq<Op>): seq<seq<Record>>
    requires WriterValid(w) && forall op :: op in ops ==> Allowed(op)
    decreases |ops|
  {
    if ops == [] then []
    else
      PerformKeeps(w, ops[0]);
      PolledBy(w, ops[0]) + Polled(Perform(w, ops[0]), ops[1..])
  }

  /** Nothing is dropped, doubled or reordered on the way out: in a run that discards no queued
      datagram, the records polled, and behind them those still queued, are the log. */
  lemma {:induction false} LogLeavesInOrder(w: Writer, ops: seq<Op>)
    requires WriterValid(w) && forall op :: op in ops ==> Allowed(op) && !Discards(op)
    ensures Flows(w, Polled(w, ops), PerformAll(w, ops))
    decreases |ops|
  {
    if ops == [] {
      NothingFlows(w, w);
    } else {
      var t := Perform(w, ops[0]);
      PerformKeeps(w, ops[0]);
      PerformFlows(w, ops[0]);
      LogLeavesInOrder(t, ops[1..]);
      FlowsOn(w, PolledBy(w, ops[0]), t, Polled(t, ops[1..]), PerformAll(t, ops[1..]));
    }
  }

  // ----- What a resend sends -----

  /** Each entry once, in order, under its epoch. */
  predicate CarriedBy(entries: seq<Entry>, records: seq<Record>) {
    && |entries| == |records|
    && forall i :: 0 <= i < |entries| ==>
      records[i].epoch == entries[i].epoch && records[i].content == entries[i].content
  }

  lemma {:induction false} ResendEntriesExact(w: Writer, entries: seq<Entry>)
    requires ResendEntries(w, entries).failure.None?
    ensures var t := ResendEntries(w, entries).w;
            w.sent <= t.sent && CarriedBy(entries, t.sent[|w.sent|..])
    decreases |entries|
  {
    if entries != [] {
      var e, m := entries[0], CreateRecord(w, entries[0].epoch, false, entries[0].content).w;
      assert m.sent == w.sent + [Record(e.epoch, NextNumber(w, e.epoch), e.content)];
      ResendEntriesExact(m, entries[1..]);
      CarriedInFront(entries, ResendEntries(m, entries[1..]).w.sent, |w.sent|);
    }
  }

  lemma CarriedInFront(entries: seq<Entry>, sent: seq<Record>, n: nat)
    requires entries != [] && n < |sent| && CarriedBy(entries[1..], sent[n + 1..])
    requires sent[n].epoch == entries[0].epoch && sent[n].content == entries[0].content
    ensures CarriedBy(entries, sent[n..])
  {
    assert sent[n..] == [sent[n]] + sent[n + 1..] && entries == [entries[0]] + entries[1..];
  }

  /** A resend sends every saved record once more, in order and under its epoch, and nothing
      else, and keeps the flight; with `DatagramsFit` none of the numbers has been used. */
  lemma ResendExact(w: Writer)
    requires FlightResend(w).failure.None?
    ensures var t := FlightResend(w).w;
            && t.flight == w.flight && w.sent <= t.sent && CarriedBy(w.flight, t.sent[|w.sent|..])
            && Flat(t.queueTx) == Flat(w.queueTx) + t.sent[|w.sent|..]
  {
    var w0 := w.(flight := []);
    ResendEntriesExact(w0, w.flight);
    ResendFlows(w0, w.flight);
    assert Flat([]) + Flat(FlightResend(w).w.queueTx) == Flat(FlightResend(w).w.queueTx);
  }

  /** The datagrams of `base` as they were, and others behind them. */
  predicate Past(base: seq<seq<Record>>, w: Writer) {
    base <= w.queueTx && |base| < |w.queueTx|
  }

  lemma {:induction false} PastStays(base: seq<seq<Record>>, w: Writer, entries: seq<Entry>)
    requires Past(base, w)
    ensures Past(base, ResendEntries(w, entries).w)
    decreases |entries|
  {
    if entries != [] {
      PastStays(base, CreateRecord(w, entries[0].epoch, false, entries[0].content).w, entries[1..]);
    }
  }

  /** The last datagram of `base` has grown. */
  predicate Joined(base: seq<seq<Record>>, w: Writer) {
    base != [] && |base| <= |w.queueTx| && |w.queueTx[|base| - 1]| > |base[|base| - 1]|
  }

  lemma {:induction false} JoinedStays(base: seq<seq<Record>>, w: Writer, entries: seq<Entry>)
    requires Joined(base, w)
    ensures Joined(base, ResendEntries(w, entries).w)
    decreases |entries|
  {
    if entries != [] {
      JoinedStays(base, CreateRecord(w, entries[0].epoch, false, entries[0].content).w, entries[1..]);
    }
  }

  /** The first record a resend sends. */
  function FirstAgain(w: Writer): Record
    requires w.flight != []
  {
    Record(w.flight[0].epoch, NextNumber(w, w.flight[0].epoch), w.flight[0].content)
  }

  /** Unlike in DTLS 1.3 nothing keeps resent records out of a datagram still queued: it stays
      as it was exactly when it has no room for the first of them. */
  lemma ResendJoinsExact(w: Writer)
    requires w.flight != [] && FlightResend(w).failure.None?
    ensures w.queueTx <= FlightResend(w).w.queueTx <==> !CanAppend(w, FirstAgain(w))
  {
    var w0, e := w.(flight := []), w.flight[0];
    var m := CreateRecord(w0, e.epoch, false, e.content).w;
    assert m.queueTx == Enqueue(w, FirstAgain(w)).queueTx;
    if CanAppend(w, FirstAgain(w)) {
      JoinedStays(w.queueTx, m, w.flight[1..]);
    } else {
      PastStays(w.queueTx, m, w.flight[1..]);
    }
  }

  // ----- What goes out in the clear -----

  /** Nothing has been sealed without a cipher suite and keys. */
  predicate SealedWithKeys(w: Writer) {
    forall r :: r in w.sent && r.epoch >= 1 ==> w.cipherSuite && w.writeKeys
  }

  lemma RecordSealed(w: Writer, epoch: nat, save: bool, content: Content)
    requires SealedWithKeys(w)
    ensures var t := CreateRecord(w, epoch, save, content).w;
            && SealedWithKeys(t) && t.cipherSuite == w.cipherSuite && t.writeKeys == w.writeKeys
            && t.config == w.config && w.sent <= t.sent
            && forall i :: |w.sent| <= i < |t.sent| ==> t.sent[i].epoch == epoch && t.sent[i].content == content
  {
  }

  lemma {:induction false} PartsSealed(w: Writer, msgType: MessageType, seqNo: nat, body: seq<nat>, offset: nat)
    requires Progresses(w.config) && offset <= |body| && SealedWithKeys(w)
    ensures var t := CreateParts(w, msgType, seqNo, body, offset).w;
            && SealedWithKeys(t) && w.sent <= t.sent
            && forall i :: |w.sent| <= i < |t.sent| ==>
                 (t.sent[i].epoch >= 1 <==> msgType.Finished? || msgType == NEW_SESSION_TICKET)
    decreases |body| - offset
  {
    var part := NextPart(w, msgType, seqNo, body, offset);
    var o := CreateRecord(w, EpochOf(msgType), true, Fragment(part));
    RecordSealed(w, EpochOf(msgType), true, Fragment(part));
    CreatePartsStep(w, msgType, seqNo, body, offset, o);
    if o.failure.None? && part.End() != |body| {
      PartsSealed(o.w, msgType, seqNo, body, part.End());
    }
  }

  lemma {:induction false} ResendSealed(w: Writer, entries: seq<Entry>)
    requires SealedWithKeys(w)
    ensures SealedWithKeys(ResendEntries(w, entries).w)
    decreases |entries|
  {
    if entries != [] {
      var o := CreateRecord(w, entries[0].epoch, false, entries[0].content);
      RecordSealed(w, entries[0].epoch, false, entries[0].content);
      if o.failure.None? {
        ResendSealed(o.w, entries[1..]);
      }
    }
  }

  /** A Finished and a session ticket are sealed, every other handshake message leaves in the
      clear; whether or not the message gets out whole. */
  lemma FinishedIsSealed(w: Writer, msgType: MessageType, body: seq<nat>)
    requires Progresses(w.config) && SealedWithKeys(w)
    ensures var t := CreateHandshake(w, msgType, body).w;
            && SealedWithKeys(t) && w.sent <= t.sent
            && forall i :: |w.sent| <= i < |t.sent| ==>
                 (t.sent[i].epoch >= 1 <==> msgType.Finished? || msgType == NEW_SESSION_TICKET)
  {
    var numbered := w.(nextHandshakeSeqNo := w.nextHandshakeSeqNo + 1);
    PartsSealed(numbered, msgType, w.nextHandshakeSeqNo, body, 0);
    NumberedOutcome(w, numbered, msgType, body);
  }

  /** A message is numbered, and then refused or sent part by part. */
  lemma {:induction false} NumberedOutcome(w: Writer, numbered: Writer, msgType: MessageType, body: seq<nat>)
    requires Progresses(w.config) && numbered == w.(nextHandshakeSeqNo := w.nextHandshakeSeqNo + 1)
    ensures var t := CreateHandshake(w, msgType, body).w;
            t == numbered || t == CreateParts(numbered, msgType, w.nextHandshakeSeqNo, body, 0).w
  {
  }

  lemma PerformSealed(w: Writer, op: Op)
    requires Progresses(w.config) && SealedWithKeys(w)
    ensures SealedWithKeys(Perform(w, op))
  {
    match op
    case Create(epoch, save, content) => RecordSealed(w, epoch, save, content);
    case CreateMessage(msgType, body) => FinishedIsSealed(w, msgType, body);
    case Resend => ResendSealed(w.(flight := []), w.flight);
    case _ =>
  }

  /** In every run nothing is sealed before there are a cipher suite and keys to seal it with. */
  lemma {:induction false} NothingSealedEarly(w: Writer, ops: seq<Op>)
    requires WriterValid(w) && SealedWithKeys(w) && forall op :: op in ops ==> Allowed(op)
    ensures SealedWithKeys(PerformAll(w, ops))
    decreases |ops|
  {
    if ops != [] {
      PerformKeeps(w, ops[0]);
      PerformSealed(w, ops[0]);
      NothingSealedEarly(Perform(w, ops[0]), ops[1..]);
    }
  }
}

/** The same as the mutable object it is. */
module RecordWriters {
  import opened Handshakes
  import opened Packing12
  import P = Packing12
  import F = Fragmentation

  class RecordWriter {
    const config: Config
    var cipherSuite: bool
    var writeKeys: bool
    var sequenceEpoch0: nat
    var sequenceEpochN: nat
    var nextHandshakeSeqNo: nat
    var flightSavedRecords: seq<Entry>
    var queueTx: seq<seq<Record>>

    /** Everything ever put on the transmit queue. */
    ghost var sent: seq<Record>

    ghost function State(): Writer
      reads this
    {
      Writer(config, cipherSuite, writeKeys, sequenceEpoch0, sequenceEpochN, nextHandshakeSeqNo, flightSavedRecords,
             queueTx, sent)
    }

    constructor (config: Config)
      ensures State() == NewWriter(config)
    {
      this.config := config;
      cipherSuite, writeKeys := false, false;
      sequenceEpoch0, sequenceEpochN, nextHandshakeSeqNo := 0, 0, 0;
      flightSavedRecords, queueTx := [], [];
      sent := [];
    }

    method CreateRecord(epoch: nat, saveFragment: bool, content: Content) returns (failure: Option<Failure>)
      modifies this
      ensures Outcome(State(), failure) == P.CreateRecord(old(State()), epoch, saveFragment, content)
    {
      if epoch >= 1 && !cipherSuite {
        return Some(NoCipherSuite);
      }
      if saveFragment {
        flightSavedRecords := flightSavedRecords + [Entry(epoch, content)];
      }
      ghost var saved := State();
      var sequence := if epoch == 0 then sequenceEpoch0 else sequenceEpochN;
      var record := Record(epoch, sequence, content);
      var canAppend := HasRoom(record);
      if !canAppend && |queueTx| >= config.maxQueueTx {
        return Some(TransmitQueueFull);
      }
      if epoch >= 1 && !writeKeys {
        return Some(NoWriteKeys);
      }
      if epoch == 0 {
        sequenceEpoch0 := sequenceEpoch0 + 1;
      } else {
        sequenceEpochN := sequenceEpochN + 1;
      }
      assert State() == Counted(saved, epoch);
      Append(record);
      return None;
    }

    method HasRoom(record: Record) returns (canAppend: bool)
      ensures canAppend == CanAppend(State(), record)
    {
      canAppend :=
        queueTx != [] && DatagramLen(config, queueTx[|queueTx| - 1]) + P.WireLen(config, record) <= config.mtu;
    }

    /** Onto the last datagram, or a new one. */
    method Append(record: Record)
      modifies this`queueTx, this`sent
      ensures State() == Enqueue(old(State()), record)
    {
      var canAppend := HasRoom(record);
      if canAppend {
        var last := |queueTx| - 1;
        queueTx := queueTx[last := queueTx[last] + [record]];
      } else {
        queueTx := queueTx + [[record]];
      }
      sent := sent + [record];
    }

    method CreateHandshake(msgType: MessageType, body: seq<nat>) returns (failure: Option<Failure>)
      requires Progresses(config)
      modifies this
      ensures Outcome(State(), failure) == P.CreateHandshake(old(State()), msgType, body)
    {
      ghost var start := State();
      var messageSeq := nextHandshakeSeqNo;
      nextHandshakeSeqNo := nextHandshakeSeqNo + 1;
      ghost var numbered := State();
      assert numbered == start.(nextHandshakeSeqNo := start.nextHandshakeSeqNo + 1);
      var epoch := EpochOf(msgType);
      if epoch >= 1 && !cipherSuite {
        return Some(NoCipherSuite);
      }
      failure := CreateFragments(msgType, messageSeq, body);
    }

    /** The fragmentation loop; an empty message is one empty fragment. */
    method CreateFragments(msgType: MessageType, messageSeq: nat, body: seq<nat>) returns (failure: Option<Failure>)
      requires Progresses(config)
      modifies this
      ensures Outcome(State(), failure) == CreateParts(old(State()), msgType, messageSeq, body, 0)
    {
      ghost var goal := CreateParts(State(), msgType, messageSeq, body, 0);
      var totalLen := |body|;
      var offset := 0;
      while offset < totalLen || (totalLen == 0 && offset == 0)
        invariant offset <= totalLen
        invariant offset < totalLen || totalLen == 0 ==>
                    goal == CreateParts(State(), msgType, messageSeq, body, offset)
        invariant offset == totalLen > 0 ==> goal == Outcome(State(), None)
        decreases totalLen - offset
      {
        ghost var before := State();
        var fragment: Part;
        fragment, failure := CreateFragment(msgType, messageSeq, body, offset);
        CreatePartsStep(before, msgType, messageSeq, body, offset, Outcome(State(), failure));
        if failure.Some? || totalLen == 0 {
          return;
        }
        offset := fragment.End();
      }
      return None;
    }

    method CreateFragment(msgType: MessageType, messageSeq: nat, body: seq<nat>, offset: nat)
      returns (fragment: Part, failure: Option<Failure>)
      requires Progresses(config) && offset <= |body|
      modifies this
      ensures fragment == NextPart(old(State()), msgType, messageSeq, body, offset)
      ensures Outcome(State(), failure) == P.CreateRecord(old(State()), EpochOf(msgType), true, Fragment(fragment))
    {
      fragment := NextFragment(msgType, messageSeq, body, offset);
      failure := CreateRecord(EpochOf(msgType), true, Fragment(fragment));
    }

    /** As much of the body as fits the datagram being built, or else a new one. */
    method NextFragment(msgType: MessageType, messageSeq: nat, body: seq<nat>, offset: nat) returns (fragment: Part)
      requires Progresses(config) && offset <= |body|
      ensures fragment == NextPart(State(), msgType, messageSeq, body, offset)
    {
      var alreadyUsedInCurrent := if queueTx == [] then 0 else DatagramLen(config, queueTx[|queueTx| - 1]);
      var availableInCurrent := if config.mtu > alreadyUsedInCurrent then config.mtu - alreadyUsedInCurrent else 0;
      var fixedOverhead := P.FixedOverhead(config, msgType);
      var availableForBody :=
        if availableInCurrent > fixedOverhead then availableInCurrent - fixedOverhead else config.mtu - fixedOverhead;
      var remainingBodyBytes := |body| - offset;
      var chunkLen := if remainingBodyBytes < availableForBody then remainingBodyBytes else availableForBody;
      fragment := Part(msgType, messageSeq, |body|, offset, body[offset..offset + chunkLen]);
    }

    method PollPacketTx() returns (packet: Option<seq<Record>>)
      modifies this`queueTx
      ensures State() == Perform(old(State()), PollPacket)
      ensures packet == if old(queueTx) == [] then None else Some(old(queueTx)[0])
      requires Progresses(config)
    {
      if queueTx == [] {
        return None;
      }
      packet := Some(queueTx[0]);
      queueTx := queueTx[1..];
    }

    method FlightResend() returns (failure: Option<Failure>)
      modifies this
      ensures Outcome(State(), failure) == P.FlightResend(old(State()))
    {
      var records := flightSavedRecords;
      flightSavedRecords := [];
      ghost var start := State();
      assert records[0..] == records;
      for i := 0 to |records|
        invariant ResendEntries(State(), records[i..]) == ResendEntries(start, records)
        invariant flightSavedRecords == []
      {
        assert records[i..][0] == records[i] && records[i..][1..] == records[i + 1..];
        failure := CreateRecord(records[i].epoch, false, records[i].content);
        if failure.Some? {
          return;
        }
      }
      flightSavedRecords := records;
      return None;
    }
  }
}
