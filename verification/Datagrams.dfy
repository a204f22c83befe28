/** Datagrams as bytes, from the packing of the senders to the queue of the receiver. */
module Datagrams {
  import opened Handshakes
  import opened RecordNumbers
  import opened Records
  import opened ReceiveSide
  import opened Delivery
  import Fr = Framing
  import SendSide
  import Packing12

  // ----- The DTLS 1.3 receiver as a record handler -----

  /** How the bytes of a record are read, with the number field it shows under a wrong mask. */
  type Reading = Fr.Bytes -> (Record, nat)

  function Read(reading: Reading, slices: seq<Fr.Bytes>): seq<(Record, nat)> {
    if slices == [] then [] else [reading(slices[0])] + Read(reading, slices[1..])
  }

  function ParseOne(reading: Reading, r: Receiver, slice: Fr.Bytes): (Receiver, Fr.Verdict<Opened>) {
    var (next, os) := OpenOne(r, reading(slice).0, reading(slice).1);
    (next, if os == [] then Fr.Drop else Fr.Keep(os[0]))
  }

  function ClassifyOne(r: Receiver, o: Opened): (Receiver, Fr.Verdict<Opened>) {
    (Noted(r, o), if Kept(r, o) == [] then Fr.Drop else Fr.Keep(o))
  }

  function ReceiverHandler(reading: Reading): Fr.Handler<Receiver, Opened> {
    Fr.Handler((r, slice) => ParseOne(reading, r, slice), (r, o) => ClassifyOne(r, o))
  }

  function HeldAs(os: seq<Opened>): Datagram {
    if os == [] then [] else [Held(os[0].epoch, os[0].number, os[0].payload, false)] + HeldAs(os[1..])
  }

  lemma OpenOneAtMost(r: Receiver, record: Record, garbage: nat)
    ensures |OpenOne(r, record, garbage).1| <= 1
  {
  }

  /** The first pass opens the records in turn, as many as a datagram may hold. */
  lemma {:induction false} JudgeOpens(
      reading: Reading, capacity: nat, r: Receiver, slices: seq<Fr.Bytes>, done: seq<Opened>)
    requires |done| <= capacity
    ensures var (r', os) := OpenAll(r, Read(reading, slices));
            var o := Fr.Judge(ReceiverHandler(reading), capacity, r, slices, done);
            if |done| + |os| <= capacity then o == Fr.Outcome(r', Fr.Parsed(done + os))
            else o.result.TooManyRecords?
    decreases |slices|
  {
    if slices == [] {
      assert done + [] == done;
    } else {
      var (record, garbage) := reading(slices[0]);
      var packet := Read(reading, slices);
      assert packet[0] == (record, garbage) && packet[1..] == Read(reading, slices[1..]);
      OpenOneAtMost(r, record, garbage);
      var (r1, first) := OpenOne(r, record, garbage);
      var rest := OpenAll(r1, packet[1..]).1;
      if first == [] {
        JudgeOpens(reading, capacity, r1, slices[1..], done);
        assert first + rest == rest;
      } else if |done| < capacity {
        JudgeOpens(reading, capacity, r1, slices[1..], done + first);
        assert first == [first[0]] && (done + first) + rest == done + (first + rest);
      }
    }
  }

  /** The second pass sorts out what was opened. */
  lemma {:induction false} ClassifySifts(reading: Reading, r: Receiver, os: seq<Opened>, done: seq<Opened>)
    ensures var o := Fr.ClassifyFrom(ReceiverHandler(reading), r, os, done);
            && o.result.Parsed? && o.state == Sift(r, os).0
            && HeldAs(o.result.records) == HeldAs(done) + Sift(r, os).1
    decreases |os|
  {
    if os == [] {
      assert HeldAs(done) + [] == HeldAs(done);
    } else {
      var o, next := os[0], Noted(r, os[0]);
      var rest := Sift(next, os[1..]).1;
      if Kept(r, o) == [] {
        ClassifySifts(reading, next, os[1..], done);
        assert [] + rest == rest;
      } else {
        ClassifySifts(reading, next, os[1..], done + [o]);
        HeldAsLast(done, o);
        assert HeldAs(done) + Kept(r, o) + rest == HeldAs(done) + (Kept(r, o) + rest);
      }
    }
  }

  lemma {:induction false} HeldAsLast(os: seq<Opened>, o: Opened)
    ensures HeldAs(os + [o]) == HeldAs(os) + [Held(o.epoch, o.number, o.payload, false)]
    decreases |os|
  {
    if os == [] {
      assert os + [o] == [o];
    } else {
      HeldAsLast(os[1..], o);
      assert (os + [o])[1..] == os[1..] + [o];
    }
  }

  /** A datagram of records, as bytes, brings the receiver what opening and sorting out the
      records one by one brings, unless more than sixteen open: then it is refused. */
  lemma FramedIsBrought(reading: Reading, b: Inbox, records: seq<Fr.Bytes>)
    requires Fr.WellFramed(Fr.Dtls13, records)
    ensures var packet := Read(reading, records);
            var o := Fr.ParseDatagram(Fr.Dtls13, Fr.Concat(records), ReceiverHandler(reading), b.rcv);
            if |OpenAll(b.rcv, packet).1| <= Fr.RECORDS_13 then
              o.result.Parsed? && (o.state, HeldAs(o.result.records)) == Brought(b, packet)
            else o.result.TooManyRecords?
  {
    var h := ReceiverHandler(reading);
    Fr.DatagramRoundTrip(Fr.Dtls13, records, h, b.rcv);
    JudgeOpens(reading, Fr.RECORDS_13, b.rcv, records, []);
    var (r, os) := OpenAll(b.rcv, Read(reading, records));
    assert [] + os == os;
    ClassifySifts(reading, r, os, []);
    assert HeldAs([]) + Sift(r, os).1 == Sift(r, os).1;
  }

  /** Some bytes too few to be a record at its end fail a datagram after its records have
      been opened: none is queued, and none of the sealed ones can be received again, in
      whatever datagram it comes back. */
  lemma TailLosesRecords(
      reading: Reading, r: Receiver, records: seq<Fr.Bytes>, tail: Fr.Bytes, later: Receiver,
      again: seq<(Record, nat)>)
    requires ReceiverValid(r) && tail != [] && Fr.FrontExtent(Fr.Dtls13, tail) == Fr.Short
    requires forall record :: record in records ==> Fr.SelfDelimiting(Fr.Dtls13, record)
    requires |OpenAll(r, Read(reading, records)).1| <= Fr.RECORDS_13
    ensures var (r', os) := OpenAll(r, Read(reading, records));
            && Fr.ParseDatagram(Fr.Dtls13, Fr.Concat(records) + tail, ReceiverHandler(reading), r)
               == Fr.Outcome(r', Fr.ParseIncomplete)
            && (ReceiverValid(later) && r'.accepted <= later.accepted ==>
                  forall o :: o in os && o.epoch > 0 ==> o !in OpenAll(later, again).1)
  {
    Fr.TailSpoils(Fr.Dtls13, records, tail, ReceiverHandler(reading), r);
    JudgeOpens(reading, Fr.RECORDS_13, r, records, []);
    OpenAllNew(r, Read(reading, records));
    var (r', os) := OpenAll(r, Read(reading, records));
    assert [] + os == os;
    if ReceiverValid(later) && r'.accepted <= later.accepted {
      OpenAllNew(later, again);
    }
  }

  // ----- Small writes -----

  /** How a record is written as bytes that state their length. */
  function Images<R>(image: R -> Fr.Bytes, records: seq<R>): seq<Fr.Bytes> {
    if records == [] then [] else [image(records[0])] + Images(image, records[1..])
  }

  lemma {:induction false} ImagesFramed<R>(v: Fr.Version, image: R -> Fr.Bytes, records: seq<R>)
    requires forall r :: r in records ==> Fr.SelfDelimiting(v, image(r))
    ensures Fr.WellFramed(v, Images(image, records)) && |Images(image, records)| == |records|
    decreases |records|
  {
    if records != [] {
      ImagesFramed(v, image, records[1..]);
      var rest := Images(image, records[1..]);
      assert forall i :: 0 < i < |records| ==> Images(image, records)[i] == rest[i - 1];
    }
  }

  /** DTLS 1.2: writes of one byte made without polling share one datagram as long as they fit
      it, and a receiver to which all its records are good refuses it exactly when there are
      more than eight. */
  lemma SmallWritesRefused12<S, R>(
      w: Packing12.Writer, ops: seq<Packing12.Op>, image: Packing12.Record -> Fr.Bytes, h: Fr.Handler<S, R>, state: S)
    requires Packing12.Keyed(w) && w.queueTx == [] && w.config.maxQueueTx > 0
    requires ops != [] && forall op :: op in ops ==> Packing12.Small(op) && Packing12.Allowed(op)
    requires |ops| * Packing12.SmallLen(w.config) <= w.config.mtu
    requires forall r :: r in Packing12.LastDatagram(Packing12.PerformAll(w, ops)) ==>
               Fr.SelfDelimiting(Fr.Dtls12, image(r))
    ensures var t := Packing12.PerformAll(w, ops);
            && |t.queueTx| == 1 && |t.queueTx[0]| == |ops|
            && var datagram := Images(image, t.queueTx[0]);
               Fr.KeepsAll(h, state, datagram) ==>
                 (Fr.ParseDatagram(Fr.Dtls12, Fr.Concat(datagram), h, state).result.TooManyRecords?
                  <==> |ops| > Fr.RECORDS_12)
  {
    Packing12.WritesCrowd(w, ops);
    var t := Packing12.PerformAll(w, ops);
    assert Packing12.LastDatagram(t) == t.queueTx[0];
    ImagesFramed(Fr.Dtls12, image, t.queueTx[0]);
    var datagram := Images(image, t.queueTx[0]);
    if Fr.KeepsAll(h, state, datagram) {
      Fr.CrowdRefused(Fr.Dtls12, datagram, h, state);
    }
  }

  // ----- Small writes in DTLS 1.3 -----

  predicate Small(op: SendSide.Op) {
    op.SendApplication? && op.payload.AppData? && |op.payload.bytes| == 1
  }

  function SmallLen(c: SendSide.Config): nat {
    UNIFIED_HEADER_LEN + 2 + c.tagLen
  }

  /** Length of `n` of them. */
  function Total(c: SendSide.Config, n: nat): nat {
    if n == 0 then 0 else SmallLen(c) + Total(c, n - 1)
  }

  lemma {:induction false} TotalIs(c: SendSide.Config, n: nat)
    ensures Total(c, n) == n * SmallLen(c)
    decreases n
  {
    if n > 0 {
      TotalIs(c, n - 1);
      Packing12.OneAndTheRest(n, SmallLen(c));
    }
  }

  /** Connected, and nothing queued but at most the datagram being built. */
  predicate Writing(s: SendSide.Sender) {
    && s.appSecret.Some? && s.appEpoch >= FIRST_APP_EPOCH && !SendSide.UsesPrevious(s, s.appEpoch)
    && !s.datagramSealed && |s.queueTx| <= 1 && s.config.maxQueueTx > 0
  }

  function Last(s: SendSide.Sender): seq<Record> {
    if s.queueTx == [] then [] else s.queueTx[|s.queueTx| - 1]
  }

  /** The records of these writes, numbered from `from`. */
  function Written(secret: Secret, epoch: nat, from: nat, ops: seq<SendSide.Op>): seq<Record>
    requires forall op :: op in ops ==> Small(op)
    decreases |ops|
  {
    if ops == [] then []
    else
      assert Small(ops[0]);
      [SendSide.Sealed(secret, epoch, from, ops[0].payload)] + Written(secret, epoch, from + 1, ops[1..])
  }

  lemma LastAdds(d: seq<Record>, r: Record, tagLen: nat)
    ensures SendSide.DatagramLen(d + [r], tagLen) == SendSide.DatagramLen(d, tagLen) + WireLen(r, tagLen)
  {
    assert (d + [r])[..|d + [r]| - 1] == d;
  }

  lemma EnqueueJoins(s: SendSide.Sender, r: Record)
    requires !s.datagramSealed && |s.queueTx| <= 1
    requires SendSide.DatagramLen(Last(s), s.config.tagLen) + WireLen(r, s.config.tagLen) <= s.config.mtu
    ensures var t := SendSide.Enqueue(s, r);
            && |t.queueTx| == 1 && Last(t) == Last(s) + [r] && !t.datagramSealed
            && t == s.(queueTx := t.queueTx, sent := s.sent + [r])
  {
  }

  lemma WriteGoesOut(s: SendSide.Sender, op: SendSide.Op)
    requires Writing(s) && Small(op) && s.appSeq < MAX_SEQUENCE_NUMBER
    requires SendSide.DatagramLen(Last(s), s.config.tagLen) + SmallLen(s.config) <= s.config.mtu
    ensures var r := SendSide.Sealed(s.appSecret.value, s.appEpoch, s.appSeq, op.payload);
            && SendSide.Perform(s, op) == SendSide.Enqueue(s.(appSeq := s.appSeq + 1), r)
            && WireLen(r, s.config.tagLen) == SmallLen(s.config)
  {
    assert SendSide.NumberFor(s, s.appEpoch) == s.appSeq;
  }

  lemma WriteJoins(s: SendSide.Sender, op: SendSide.Op)
    requires Writing(s) && Small(op) && s.appSeq < MAX_SEQUENCE_NUMBER
    requires SendSide.DatagramLen(Last(s), s.config.tagLen) + SmallLen(s.config) <= s.config.mtu
    ensures var t := SendSide.Perform(s, op);
            && Writing(t) && t.config == s.config && t.appSecret == s.appSecret && t.appEpoch == s.appEpoch
            && t.appSeq == s.appSeq + 1 && |t.queueTx| == 1
            && Last(t) == Last(s) + [SendSide.Sealed(s.appSecret.value, s.appEpoch, s.appSeq, op.payload)]
            && SendSide.DatagramLen(Last(t), t.config.tagLen)
               == SendSide.DatagramLen(Last(s), s.config.tagLen) + SmallLen(s.config)
  {
    var r := SendSide.Sealed(s.appSecret.value, s.appEpoch, s.appSeq, op.payload);
    WriteGoesOut(s, op);
    EnqueueJoins(s.(appSeq := s.appSeq + 1), r);
    LastAdds(Last(s), r, s.config.tagLen);
  }

  lemma {:induction false} WritesCrowd(s: SendSide.Sender, ops: seq<SendSide.Op>)
    requires Writing(s) && (forall op :: op in ops ==> Small(op))
    requires s.appSeq + |ops| <= MAX_SEQUENCE_NUMBER
    requires SendSide.DatagramLen(Last(s), s.config.tagLen) + Total(s.config, |ops|) <= s.config.mtu
    ensures var t := SendSide.PerformAll(s, ops);
            Last(t) == Last(s) + Written(s.appSecret.value, s.appEpoch, s.appSeq, ops) && |t.queueTx| <= 1
    decreases |ops|
  {
    if ops == [] {
      assert Last(s) + [] == Last(s);
    } else {
      WriteJoins(s, ops[0]);
      var t := SendSide.Perform(s, ops[0]);
      WritesCrowd(t, ops[1..]);
      Continues(Last(s), Last(t), Last(SendSide.PerformAll(t, ops[1..])), s.appSecret.value, s.appEpoch, s.appSeq, ops);
    }
  }

  lemma Continues(
      before: seq<Record>, mid: seq<Record>, after: seq<Record>, secret: Secret, epoch: nat, from: nat,
      ops: seq<SendSide.Op>)
    requires ops != [] && (forall op :: op in ops ==> Small(op)) && Small(ops[0])
    requires mid == before + [SendSide.Sealed(secret, epoch, from, ops[0].payload)]
    requires after == mid + Written(secret, epoch, from + 1, ops[1..])
    ensures after == before + Written(secret, epoch, from, ops)
  {
    var r := SendSide.Sealed(secret, epoch, from, ops[0].payload);
    Associates(before, [r], Written(secret, epoch, from + 1, ops[1..]));
  }

  lemma Associates<T>(a: seq<T>, b: seq<T>, c: seq<T>)
    ensures (a + b) + c == a + (b + c)
  {
  }

  /** A receiver about to see number `from` of the epoch next. */
  ghost predicate Expects(r: Receiver, epoch: nat, from: nat) {
    && ReceiverValid(r) && r.peerEncryption && r.hsSecret.None? && epoch >= FIRST_APP_EPOCH && Retains(r, epoch)
    && ExpectedAt(r, epoch) == from && ReplayCheck(r, epoch, from)
  }

  /** What is next opens, and then the one after it is next. */
  lemma NextIsKept(reading: Reading, r: Receiver, epoch: nat, from: nat, payload: Payload, slice: Fr.Bytes)
    requires Expects(r, epoch, from)
    requires reading(slice).0 == SendSide.Sealed(SecretOf(r.peer, epoch), epoch, from, payload)
    ensures var (next, verdict) := ParseOne(reading, r, slice);
            verdict.Keep? && Expects(next, epoch, from + 1) && next.peer == r.peer
  {
    ExpectedOpens(r, epoch, from, payload, reading(slice).1);
    CommitKeeps(r, reading(slice).0, reading(slice).1);
    CommitAdvances(r, epoch, from, payload);
  }

  lemma ExpectedOpens(r: Receiver, epoch: nat, from: nat, payload: Payload, garbage: nat)
    requires Expects(r, epoch, from)
    ensures Open(r, SendSide.Sealed(SecretOf(r.peer, epoch), epoch, from, payload), garbage)
            == Some(Opened(epoch, from, payload))
  {
    Pow2Even(FIELD_BITS);
    OpenExact(r, epoch, from, payload, garbage);
  }

  lemma CommitAdvances(r: Receiver, epoch: nat, from: nat, payload: Payload)
    requires Expects(r, epoch, from)
    ensures var t := Commit(r, Opened(epoch, from, payload));
            && t.peer == r.peer && t.peerEncryption && t.hsSecret.None? && Retains(t, epoch)
            && ExpectedAt(t, epoch) == from + 1 && ReplayCheck(t, epoch, from + 1)
  {
    RetainsExact(r, epoch);
    var t := Commit(r, Opened(epoch, from, payload));
    var i := Find(r.slots, epoch);
    assert SlotValid(r.peer, r.slots[i]);
    assert Consecutive(t.slots);
    RetainsExact(t, epoch);
  }

  lemma {:induction false} WrittenAreKept(
      reading: Reading, image: Record -> Fr.Bytes, r: Receiver, epoch: nat, from: nat, ops: seq<SendSide.Op>)
    requires Expects(r, epoch, from) && (forall op :: op in ops ==> Small(op))
    requires forall w :: w in Written(SecretOf(r.peer, epoch), epoch, from, ops) ==> reading(image(w)).0 == w
    ensures Fr.KeepsAll(ReceiverHandler(reading), r, Images(image, Written(SecretOf(r.peer, epoch), epoch, from, ops)))
    decreases |ops|
  {
    if ops != [] {
      assert Small(ops[0]);
      var records := Written(SecretOf(r.peer, epoch), epoch, from, ops);
      NextIsKept(reading, r, epoch, from, ops[0].payload, image(records[0]));
      var next := ParseOne(reading, r, image(records[0])).0;
      WrittenAreKept(reading, image, next, epoch, from + 1, ops[1..]);
      assert records[1..] == Written(SecretOf(r.peer, epoch), epoch, from + 1, ops[1..]);
      var images := Images(image, records);
      assert images[0] == image(records[0]) && images[1..] == Images(image, records[1..]);
    }
  }

  /** DTLS 1.3: writes of one byte made without polling share one datagram as long as they
      fit it, and the connected peer, to which every one of them is the next record, refuses
      it exactly when there are more than sixteen. */
  lemma SmallWritesRefused13(
      s: SendSide.Sender, r: Receiver, ops: seq<SendSide.Op>, image: Record -> Fr.Bytes, reading: Reading)
    requires Writing(s) && s.queueTx == [] && s.appSeq + |ops| <= MAX_SEQUENCE_NUMBER
    requires ops != [] && (forall op :: op in ops ==> Small(op)) && |ops| * SmallLen(s.config) <= s.config.mtu
    requires Expects(r, s.appEpoch, s.appSeq) && s.appSecret == Some(SecretOf(r.peer, s.appEpoch))
    requires forall w :: w in Written(s.appSecret.value, s.appEpoch, s.appSeq, ops) ==>
               reading(image(w)).0 == w && Fr.SelfDelimiting(Fr.Dtls13, image(w))
    ensures var datagram := Images(image, Last(SendSide.PerformAll(s, ops)));
            && |datagram| == |ops|
            && (Fr.ParseDatagram(Fr.Dtls13, Fr.Concat(datagram), ReceiverHandler(reading), r).result.TooManyRecords?
                <==> |ops| > Fr.RECORDS_13)
  {
    TotalIs(s.config, |ops|);
    WritesCrowd(s, ops);
    var records := Written(s.appSecret.value, s.appEpoch, s.appSeq, ops);
    assert Last(SendSide.PerformAll(s, ops)) == [] + records == records;
    ImagesFramed(Fr.Dtls13, image, records);
    WrittenCount(s.appSecret.value, s.appEpoch, s.appSeq, ops);
    WrittenAreKept(reading, image, r, s.appEpoch, s.appSeq, ops);
    Fr.CrowdRefused(Fr.Dtls13, Images(image, records), ReceiverHandler(reading), r);
  }

  lemma {:induction false} WrittenCount(secret: Secret, epoch: nat, from: nat, ops: seq<SendSide.Op>)
    requires forall op :: op in ops ==> Small(op)
    ensures |Written(secret, epoch, from, ops)| == |ops|
    decreases |ops|
  {
    if ops != [] {
      WrittenCount(secret, epoch, from + 1, ops[1..]);
    }
  }
}
