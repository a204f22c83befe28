/** Splitting a datagram into records, in both DTLS versions, and finding the end of the
    content inside a DTLS 1.3 record. */
module Framing {
  import opened Handshakes

  type Bytes = seq<nat>

  const PLAINTEXT_HEADER_LEN := 13
  const RECORDS_13 := 16
  const RECORDS_12 := 8

  // ----- Record boundaries -----

  function U16(b: Bytes, at: nat): nat
    requires at + 2 <= |b|
  {
    b[at] * 256 + b[at + 1]
  }

  /** The top three bits are 001. */
  predicate IsCiphertextHeader(b: nat) {
    (b / 32) % 8 == 1
  }

  predicate Bit(b: nat, weight: nat)
    requires weight > 0
  {
    (b / weight) % 2 == 1
  }

  const CID_BIT := 16
  const SEQ_BIT := 8
  const LEN_BIT := 4

  datatype Version = Dtls12 | Dtls13

  /** How long the record at the front is: unknown past a connection id, absent when the
      datagram ends too early. */
  datatype Extent = Stop | Short | Length(n: nat)

  function UnifiedHeaderLen(flags: nat): nat {
    1 + (if Bit(flags, SEQ_BIT) then 2 else 1) + (if Bit(flags, LEN_BIT) then 2 else 0)
  }

  function FrontExtent(v: Version, packet: Bytes): (e: Extent)
    requires packet != []
    ensures e.Length? ==> 0 < e.n <= |packet|
  {
    var whole :=
      if v.Dtls13? && IsCiphertextHeader(packet[0]) then
        var flags := packet[0];
        if Bit(flags, CID_BIT) then Stop
        else if |packet| < 2 || |packet| < UnifiedHeaderLen(flags) then Short
        else if Bit(flags, LEN_BIT) then
          var header := UnifiedHeaderLen(flags);
          Length(header + U16(packet, header - 2))
        else Length(|packet|)
      else if |packet| < PLAINTEXT_HEADER_LEN then Short
      else Length(PLAINTEXT_HEADER_LEN + U16(packet, 11));
    if whole.Length? && whole.n > |packet| then Short else whole
  }

  /** The slices a datagram is cut into, what is left, and whether that is for being cut
      short; otherwise it begins with a record with a connection id. */
  datatype Split = Split(slices: seq<Bytes>, rest: Bytes, short: bool)

  function SplitRecords(v: Version, packet: Bytes): Split
    decreases |packet|
  {
    if packet == [] then Split([], [], false)
    else
      match FrontExtent(v, packet)
      case Stop => Split([], packet, false)
      case Short => Split([], packet, true)
      case Length(n) =>
        var tail := SplitRecords(v, packet[n..]);
        tail.(slices := [packet[..n]] + tail.slices)
  }

  // ----- Parsing and sorting out -----

  /** What is made of one record. */
  datatype Verdict<R> = Keep(record: R) | Drop | Fail

  /** The engine as the parser sees it. Opening a record moves the replay window and the
      expected number, sorting it out may process an ACK or note a close_notify: each sees
      what the ones before it did. */
  datatype Handler<!S, !R> = Handler(parse: (S, Bytes) -> (S, Verdict<R>), classify: (S, R) -> (S, Verdict<R>))

  datatype Result<R> = ParseIncomplete | TooManyRecords | Refused | Parsed(records: seq<R>)

  /** How the engine is left, and what there is to queue. */
  datatype Outcome<S, R> = Outcome(state: S, result: Result<R>)

  /** The records one after the other: the error met first wins. */
  function Judge<S, R>(h: Handler<S, R>, capacity: nat, state: S, slices: seq<Bytes>, done: seq<R>): Outcome<S, R>
    decreases |slices|
  {
    if slices == [] then Outcome(state, Parsed(done))
    else
      var (next, verdict) := h.parse(state, slices[0]);
      match verdict
      case Fail => Outcome(next, Refused)
      case Drop => Judge(h, capacity, next, slices[1..], done)
      case Keep(r) =>
        if |done| >= capacity then Outcome(next, TooManyRecords)
        else Judge(h, capacity, next, slices[1..], done + [r])
  }

  /** Slicing and parsing in one pass. */
  function ParseFrom<S, R>(
      v: Version, packet: Bytes, h: Handler<S, R>, capacity: nat, state: S, done: seq<R>): Outcome<S, R>
    decreases |packet|
  {
    if packet == [] then Outcome(state, Parsed(done))
    else
      match FrontExtent(v, packet)
      case Stop => Outcome(state, Parsed(done))
      case Short => Outcome(state, ParseIncomplete)
      case Length(n) =>
        var (next, verdict) := h.parse(state, packet[..n]);
        match verdict
        case Fail => Outcome(next, Refused)
        case Drop => ParseFrom(v, packet[n..], h, capacity, next, done)
        case Keep(r) =>
          if |done| >= capacity then Outcome(next, TooManyRecords)
          else ParseFrom(v, packet[n..], h, capacity, next, done + [r])
  }

  /** The second pass, over the records of a whole datagram. */
  function ClassifyFrom<S, R>(h: Handler<S, R>, state: S, parsed: seq<R>, done: seq<R>): Outcome<S, R>
    decreases |parsed|
  {
    if parsed == [] then Outcome(state, Parsed(done))
    else
      var (next, verdict) := h.classify(state, parsed[0]);
      match verdict
      case Fail => Outcome(next, Refused)
      case Drop => ClassifyFrom(h, next, parsed[1..], done)
      case Keep(r) => ClassifyFrom(h, next, parsed[1..], done + [r])
  }

  function Classified<S, R>(h: Handler<S, R>, o: Outcome<S, R>): Outcome<S, R> {
    if o.result.Parsed? then ClassifyFrom(h, o.state, o.result.records, []) else o
  }

  function Capacity(v: Version): nat {
    if v.Dtls12? then RECORDS_12 else RECORDS_13
  }

  function ParseDatagram<S, R>(v: Version, packet: Bytes, h: Handler<S, R>, state: S): Outcome<S, R> {
    Classified(h, ParseFrom(v, packet, h, Capacity(v), state, []))
  }

  method ParseRecords<S, R>(v: Version, datagram: Bytes, h: Handler<S, R>, start: S) returns (o: Outcome<S, R>)
    ensures o == ParseDatagram(v, datagram, h, start)
  {
    var first := SliceRecords(v, datagram, h, start);
    if !first.result.Parsed? {
      return first;
    }
    var state := first.state;
    var parsed := first.result.records;
    var records: seq<R> := [];
    assert parsed[0..] == parsed;
    for i := 0 to |parsed|
      invariant ClassifyFrom(h, state, parsed[i..], records) == ClassifyFrom(h, first.state, parsed, [])
    {
      assert parsed[i..][0] == parsed[i] && parsed[i..][1..] == parsed[i + 1..];
      var (next, verdict) := h.classify(state, parsed[i]);
      state := next;
      match verdict
      case Fail => return Outcome(state, Refused);
      case Drop =>
      case Keep(r) => records := records + [r];
    }
    return Outcome(state, Parsed(records));
  }

  method SliceRecords<S, R>(v: Version, datagram: Bytes, h: Handler<S, R>, start: S) returns (o: Outcome<S, R>)
    ensures o == ParseFrom(v, datagram, h, Capacity(v), start, [])
  {
    var packet := datagram;
    var state := start;
    var parsed: seq<R> := [];
    while packet != []
      invariant ParseFrom(v, packet, h, Capacity(v), state, parsed)
                == ParseFrom(v, datagram, h, Capacity(v), start, [])
      decreases |packet|
    {
      var recordEnd: nat;
      if v.Dtls13? && IsCiphertextHeader(packet[0]) {
        if Bit(packet[0], CID_BIT) {
          break;
        }
        if |packet| < 2 {
          return Outcome(state, ParseIncomplete);
        }
        var flags := packet[0];
        var seqLen := if Bit(flags, SEQ_BIT) then 2 else 1;
        var lenLen := if Bit(flags, LEN_BIT) then 2 else 0;
        var headerLen := 1 + seqLen + lenLen;
        if |packet| < headerLen {
          return Outcome(state, ParseIncomplete);
        }
        recordEnd := if Bit(flags, LEN_BIT) then headerLen + U16(packet, 1 + seqLen) else |packet|;
      } else {
        if |packet| < PLAINTEXT_HEADER_LEN {
          return Outcome(state, ParseIncomplete);
        }
        recordEnd := PLAINTEXT_HEADER_LEN + U16(packet, 11);
      }
      if |packet| < recordEnd {
        return Outcome(state, ParseIncomplete);
      }
      assert FrontExtent(v, packet) == Length(recordEnd);
      var (next, verdict) := h.parse(state, packet[..recordEnd]);
      state := next;
      match verdict {
        case Fail => return Outcome(state, Refused);
        case Drop =>
        case Keep(r) =>
          if |parsed| >= Capacity(v) {
            return Outcome(state, TooManyRecords);
          }
          parsed := parsed + [r];
      }
      packet := packet[recordEnd..];
    }
    return Outcome(state, Parsed(parsed));
  }

  /** A record that states its own length. */
  predicate SelfDelimiting(v: Version, r: Bytes) {
    if r != [] && v.Dtls13? && IsCiphertextHeader(r[0]) then
      && !Bit(r[0], CID_BIT) && Bit(r[0], LEN_BIT) && |r| >= UnifiedHeaderLen(r[0])
      && |r| == UnifiedHeaderLen(r[0]) + U16(r, UnifiedHeaderLen(r[0]) - 2)
    else |r| >= PLAINTEXT_HEADER_LEN && |r| == PLAINTEXT_HEADER_LEN + U16(r, 11)
  }

  /** A DTLS 1.3 record without a length, which runs to the end of its datagram. */
  predicate RunsToEnd(v: Version, r: Bytes) {
    && r != [] && v.Dtls13? && IsCiphertextHeader(r[0])
    && !Bit(r[0], CID_BIT) && !Bit(r[0], LEN_BIT) && |r| >= 2 && |r| >= UnifiedHeaderLen(r[0])
  }

  predicate WellFramed(v: Version, records: seq<Bytes>) {
    forall i :: 0 <= i < |records| ==>
      SelfDelimiting(v, records[i]) || (i == |records| - 1 && RunsToEnd(v, records[i]))
  }

  function Concat(records: seq<Bytes>): Bytes {
    if records == [] then [] else records[0] + Concat(records[1..])
  }

  lemma FrontOfRecord(v: Version, r: Bytes, rest: Bytes)
    requires SelfDelimiting(v, r) || (RunsToEnd(v, r) && rest == [])
    ensures r != [] && FrontExtent(v, r + rest) == Length(|r|)
    ensures (r + rest)[..|r|] == r && (r + rest)[|r|..] == rest
  {
    assert (r + rest)[0] == r[0];
  }

  lemma FrontIsRecord(v: Version, packet: Bytes)
    requires packet != [] && FrontExtent(v, packet).Length?
    ensures var n := FrontExtent(v, packet).n;
            SelfDelimiting(v, packet[..n]) || (RunsToEnd(v, packet[..n]) && n == |packet|)
  {
    var n := FrontExtent(v, packet).n;
    assert packet[..n][0] == packet[0];
    if n == |packet| {
      assert packet[..n] == packet;
    }
  }

  /** The slices are well-framed records, what is left is nothing or not a whole record, and
      together they are the datagram. */
  ghost predicate IsSplit(v: Version, packet: Bytes, s: Split) {
    && WellFramed(v, s.slices) && packet == Concat(s.slices) + s.rest
    && if s.rest == [] then !s.short
       else (forall r :: r in s.slices ==> SelfDelimiting(v, r))
            && FrontExtent(v, s.rest) == if s.short then Short else Stop
  }

  /** A record in front of a split datagram. */
  lemma FrontSplit(v: Version, packet: Bytes, n: nat, tail: Split)
    requires n <= |packet| && IsSplit(v, packet[n..], tail)
    requires SelfDelimiting(v, packet[..n]) || (RunsToEnd(v, packet[..n]) && n == |packet|)
    ensures IsSplit(v, packet, tail.(slices := [packet[..n]] + tail.slices))
  {
    var slices := [packet[..n]] + tail.slices;
    assert slices[1..] == tail.slices;
    assert packet == packet[..n] + packet[n..];
    assert packet == Concat(slices) + tail.rest;
    if n == |packet| {
      assert packet[n..] == [];
      NothingBehind(v, tail);
    }
  }

  lemma NothingBehind(v: Version, tail: Split)
    requires IsSplit(v, [], tail)
    ensures tail.slices == [] && tail.rest == []
  {
  }

  lemma {:induction false} SplitSound(v: Version, packet: Bytes)
    ensures IsSplit(v, packet, SplitRecords(v, packet))
    decreases |packet|
  {
    if packet == [] {
    } else if FrontExtent(v, packet).Length? {
      var n := FrontExtent(v, packet).n;
      FrontIsRecord(v, packet);
      SplitSound(v, packet[n..]);
      FrontSplit(v, packet, n, SplitRecords(v, packet[n..]));
    } else {
      assert packet == Concat([]) + packet;
    }
  }

  lemma {:induction false} SplitComplete(v: Version, packet: Bytes, s: Split)
    requires IsSplit(v, packet, s)
    ensures SplitRecords(v, packet) == s
    decreases |s.slices|
  {
    if s.slices == [] {
      assert packet == s.rest;
    } else {
      var r, rest := s.slices[0], Concat(s.slices[1..]) + s.rest;
      assert packet == r + rest;
      assert forall i :: 0 <= i < |s.slices[1..]| ==> s.slices[1..][i] == s.slices[i + 1];
      if !SelfDelimiting(v, r) {
        assert s.slices[1..] == [] && s.rest == [];
      }
      FrontOfRecord(v, r, rest);
      SplitComplete(v, rest, s.(slices := s.slices[1..]));
      assert [r] + s.slices[1..] == s.slices;
    }
  }

  /** Cutting up a datagram gives these records and this remainder exactly when the datagram
      is the records one after the other and the remainder, and that begins no record. */
  lemma SplitExact(v: Version, packet: Bytes, s: Split)
    ensures SplitRecords(v, packet) == s <==> IsSplit(v, packet, s)
  {
    SplitSound(v, packet);
    if IsSplit(v, packet, s) {
      SplitComplete(v, packet, s);
    }
  }

  /** Parsing any datagram is judging its records one after the other, each by the state the
      one before it left, and then failing if the datagram is cut short. */
  lemma {:induction false} ParseIsSplit<S, R>(
      v: Version, packet: Bytes, h: Handler<S, R>, capacity: nat, state: S, done: seq<R>)
    ensures var s := SplitRecords(v, packet);
            var judged := Judge(h, capacity, state, s.slices, done);
            ParseFrom(v, packet, h, capacity, state, done)
            == if judged.result.Parsed? && s.short then Outcome(judged.state, ParseIncomplete) else judged
    decreases |packet|
  {
    if packet != [] && FrontExtent(v, packet).Length? {
      var n := FrontExtent(v, packet).n;
      var slices := SplitRecords(v, packet[n..]).slices;
      assert ([packet[..n]] + slices)[0] == packet[..n] && ([packet[..n]] + slices)[1..] == slices;
      var (next, verdict) := h.parse(state, packet[..n]);
      match verdict
      case Fail =>
      case Drop => ParseIsSplit(v, packet[n..], h, capacity, next, done);
      case Keep(r) => ParseIsSplit(v, packet[n..], h, capacity, next, done + [r]);
    }
  }

  /** Appending records to a datagram and parsing it judges and sorts out those records. */
  lemma DatagramRoundTrip<S, R>(v: Version, records: seq<Bytes>, h: Handler<S, R>, state: S)
    requires WellFramed(v, records)
    ensures ParseDatagram(v, Concat(records), h, state) == Classified(h, Judge(h, Capacity(v), state, records, []))
  {
    assert Concat(records) == Concat(records) + [];
    SplitExact(v, Concat(records), Split(records, [], false));
    ParseIsSplit(v, Concat(records), h, Capacity(v), state, []);
  }

  // ----- Records as the engines write them -----

  /** A sealed DTLS 1.3 record: flags for a two-byte number and a length, the low bits of the
      epoch, the masked number, the length. */
  function SealedBytes(epoch: nat, masked: Bytes, sealed: Bytes): Bytes {
    [0x20 + 0x08 + 0x04 + epoch % 4] + masked + [|sealed| / 256, |sealed| % 256] + sealed
  }

  /** Any other record: content type, version, epoch and number, length. */
  function ClearBytes(contentType: nat, version: Bytes, sequence: Bytes, fragment: Bytes): Bytes {
    [contentType] + version + sequence + [|fragment| / 256, |fragment| % 256] + fragment
  }

  ghost predicate IsSealed(r: Bytes) {
    exists epoch, masked, sealed :: |masked| == 2 && |sealed| < 0x1_0000 && r == SealedBytes(epoch, masked, sealed)
  }

  ghost predicate IsClear(r: Bytes) {
    exists contentType, version, sequence, fragment ::
      && contentType < 32 && |version| == 2 && |sequence| == 8 && |fragment| < 0x1_0000
      && r == ClearBytes(contentType, version, sequence, fragment)
  }

  lemma SealedFramed(epoch: nat, masked: Bytes, sealed: Bytes)
    requires |masked| == 2 && |sealed| < 0x1_0000
    ensures var r := SealedBytes(epoch, masked, sealed);
            |r| == 5 + |sealed| && SelfDelimiting(Dtls13, r) && r[0] % 4 == epoch % 4 && r[1..3] == masked
  {
    var r := SealedBytes(epoch, masked, sealed);
    assert r[0] == 0x2C + epoch % 4 && r[3] == |sealed| / 256 && r[4] == |sealed| % 256;
    assert UnifiedHeaderLen(r[0]) == 5;
  }

  lemma ClearFramed(v: Version, contentType: nat, version: Bytes, sequence: Bytes, fragment: Bytes)
    requires contentType < 32 && |version| == 2 && |sequence| == 8 && |fragment| < 0x1_0000
    ensures var r := ClearBytes(contentType, version, sequence, fragment);
            |r| == 13 + |fragment| && SelfDelimiting(v, r)
  {
    var r := ClearBytes(contentType, version, sequence, fragment);
    assert r[11] == |fragment| / 256 && r[12] == |fragment| % 256;
  }

  /** A datagram filled with records as the engines write them is cut into just those. */
  lemma WrittenSplits(v: Version, records: seq<Bytes>)
    requires forall r :: r in records ==> IsClear(r) || (v.Dtls13? && IsSealed(r))
    ensures SplitRecords(v, Concat(records)) == Split(records, [], false)
  {
    forall i | 0 <= i < |records|
      ensures SelfDelimiting(v, records[i])
    {
      if IsClear(records[i]) {
        var contentType, version, sequence, fragment :|
          && contentType < 32 && |version| == 2 && |sequence| == 8 && |fragment| < 0x1_0000
          && records[i] == ClearBytes(contentType, version, sequence, fragment);
        ClearFramed(v, contentType, version, sequence, fragment);
      } else {
        assert records[i] in records;
        var epoch, masked, sealed :|
          |masked| == 2 && |sealed| < 0x1_0000 && records[i] == SealedBytes(epoch, masked, sealed);
        SealedFramed(epoch, masked, sealed);
      }
    }
    assert Concat(records) == Concat(records) + [];
    SplitExact(v, Concat(records), Split(records, [], false));
  }

  /** A short remainder fails the datagram, and the records before it have been judged all
      the same: the state is theirs, but none of them is kept. */
  lemma TailSpoils<S, R>(v: Version, records: seq<Bytes>, tail: Bytes, h: Handler<S, R>, state: S)
    requires tail != [] && FrontExtent(v, tail) == Short
    requires forall r :: r in records ==> SelfDelimiting(v, r)
    ensures var o := ParseDatagram(v, Concat(records) + tail, h, state);
            var judged := Judge(h, Capacity(v), state, records, []);
            o.state == judged.state && o.result == if judged.result.Parsed? then ParseIncomplete else judged.result
  {
    SplitExact(v, Concat(records) + tail, Split(records, tail, true));
    ParseIsSplit(v, Concat(records) + tail, h, Capacity(v), state, []);
  }

  /** Every record, judged after the ones before it, is one to keep. */
  predicate KeepsAll<S, R>(h: Handler<S, R>, state: S, slices: seq<Bytes>) {
    slices == []
    || (h.parse(state, slices[0]).1.Keep? && KeepsAll(h, h.parse(state, slices[0]).0, slices[1..]))
  }

  lemma {:induction false} JudgeKeepsAll<S, R>(
      h: Handler<S, R>, capacity: nat, state: S, slices: seq<Bytes>, done: seq<R>)
    requires KeepsAll(h, state, slices) && |done| <= capacity
    ensures var o := Judge(h, capacity, state, slices, done);
            if |done| + |slices| <= capacity then o.result.Parsed? && |o.result.records| == |done| + |slices|
            else o.result.TooManyRecords?
    decreases |slices|
  {
    if slices != [] && |done| < capacity {
      var (next, verdict) := h.parse(state, slices[0]);
      JudgeKeepsAll(h, capacity, next, slices[1..], done + [verdict.record]);
    }
  }

  lemma {:induction false} ClassifyNeverCrowds<S, R>(h: Handler<S, R>, state: S, parsed: seq<R>, done: seq<R>)
    ensures !ClassifyFrom(h, state, parsed, done).result.TooManyRecords?
    decreases |parsed|
  {
    if parsed != [] {
      var (next, verdict) := h.classify(state, parsed[0]);
      match verdict
      case Fail =>
      case Drop => ClassifyNeverCrowds(h, next, parsed[1..], done);
      case Keep(r) => ClassifyNeverCrowds(h, next, parsed[1..], done + [r]);
    }
  }

  /** A datagram of good records is refused, whole, exactly when there are more of them than
      a receiver takes. */
  lemma CrowdRefused<S, R>(v: Version, records: seq<Bytes>, h: Handler<S, R>, state: S)
    requires WellFramed(v, records) && KeepsAll(h, state, records)
    ensures ParseDatagram(v, Concat(records), h, state).result.TooManyRecords? <==> |records| > Capacity(v)
  {
    DatagramRoundTrip(v, records, h, state);
    JudgeKeepsAll(h, Capacity(v), state, records, []);
    var judged := Judge(h, Capacity(v), state, records, []);
    if judged.result.Parsed? {
      ClassifyNeverCrowds(h, judged.state, judged.result.records, []);
    }
  }

  // ----- The content inside -----

  /** The last byte that is not zero is the content type, what precedes it the content. */
  function RecoverInner(plaintext: Bytes): Option<(nat, nat)> {
    if plaintext == [] then None
    else
      var last := |plaintext| - 1;
      if plaintext[last] == 0 then RecoverInner(plaintext[..last]) else Some((plaintext[last], last))
  }

  method RecoverInnerContentType(decrypted: Bytes) returns (r: Option<(nat, nat)>)
    ensures r == RecoverInner(decrypted)
  {
    var i := |decrypted|;
    assert decrypted[..i] == decrypted;
    while i > 0 && decrypted[i - 1] == 0
      invariant i <= |decrypted| && RecoverInner(decrypted[..i]) == RecoverInner(decrypted)
    {
      assert decrypted[..i][..i - 1] == decrypted[..i - 1];
      i := i - 1;
    }
    if i == 0 {
      return None;
    }
    i := i - 1;
    return Some((decrypted[i], i));
  }

  function Zeros(n: nat): Bytes {
    seq(n, i => 0)
  }

  lemma LastIsPadding(plaintext: Bytes, contentType: nat, length: nat)
    requires length + 1 < |plaintext|
    ensures plaintext == plaintext[..length] + [contentType] + Zeros(|plaintext| - length - 1)
            ==> plaintext[|plaintext| - 1] == 0
  {
    var padded := plaintext[..length] + [contentType] + Zeros(|plaintext| - length - 1);
    assert padded[|padded| - 1] == 0;
  }

  /** Content, a type that is not zero, and any padding: type and length come back, and
      nothing else is read so. */
  lemma {:induction false} InnerExact(plaintext: Bytes, contentType: nat, length: nat)
    ensures RecoverInner(plaintext) == Some((contentType, length))
            <==> && contentType != 0 && length < |plaintext|
                 && plaintext == plaintext[..length] + [contentType] + Zeros(|plaintext| - length - 1)
    decreases |plaintext|
  {
    if plaintext != [] {
      var last := |plaintext| - 1;
      var front := plaintext[..last];
      if plaintext[last] == 0 {
        InnerExact(front, contentType, length);
        if length < last {
          assert front[..length] == plaintext[..length];
          assert Zeros(|plaintext| - length - 1) == Zeros(last - length - 1) + [0];
          assert plaintext == front + [0];
          if plaintext == plaintext[..length] + [contentType] + Zeros(|plaintext| - length - 1) {
            assert front == (plaintext[..length] + [contentType] + Zeros(|plaintext| - length - 1))[..last];
          }
        }
      } else if length < last {
        LastIsPadding(plaintext, contentType, length);
      } else if length == last {
        assert plaintext == plaintext[..last] + [plaintext[last]] + Zeros(0);
      }
    }
  }

  lemma InnerRoundTrip(content: Bytes, contentType: nat, padding: nat)
    requires contentType != 0
    ensures RecoverInner(content + [contentType] + Zeros(padding)) == Some((contentType, |content|))
  {
    var plaintext := content + [contentType] + Zeros(padding);
    assert plaintext[..|content|] == content;
    InnerExact(plaintext, contentType, |content|);
  }
}
