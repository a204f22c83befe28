/** Application data from the record layer to the application: queued datagrams, the first
    unhandled record handed out, handled datagrams dropped from the front. */
module Delivery {
  import opened Handshakes
  import opened RecordNumbers
  import opened Records
  import opened ReceiveSide
  import opened ReplayWindows

  /** A queued record: application data or a handshake fragment. */
  datatype Held = Held(epoch: nat, number: nat, payload: Payload, handled: bool)

  type Datagram = seq<Held>

  // ----- Handing out and dropping -----

  predicate Pends(h: Held) {
    h.payload.AppData? && !h.handled
  }

  /** The unhandled application records of a datagram, in order. */
  function PendingIn(d: Datagram): seq<Held> {
    if d == [] then []
    else (if Pends(d[0]) then [d[0]] else []) + PendingIn(d[1..])
  }

  function Pending(q: seq<Datagram>): seq<Held> {
    if q == [] then [] else PendingIn(q[0]) + Pending(q[1..])
  }

  function FirstPending(d: Datagram): (i: nat)
    ensures i <= |d|
    ensures i < |d| ==> Pends(d[i])
    ensures forall j :: 0 <= j < i ==> !Pends(d[j])
  {
    if d == [] || Pends(d[0]) then 0 else 1 + FirstPending(d[1..])
  }

  function Marked(d: Datagram): Datagram
    requires FirstPending(d) < |d|
  {
    d[FirstPending(d) := d[FirstPending(d)].(handled := true)]
  }

  /** The first unhandled application record of the queue, and the queue with it handled. */
  function Take(q: seq<Datagram>): (Option<Held>, seq<Datagram>) {
    if q == [] then (None, q)
    else
      var i := FirstPending(q[0]);
      if i < |q[0]| then (Some(q[0][i]), [Marked(q[0])] + q[1..])
      else
        var (taken, rest) := Take(q[1..]);
        (taken, [q[0]] + rest)
  }

  predicate FullyHandled(d: Datagram) {
    forall i :: 0 <= i < |d| ==> d[i].handled
  }

  function Purge(q: seq<Datagram>): seq<Datagram> {
    if q != [] && FullyHandled(q[0]) then Purge(q[1..]) else q
  }

  lemma {:induction false} PendingInSkips(d: Datagram, i: nat)
    requires i <= |d| && forall j :: 0 <= j < i ==> !Pends(d[j])
    ensures PendingIn(d) == PendingIn(d[i..])
    decreases i
  {
    if i > 0 {
      assert d[1..][i - 1..] == d[i..];
      PendingInSkips(d[1..], i - 1);
    } else {
      assert d[0..] == d;
    }
  }

  lemma HandlesFirst(d: Datagram)
    requires FirstPending(d) < |d|
    ensures PendingIn(d) == [d[FirstPending(d)]] + PendingIn(Marked(d))
  {
    var i, marked := FirstPending(d), Marked(d);
    PendingInSkips(d, i);
    PendingInSkips(marked, i);
    PendingInFirst(d[i..]);
    PendingInFirst(marked[i..]);
    assert d[i..][1..] == marked[i..][1..];
  }

  lemma PendingInFirst(d: Datagram)
    requires d != []
    ensures PendingIn(d) == if Pends(d[0]) then [d[0]] + PendingIn(d[1..]) else PendingIn(d[1..])
  {
    assert [] + PendingIn(d[1..]) == PendingIn(d[1..]);
  }

  lemma PendingCons(d: Datagram, q: seq<Datagram>)
    ensures Pending([d] + q) == PendingIn(d) + Pending(q)
  {
    assert ([d] + q)[1..] == q;
  }

  lemma ConsConcat(h: Held, a: seq<Held>, b: seq<Held>)
    ensures var s := ([h] + a) + b; s != [] && s[0] == h && s[1..] == a + b
  {
  }

  lemma TakeFromHead(d: Datagram, q: seq<Datagram>)
    requires FirstPending(d) < |d|
    ensures var p, t := Pending([d] + q), Take([d] + q);
            p != [] && t.0 == Some(p[0]) && Pending(t.1) == p[1..]
  {
    assert ([d] + q)[0] == d && ([d] + q)[1..] == q;
    HandlesFirst(d);
    PendingCons(Marked(d), q);
    ConsConcat(d[FirstPending(d)], PendingIn(Marked(d)), Pending(q));
  }

  lemma NoneInHead(q: seq<Datagram>)
    requires q != [] && FirstPending(q[0]) == |q[0]|
    ensures Pending(q) == Pending(q[1..])
    ensures Take(q) == (Take(q[1..]).0, [q[0]] + Take(q[1..]).1)
    ensures Pending(Take(q).1) == Pending(Take(q[1..]).1)
  {
    PendingInSkips(q[0], |q[0]|);
    assert q[0][|q[0]|..] == [] && PendingIn(q[0]) == [];
    var rest := Take(q[1..]).1;
    assert ([q[0]] + rest)[1..] == rest;
    assert [] + Pending(rest) == Pending(rest);
  }

  /** What is handed out is the first pending record, and only it stops pending. */
  lemma {:induction false} TakeTakesFirst(q: seq<Datagram>)
    ensures if Pending(q) == [] then Take(q) == (None, q)
            else Take(q).0 == Some(Pending(q)[0]) && Pending(Take(q).1) == Pending(q)[1..]
  {
    if q != [] {
      if FirstPending(q[0]) < |q[0]| {
        TakeFromHead(q[0], q[1..]);
        assert [q[0]] + q[1..] == q;
      } else {
        NoneInHead(q);
        TakeTakesFirst(q[1..]);
        assert [q[0]] + q[1..] == q;
      }
    }
  }

  function UnhandledIn(d: Datagram): seq<Held> {
    if d == [] then [] else (if d[0].handled then [] else [d[0]]) + UnhandledIn(d[1..])
  }

  function Unhandled(q: seq<Datagram>): seq<Held> {
    if q == [] then [] else UnhandledIn(q[0]) + Unhandled(q[1..])
  }

  lemma {:induction false} HandledHasNothing(d: Datagram)
    requires FullyHandled(d)
    ensures UnhandledIn(d) == [] && PendingIn(d) == []
  {
    if d != [] {
      HandledHasNothing(d[1..]);
    }
  }

  /** Purging drops no unhandled record of any kind, and stops only at a datagram that has
      one. */
  lemma {:induction false} PurgeDropsHandledOnly(q: seq<Datagram>)
    ensures Unhandled(Purge(q)) == Unhandled(q) && Pending(Purge(q)) == Pending(q)
    ensures Purge(q) == [] || exists h :: h in Purge(q)[0] && !h.handled
  {
    if q != [] && FullyHandled(q[0]) {
      HandledHasNothing(q[0]);
      PurgeDropsHandledOnly(q[1..]);
    }
  }

  // ----- Queueing -----

  lemma {:induction false} PendingConcat(q: seq<Datagram>, r: seq<Datagram>)
    ensures Pending(q + r) == Pending(q) + Pending(r)
  {
    if q == [] {
      assert q + r == r;
    } else {
      assert (q + r)[1..] == q[1..] + r;
      PendingConcat(q[1..], r);
    }
  }

  lemma SingleDatagram(d: Datagram)
    ensures Pending([d]) == PendingIn(d)
  {
    assert [d][1..] == [];
  }

  lemma MultisetsAdd(a: seq<Held>, b: seq<Held>, c: seq<Held>)
    ensures multiset((a + b) + c) == multiset(a + c) + multiset(b)
  {
  }

  /** Queueing a datagram anywhere adds its pending records and leaves the rest. */
  lemma InsertAdds(q: seq<Datagram>, i: nat, d: Datagram)
    requires i <= |q|
    ensures multiset(Pending(q[..i] + [d] + q[i..])) == multiset(Pending(q)) + multiset(PendingIn(d))
  {
    var before, after := q[..i], q[i..];
    assert q == before + after;
    PendingConcat(before + [d], after);
    PendingConcat(before, [d]);
    PendingConcat(before, after);
    SingleDatagram(d);
    MultisetsAdd(Pending(before), PendingIn(d), Pending(after));
  }

  /** Replacing a queued datagram puts its pending records in the place of the old one's. */
  lemma ReplaceTrades(q: seq<Datagram>, i: nat, d: Datagram)
    requires i < |q|
    ensures multiset(Pending(q[i := d])) + multiset(PendingIn(q[i])) == multiset(Pending(q)) + multiset(PendingIn(d))
  {
    var before, after := q[..i], q[i + 1..];
    assert q[i := d] == before + [d] + after;
    assert q == before + [q[i]] + after;
    PendingAround(before, d, after);
    PendingAround(before, q[i], after);
  }

  lemma PendingAround(before: seq<Datagram>, d: Datagram, after: seq<Datagram>)
    ensures multiset(Pending(before + [d] + after))
            == multiset(Pending(before)) + multiset(Pending(after)) + multiset(PendingIn(d))
  {
    PendingConcat(before + [d], after);
    PendingConcat(before, [d]);
    SingleDatagram(d);
    MultisetsAdd(Pending(before), PendingIn(d), Pending(after));
  }

  /** Replacing loses nothing exactly when no application record of the old datagram was
      still pending. */
  lemma ReplaceExact(q: seq<Datagram>, i: nat, d: Datagram)
    requires i < |q|
    ensures multiset(Pending(q[i := d])) == multiset(Pending(q)) + multiset(PendingIn(d))
            <==> PendingIn(q[i]) == []
  {
    ReplaceTrades(q, i, d);
    NothingLost(multiset(Pending(q[i := d])), PendingIn(q[i]), multiset{});
  }

  lemma NothingLost(rest: multiset<Held>, out: seq<Held>, more: multiset<Held>)
    ensures rest + more == rest + multiset(out) + more <==> out == []
  {
    if out == [] {
      assert rest + multiset(out) == rest;
    } else {
      assert multiset(out)[out[0]] > 0;
      assert (rest + multiset(out) + more)[out[0]] > (rest + more)[out[0]];
    }
  }

  // ----- From the wire to the application -----

  /** `arrived` lists the application records opened, `accepted` those of them that were
      queued and `shed` those that were not, `delivered` those handed out, and `lost` those
      that left the queue in a datagram dropped before they were. */
  datatype Inbox = Inbox(
    rcv: Receiver, queue: seq<Datagram>, arrived: seq<Held>, accepted: seq<Held>, shed: seq<Held>,
    delivered: seq<Held>, lost: seq<Held>)

  function NewInbox(peer: Side, maxQueue: nat): Inbox {
    Inbox(NewReceiver(peer, maxQueue), [], [], [], [], [], [])
  }

  /** One arriving record.  In the clear only handshake, ACK and alert records parse; a
      sealed one is resolved, checked for replay, decrypted and recorded. */
  function OpenOne(r: Receiver, record: Record, garbage: nat): (Receiver, seq<Opened>) {
    match record
    case Plaintext(number, payload) => (r, if payload.AppData? then [] else [Opened(0, number, payload)])
    case Ciphertext(_, _, _, _, _) =>
      if !r.peerEncryption then (r, [])
      else
        match Open(r, record, garbage)
        case None => (r, [])
        case Some(o) => (Commit(r, o), [o])
  }

  /** One arriving datagram, record by record. */
  function OpenAll(r: Receiver, packet: seq<(Record, nat)>): (Receiver, seq<Opened>)
    decreases |packet|
  {
    if packet == [] then (r, [])
    else
      var (r1, first) := OpenOne(r, packet[0].0, packet[0].1);
      var (r2, rest) := OpenAll(r1, packet[1..]);
      (r2, first + rest)
  }

  function AsHeld(o: Opened): Held {
    Held(o.epoch, o.number, o.payload, false)
  }

  /** The application records among those opened. */
  function DataIn(os: seq<Opened>): seq<Held> {
    if os == [] then [] else (if os[0].payload.AppData? then [AsHeld(os[0])] else []) + DataIn(os[1..])
  }

  /** Then what was opened is sorted: what follows a close_notify is dropped, application
      data and handshake records are kept. */
  function Kept(r: Receiver, o: Opened): Datagram {
    if AfterClose(r, o.epoch, o.number) then []
    else if o.payload.AppData? || o.payload.HandshakePart? then [AsHeld(o)]
    else []
  }

  function Noted(r: Receiver, o: Opened): Receiver {
    if o.payload.CloseNotify? && !AfterClose(r, o.epoch, o.number) && r.closeNotify.None?
    then r.(closeNotify := Some((o.epoch, o.number))) else r
  }

  function Sift(r: Receiver, os: seq<Opened>): (Receiver, Datagram)
    decreases |os|
  {
    if os == [] then (r, [])
    else
      var (r', rest) := Sift(Noted(r, os[0]), os[1..]);
      (r', Kept(r, os[0]) + rest)
  }

  /** The application records the sorting drops. */
  function Late(r: Receiver, os: seq<Opened>): seq<Held>
    decreases |os|
  {
    if os == [] then []
    else
      (if os[0].payload.AppData? && AfterClose(r, os[0].epoch, os[0].number) then [AsHeld(os[0])] else [])
      + Late(Noted(r, os[0]), os[1..])
  }

  // ----- Where a datagram goes -----

  /** What becomes of an arriving datagram; `At` and `Over` name its place. */
  datatype Placement = Refused | Dropped | At(i: nat) | Over(i: nat)

  predicate LeadsWithPart(d: Datagram) {
    d != [] && d[0].payload.HandshakePart?
  }

  /** A full queue and renegotiation are errors. */
  predicate Refuses(q: seq<Datagram>, maxQueue: nat, peerSeq: nat, released: bool, d: Datagram) {
    || |q| >= maxQueue
    || (LeadsWithPart(d) && d[0].payload.part.seqNo >= peerSeq && released && d[0].payload.part.msgType != KeyUpdate)
  }

  predicate AlreadyRead(peerSeq: nat, d: Datagram) {
    LeadsWithPart(d) && d[0].payload.part.seqNo < peerSeq
  }

  /** The first fragment of the arriving datagram has the key of the first fragment of the
      queued one, which was consumed, or looks corrupted where the new one does not. */
  predicate Supersedes(queued: Datagram, d: Datagram) {
    && LeadsWithPart(queued) && LeadsWithPart(d)
    && queued[0].payload.part.SameKey(d[0].payload.part)
    && (queued[0].handled || (!queued[0].payload.part.Whole() && d[0].payload.part.Whole()))
  }

  /** The placements open to a datagram.  Which one is taken depends on a search of a queue
      that may hold datagrams of both kinds, in no common order. */
  predicate MayTake(q: seq<Datagram>, maxQueue: nat, peerSeq: nat, released: bool, d: Datagram, p: Placement) {
    match p
    case Refused => Refuses(q, maxQueue, peerSeq, released, d)
    case Dropped => true
    case At(i) => !Refuses(q, maxQueue, peerSeq, released, d) && !AlreadyRead(peerSeq, d) && i <= |q|
    case Over(i) =>
      !Refuses(q, maxQueue, peerSeq, released, d) && !AlreadyRead(peerSeq, d) && i < |q| && Supersedes(q[i], d)
  }

  // ----- The order of the queue -----

  const NO_POSITION := (0xFFFF, 0xFFFF_FFFF)
  const MAX_OFFSET := 0xFF_FFFF

  /** Where the handshake search places a datagram: behind all others, unless a fragment
      leads it. */
  function PositionOf(d: Datagram): (nat, nat) {
    if LeadsWithPart(d) then (d[0].payload.part.seqNo, d[0].payload.part.offset) else NO_POSITION
  }

  predicate Less(a: (nat, nat), b: (nat, nat)) {
    a.0 < b.0 || (a.0 == b.0 && a.1 < b.1)
  }

  const MAX_SEQ_NO := 0xFFFF

  /** Epoch and number of the record that leads a datagram. */
  function Lead(d: Datagram): (nat, nat)
    requires d != []
  {
    (d[0].epoch, d[0].number)
  }

  predicate NoneEmpty(q: seq<Datagram>) {
    forall i :: 0 <= i < |q| ==> q[i] != []
  }

  /** Strictly ascending by the records that lead. */
  predicate Ascending(q: seq<Datagram>) {
    NoneEmpty(q) && forall i, j :: 0 <= i < j < |q| ==> Less(Lead(q[i]), Lead(q[j]))
  }

  predicate Led(q: seq<Datagram>, lead: (nat, nat))
    requires NoneEmpty(q)
  {
    exists i :: 0 <= i < |q| && Lead(q[i]) == lead
  }

  /** A datagram goes where it belongs among the leading records, and is dropped exactly when a
      queued one is led by the same. */
  predicate Orderly(q: seq<Datagram>, d: Datagram, p: Placement)
    requires NoneEmpty(q) && d != []
  {
    && (p.Dropped? <==> Led(q, Lead(d)))
    && (p.At? ==> Ascending(Placed(q, d, p)))
  }

  /** Datagrams led by fragments come first, strictly ascending by message and offset. */
  predicate PartsFirst(q: seq<Datagram>) {
    forall i, j :: 0 <= i < j < |q| && LeadsWithPart(q[j]) ==>
      LeadsWithPart(q[i]) && Less(PositionOf(q[i]), PositionOf(q[j]))
  }

  predicate PartAt(q: seq<Datagram>, position: (nat, nat)) {
    exists i :: 0 <= i < |q| && LeadsWithPart(q[i]) && PositionOf(q[i]) == position
  }

  /** Inserting a datagram leaves the queue ascending only if it was. */
  lemma AscendingBefore(q: seq<Datagram>, i: nat, d: Datagram)
    requires i <= |q| && Ascending(q[..i] + [d] + q[i..])
    ensures Ascending(q)
  {
    var r := q[..i] + [d] + q[i..];
    assert forall k :: 0 <= k < |q| ==> q[k] == r[if k < i then k else k + 1];
  }

  lemma SplicedAt(q: seq<Datagram>, i: nat, d: Datagram, a: nat)
    requires i <= |q| && a <= |q|
    ensures (q[..i] + [d] + q[i..])[a] == if a < i then q[a] else if a == i then d else q[a - 1]
  {
  }

  lemma AscendingAfter(q: seq<Datagram>, i: nat, d: Datagram)
    requires Ascending(q) && i <= |q| && d != []
    requires forall k :: 0 <= k < i ==> Less(Lead(q[k]), Lead(d))
    requires forall k :: i <= k < |q| ==> Less(Lead(d), Lead(q[k]))
    ensures Ascending(q[..i] + [d] + q[i..])
  {
    var r := q[..i] + [d] + q[i..];
    forall a | 0 <= a < |r|
      ensures r[a] != []
    {
      SplicedAt(q, i, d, a);
    }
    forall a, b | 0 <= a < b < |r|
      ensures Less(Lead(r[a]), Lead(r[b]))
    {
      SplicedAt(q, i, d, a);
      SplicedAt(q, i, d, b);
    }
  }

  lemma PartsFirstAfter(q: seq<Datagram>, i: nat, d: Datagram)
    requires PartsFirst(q) && i <= |q| && LeadsWithPart(d)
    requires forall k :: 0 <= k < i ==> LeadsWithPart(q[k]) && Less(PositionOf(q[k]), PositionOf(d))
    requires forall k :: i <= k < |q| && LeadsWithPart(q[k]) ==> Less(PositionOf(d), PositionOf(q[k]))
    ensures PartsFirst(q[..i] + [d] + q[i..])
  {
    var r := q[..i] + [d] + q[i..];
    forall a, b | 0 <= a < b < |r| && LeadsWithPart(r[b])
      ensures LeadsWithPart(r[a]) && Less(PositionOf(r[a]), PositionOf(r[b]))
    {
      SplicedAt(q, i, d, a);
      SplicedAt(q, i, d, b);
    }
  }

  lemma PartsFirstReplaced(q: seq<Datagram>, i: nat, d: Datagram)
    requires PartsFirst(q) && i < |q| && LeadsWithPart(d) && LeadsWithPart(q[i]) && PositionOf(d) == PositionOf(q[i])
    ensures PartsFirst(q[i := d])
  {
  }

  function Placed(q: seq<Datagram>, d: Datagram, p: Placement): seq<Datagram> {
    match p
    case At(i) => if i <= |q| then q[..i] + [d] + q[i..] else q
    case Over(i) => if i < |q| then q[i := d] else q
    case _ => q
  }

  datatype Event =
    /** A datagram arrives. */
    | Arrives(packet: seq<(Record, nat)>, placement: Placement)
    /** A datagram fails after these of its records were opened, which are then gone. */
    | Fails(packet: seq<(Record, nat)>)
    | PollAppData
    | PurgeHandled
    /** A handshake record is consumed, and its message's number passed. */
    | Handle(i: nat, j: nat)
    | PassMessage
    /** A HelloRetryRequest drops the datagrams whose first record is consumed. */
    | HelloRetry
    | Change(op: RecvOp)

  function Handled(q: seq<Datagram>, i: nat, j: nat): seq<Datagram> {
    if i < |q| && j < |q[i]| && q[i][j].payload.HandshakePart?
    then q[i := q[i][j := q[i][j].(handled := true)]] else q
  }

  function Retained(q: seq<Datagram>): seq<Datagram> {
    if q == [] then []
    else (if q[0] != [] && q[0][0].handled then [] else [q[0]]) + Retained(q[1..])
  }

  function NotRetained(q: seq<Datagram>): seq<Datagram> {
    if q == [] then []
    else (if q[0] != [] && q[0][0].handled then [q[0]] else []) + NotRetained(q[1..])
  }

  lemma RetainedCons(d: Datagram, q: seq<Datagram>)
    ensures Retained([d] + q) == (if d != [] && d[0].handled then [] else [d]) + Retained(q)
  {
    assert ([d] + q)[1..] == q;
  }

  /** Of any queue those datagrams are retained, in order, whose first record is not consumed. */
  lemma {:induction false} RetainedExact(q: seq<Datagram>, r: seq<Datagram>, d: Datagram)
    ensures Retained(q + r) == Retained(q) + Retained(r)
    ensures Retained([d]) == if d != [] && d[0].handled then [] else [d]
  {
    RetainedCons(d, []);
    assert [d] + [] == [d];
    if q == [] {
      assert q + r == r;
    } else {
      RetainedExact(q[1..], r, d);
      RetainedCons(q[0], q[1..] + r);
      RetainedCons(q[0], q[1..]);
      assert [q[0]] + (q[1..] + r) == q + r && [q[0]] + q[1..] == q;
    }
  }

  /** The datagram an arrival brings, and the receiver once it is sorted. */
  function Brought(b: Inbox, packet: seq<(Record, nat)>): (Receiver, Datagram) {
    var (r, os) := OpenAll(b.rcv, packet);
    Sift(r, os)
  }

  predicate Happens(b: Inbox, e: Event) {
    match e
    case Arrives(packet, p) =>
      var (r, d) := Brought(b, packet);
      p == Dropped || (d != [] && MayTake(b.queue, r.maxQueue, r.peerMsgSeq, r.released, d, p))
    case Change(op) => !op.Arrive?
    case _ => true
  }

  /** The pending application records an event drops with their datagrams. */
  function LostTo(b: Inbox, e: Event): seq<Held> {
    match e
    case Arrives(_, Over(i)) => if i < |b.queue| then PendingIn(b.queue[i]) else []
    case HelloRetry => Pending(NotRetained(b.queue))
    case _ => []
  }

  predicate Queues(p: Placement) {
    p.At? || p.Over?
  }

  /** The application records an event brings, and those of them it does not queue. */
  function ArrivingIn(b: Inbox, e: Event): seq<Held> {
    match e
    case Arrives(packet, p) => DataIn(OpenAll(b.rcv, packet).1)
    case Fails(packet) => DataIn(OpenAll(b.rcv, packet).1)
    case _ => []
  }

  function ShedBy(b: Inbox, e: Event): seq<Held> {
    match e
    case Arrives(packet, p) =>
      var (r, os) := OpenAll(b.rcv, packet);
      if Queues(p) then Late(r, os) else DataIn(os)
    case _ => ArrivingIn(b, e)
  }

  function Happen(b: Inbox, e: Event): Inbox
    requires Happens(b, e)
  {
    Acted(b, e).(arrived := b.arrived + ArrivingIn(b, e), shed := b.shed + ShedBy(b, e), lost := b.lost + LostTo(b, e))
  }

  /** Without the ledger of what was not accepted or not delivered. */
  function Acted(b: Inbox, e: Event): Inbox
    requires Happens(b, e)
  {
    match e
    case Arrives(packet, p) =>
      var (r, d) := Brought(b, packet);
      if Queues(p) then b.(rcv := r, queue := Placed(b.queue, d, p), accepted := b.accepted + PendingIn(d))
      else b.(rcv := r)
    case Fails(packet) => b.(rcv := OpenAll(b.rcv, packet).0)
    case PollAppData =>
      if !b.rcv.released then b
      else
        var (taken, rest) := Take(b.queue);
        if taken.None? then b else b.(queue := rest, delivered := b.delivered + [taken.value])
    case PurgeHandled => b.(queue := Purge(b.queue))
    case Handle(i, j) => b.(queue := Handled(b.queue, i, j))
    case PassMessage => b.(rcv := b.rcv.(peerMsgSeq := b.rcv.peerMsgSeq + 1))
    case HelloRetry => b.(queue := Retained(b.queue))
    case Change(op) => b.(rcv := PerformRecv(b.rcv, op))
  }

  predicate HappensAll(b: Inbox, es: seq<Event>)
    decreases |es|
  {
    es == [] || (Happens(b, es[0]) && HappensAll(Happen(b, es[0]), es[1..]))
  }

  function HappenAll(b: Inbox, es: seq<Event>): Inbox
    requires HappensAll(b, es)
    decreases |es|
  {
    if es == [] then b else HappenAll(Happen(b, es[0]), es[1..])
  }

  ghost predicate OpenedAs(r: Receiver, h: Held) {
    Opened(h.epoch, h.number, h.payload) in r.accepted
  }

  predicate SameNumber(h: Held, g: Held) {
    h.epoch == g.epoch && h.number == g.number
  }

  ghost predicate NumbersDistinct(hs: seq<Held>) {
    forall i, j :: 0 <= i < j < |hs| ==> !SameNumber(hs[i], hs[j])
  }

  /** The application records opened so far, each once. */
  ghost predicate Lists(hs: seq<Held>, r: Receiver) {
    && NumbersDistinct(hs)
    && (forall h :: h in hs ==> OpenedAs(r, h))
    && forall o :: o in r.accepted && o.payload.AppData? ==> AsHeld(o) in hs
  }

  /** Two parts that make up the whole. */
  ghost predicate Splits(whole: seq<Held>, part: seq<Held>, rest: seq<Held>) {
    multiset(whole) == multiset(part) + multiset(rest)
  }

  /** Delivered, still pending and lost make up the accepted records. */
  ghost predicate Balanced(delivered: seq<Held>, queue: seq<Datagram>, lost: seq<Held>, accepted: seq<Held>) {
    multiset(delivered) + multiset(Pending(queue)) + multiset(lost) == multiset(accepted)
  }

  ghost predicate InboxValid(b: Inbox) {
    && ReceiverValid(b.rcv) && Lists(b.arrived, b.rcv)
    && Splits(b.arrived, b.accepted, b.shed)
    && Balanced(b.delivered, b.queue, b.lost, b.accepted)
  }

  /** The sealed records opened from one datagram are new, and no number is opened twice. */
  ghost predicate OpensNew(r: Receiver, r': Receiver, os: seq<Opened>) {
    && ReceiverValid(r') && r.accepted <= r'.accepted
    && (forall o :: o in os && o.epoch > 0 ==> o in r'.accepted)
    && (forall o :: o in r'.accepted ==> o in r.accepted || o in os)
    && (forall o :: o in os && o.epoch == 0 ==> !o.payload.AppData?)
    && (forall o, p :: o in os && o.epoch > 0 && p in r.accepted ==> o.epoch != p.epoch || o.number != p.number)
    && OpenedDistinct(os)
  }

  lemma OpenOneNew(r: Receiver, record: Record, garbage: nat)
    requires ReceiverValid(r)
    ensures OpensNew(r, OpenOne(r, record, garbage).0, OpenOne(r, record, garbage).1)
    ensures |OpenOne(r, record, garbage).1| <= 1
  {
    if record.Ciphertext? && r.peerEncryption && Open(r, record, garbage).Some? {
      CommitKeeps(r, record, garbage);
      OpenedIsNew(r, record, garbage);
    }
  }

  lemma {:induction false} OpenAllNew(r: Receiver, packet: seq<(Record, nat)>)
    requires ReceiverValid(r)
    ensures OpensNew(r, OpenAll(r, packet).0, OpenAll(r, packet).1)
    decreases |packet|
  {
    if packet != [] {
      var (r1, first) := OpenOne(r, packet[0].0, packet[0].1);
      OpenOneNew(r, packet[0].0, packet[0].1);
      OpenAllNew(r1, packet[1..]);
      NewThenNew(r, r1, first, OpenAll(r1, packet[1..]).0, OpenAll(r1, packet[1..]).1);
    }
  }

  lemma NewThenNew(r: Receiver, r1: Receiver, first: seq<Opened>, r2: Receiver, rest: seq<Opened>)
    requires OpensNew(r, r1, first) && |first| <= 1 && OpensNew(r1, r2, rest)
    ensures OpensNew(r, r2, first + rest)
  {
    forall i, j | 0 <= i < j < |first + rest| && (first + rest)[i].epoch > 0
      ensures (first + rest)[i].epoch != (first + rest)[j].epoch || (first + rest)[i].number != (first + rest)[j].number
    {
      if i < |first| {
        assert (first + rest)[i] in first && (first + rest)[j] in rest;
        assert first[i] in r1.accepted;
      }
    }
  }

  ghost predicate OpenedDistinct(os: seq<Opened>) {
    forall i, j :: 0 <= i < j < |os| && os[i].epoch > 0 ==> os[i].epoch != os[j].epoch || os[i].number != os[j].number
  }

  ghost predicate Among(h: Held, os: seq<Opened>) {
    h.payload.AppData? && Opened(h.epoch, h.number, h.payload) in os
  }

  lemma {:induction false} PendingInConcat(d: Datagram, e: Datagram)
    ensures PendingIn(d + e) == PendingIn(d) + PendingIn(e)
  {
    if d == [] {
      assert d + e == e;
    } else {
      assert (d + e)[1..] == d[1..] + e;
      PendingInConcat(d[1..], e);
      PendingInFirst(d);
      PendingInFirst(d + e);
      if Pends(d[0]) {
        ConsConcat(d[0], PendingIn(d[1..]), PendingIn(e));
      }
    }
  }

  lemma KeptIsOpened(r: Receiver, o: Opened)
    ensures PendingIn(Kept(r, o)) == []
            || exists h ::
                 PendingIn(Kept(r, o)) == [h] && h.payload.AppData? && Opened(h.epoch, h.number, h.payload) == o
  {
    if PendingIn(Kept(r, o)) != [] {
      var h := Kept(r, o)[0];
      assert PendingIn(Kept(r, o)) == [h] + PendingIn([]);
    }
  }

  lemma {:induction false} SiftKeepsReceiver(r: Receiver, os: seq<Opened>)
    requires ReceiverValid(r)
    ensures ReceiverValid(Sift(r, os).0) && Sift(r, os).0.accepted == r.accepted
    decreases |os|
  {
    if os != [] {
      SiftKeepsReceiver(Noted(r, os[0]), os[1..]);
    }
  }

  lemma DataInFirst(os: seq<Opened>)
    requires os != []
    ensures DataIn(os) == if os[0].payload.AppData? then [AsHeld(os[0])] + DataIn(os[1..]) else DataIn(os[1..])
  {
    assert [] + DataIn(os[1..]) == DataIn(os[1..]);
  }

  /** Each application record opened is listed once, and nothing else. */
  lemma {:induction false} DataDistinct(os: seq<Opened>)
    requires OpenedDistinct(os) && forall o :: o in os && o.epoch == 0 ==> !o.payload.AppData?
    ensures forall h :: h in DataIn(os) ==> Among(h, os)
    ensures forall o :: o in os && o.payload.AppData? ==> AsHeld(o) in DataIn(os)
    ensures NumbersDistinct(DataIn(os))
  {
    if os != [] {
      var o, rest := os[0], os[1..];
      DataInFirst(os);
      DataDistinct(rest);
      forall h | h in DataIn(rest)
        ensures Among(h, os) && (o.payload.AppData? ==> h.epoch != o.epoch || h.number != o.number)
      {
        assert Among(h, rest);
        var k :| 0 <= k < |rest| && rest[k] == Opened(h.epoch, h.number, h.payload);
        assert os[k + 1] == rest[k];
      }
      forall p | p in os && p.payload.AppData?
        ensures AsHeld(p) in DataIn(os)
      {
        assert p == o || p in rest;
      }
    }
  }

  /** New records join the list. */
  lemma JoinsList(hs: seq<Held>, r: Receiver, r': Receiver, os: seq<Opened>)
    requires Lists(hs, r) && OpensNew(r, r', os)
    ensures Lists(hs + DataIn(os), r')
  {
    DataDistinct(os);
    var more := DataIn(os);
    forall h | h in hs + more
      ensures OpenedAs(r', h)
    {
      assert h in hs || Among(h, os);
    }
    forall i, j | 0 <= i < |hs| && 0 <= j < |more|
      ensures !SameNumber(hs[i], more[j])
    {
      assert hs[i] in hs && OpenedAs(r, hs[i]) && more[j] in more && Among(more[j], os);
    }
    forall o | o in r'.accepted && o.payload.AppData?
      ensures AsHeld(o) in hs + more
    {
      assert o in r.accepted || o in os;
    }
  }

  lemma ListsSame(hs: seq<Held>, r: Receiver, r': Receiver)
    requires Lists(hs, r) && r'.accepted == r.accepted
    ensures Lists(hs, r')
  {
    assert forall h :: OpenedAs(r, h) <==> OpenedAs(r', h);
  }

  lemma SplitsCons(h: Held, whole: seq<Held>, part: seq<Held>, rest: seq<Held>)
    requires Splits(whole, part, rest)
    ensures Splits([h] + whole, [h] + part, rest) && Splits([h] + whole, part, [h] + rest)
  {
  }

  lemma SplitsJoin(
      whole: seq<Held>, part: seq<Held>, rest: seq<Held>, whole': seq<Held>, part': seq<Held>, rest': seq<Held>)
    requires Splits(whole, part, rest) && Splits(whole', part', rest')
    ensures Splits(whole + whole', part + part', rest + rest')
  {
  }

  /** Sorting queues every application record that was opened, but for those it drops. */
  lemma {:induction false} SiftSplits(r: Receiver, os: seq<Opened>)
    ensures Splits(DataIn(os), PendingIn(Sift(r, os).1), Late(r, os))
    decreases |os|
  {
    if os != [] {
      var o, r1 := os[0], Noted(r, os[0]);
      var whole, d, late := DataIn(os[1..]), Sift(r1, os[1..]).1, Late(r1, os[1..]);
      SiftSplits(r1, os[1..]);
      DataInFirst(os);
      PendingInConcat(Kept(r, o), d);
      KeptPends(r, o);
      assert [] + PendingIn(d) == PendingIn(d) && [] + late == late;
      SplitsCons(AsHeld(o), whole, PendingIn(d), late);
    }
  }

  lemma KeptPends(r: Receiver, o: Opened)
    ensures PendingIn(Kept(r, o))
            == if o.payload.AppData? && !AfterClose(r, o.epoch, o.number) then [AsHeld(o)] else []
  {
    if !AfterClose(r, o.epoch, o.number) && (o.payload.AppData? || o.payload.HandshakePart?) {
      assert [AsHeld(o)][1..] == [];
      PendingInFirst([AsHeld(o)]);
    }
  }

  lemma QueueingBalances(
      delivered: seq<Held>, queue: seq<Datagram>, lost: seq<Held>, accepted: seq<Held>, d: Datagram, at: nat)
    requires Balanced(delivered, queue, lost, accepted) && at <= |queue|
    ensures Balanced(delivered, Placed(queue, d, At(at)), lost, accepted + PendingIn(d))
  {
    InsertAdds(queue, at, d);
  }

  /** A datagram that replaces another loses what was still pending in that. */
  lemma ReplacingBalances(
      delivered: seq<Held>, q: seq<Datagram>, lost: seq<Held>, accepted: seq<Held>, d: Datagram, at: nat)
    requires Balanced(delivered, q, lost, accepted) && at < |q|
    ensures Balanced(delivered, Placed(q, d, Over(at)), lost + PendingIn(q[at]), accepted + PendingIn(d))
  {
    ReplaceTrades(q, at, d);
    TradedLists(delivered, Pending(q), Pending(q[at := d]), lost, PendingIn(q[at]), accepted, PendingIn(d));
  }

  lemma TradedLists(
      delivered: seq<Held>, before: seq<Held>, after: seq<Held>, lost: seq<Held>, out: seq<Held>,
      accepted: seq<Held>, more: seq<Held>)
    requires multiset(after) + multiset(out) == multiset(before) + multiset(more)
    requires multiset(delivered) + multiset(before) + multiset(lost) == multiset(accepted)
    ensures multiset(delivered) + multiset(after) + multiset(lost + out) == multiset(accepted + more)
  {
    assert multiset(lost + out) == multiset(lost) + multiset(out);
    assert multiset(accepted + more) == multiset(accepted) + multiset(more);
    Traded(multiset(delivered), multiset(before), multiset(after), multiset(lost), multiset(out), multiset(more));
  }

  lemma Traded(
      delivered: multiset<Held>, before: multiset<Held>, after: multiset<Held>, lost: multiset<Held>,
      out: multiset<Held>, more: multiset<Held>)
    requires after + out == before + more
    ensures delivered + after + (lost + out) == (delivered + before + lost) + more
  {
    assert delivered + after + (lost + out) == (after + out) + (delivered + lost);
    assert (delivered + before + lost) + more == (before + more) + (delivered + lost);
  }

  /** What a datagram brings joins the lists, and is queued or shed. */
  lemma BroughtSplits(b: Inbox, packet: seq<(Record, nat)>)
    requires InboxValid(b)
    ensures var (r, os) := OpenAll(b.rcv, packet);
            var (r', d) := Brought(b, packet);
            && ReceiverValid(r') && Lists(b.arrived + DataIn(os), r')
            && Splits(b.arrived + DataIn(os), b.accepted + PendingIn(d), b.shed + Late(r, os))
            && Splits(b.arrived + DataIn(os), b.accepted, b.shed + DataIn(os))
  {
    OpenAllNew(b.rcv, packet);
    var (r, os) := OpenAll(b.rcv, packet);
    SiftKeepsReceiver(r, os);
    var (r', d) := Sift(r, os);
    JoinsList(b.arrived, b.rcv, r, os);
    ListsSame(b.arrived + DataIn(os), r, r');
    SiftSplits(r, os);
    SplitsJoin(b.arrived, b.accepted, b.shed, DataIn(os), PendingIn(d), Late(r, os));
    SplitsJoin(b.arrived, b.accepted, b.shed, DataIn(os), [], DataIn(os));
    assert b.accepted + [] == b.accepted;
  }

  lemma ArrivesKeeps(b: Inbox, packet: seq<(Record, nat)>, p: Placement)
    requires InboxValid(b) && Happens(b, Arrives(packet, p))
    ensures InboxValid(Happen(b, Arrives(packet, p)))
  {
    var (r, d) := Brought(b, packet);
    BroughtSplits(b, packet);
    if p.At? {
      QueueingBalances(b.delivered, b.queue, b.lost, b.accepted, d, p.i);
      assert b.lost + [] == b.lost;
    } else if p.Over? {
      ReplacingBalances(b.delivered, b.queue, b.lost, b.accepted, d, p.i);
    } else {
      assert b.lost + [] == b.lost;
    }
  }

  lemma FailsKeeps(b: Inbox, packet: seq<(Record, nat)>)
    requires InboxValid(b)
    ensures InboxValid(Happen(b, Fails(packet)))
  {
    OpenAllNew(b.rcv, packet);
    var (r, os) := OpenAll(b.rcv, packet);
    JoinsList(b.arrived, b.rcv, r, os);
    SplitsJoin(b.arrived, b.accepted, b.shed, DataIn(os), [], DataIn(os));
    assert b.accepted + [] == b.accepted && b.lost + [] == b.lost;
  }

  /** An event that brings nothing. */
  predicate Quiet(e: Event) {
    !e.Arrives? && !e.Fails?
  }

  lemma QuietLedger(b: Inbox, e: Event)
    requires Quiet(e) && Happens(b, e)
    ensures Happen(b, e) == Acted(b, e).(lost := b.lost + LostTo(b, e))
    ensures !e.HelloRetry? ==> Happen(b, e) == Acted(b, e)
  {
    assert b.arrived + [] == b.arrived && b.shed + [] == b.shed && b.lost + [] == b.lost;
  }

  lemma PollKeeps(b: Inbox)
    requires InboxValid(b)
    ensures InboxValid(Happen(b, PollAppData))
  {
    QuietLedger(b, PollAppData);
    TakeMoves(b.queue);
    var (taken, rest) := Take(b.queue);
    if b.rcv.released && taken.Some? {
      DeliveryMoves(b.delivered, taken.value, Pending(rest), Pending(b.queue));
    }
  }

  lemma TakeMoves(q: seq<Datagram>)
    ensures var (taken, rest) := Take(q);
            taken.Some? ==> Pending(q) == [taken.value] + Pending(rest)
  {
    TakeTakesFirst(q);
  }

  lemma DeliveryMoves(delivered: seq<Held>, h: Held, after: seq<Held>, before: seq<Held>)
    requires before == [h] + after
    ensures multiset(delivered + [h]) + multiset(after) == multiset(delivered) + multiset(before)
  {
  }

  lemma RetainedStep(done: seq<Datagram>, q: seq<Datagram>)
    requires q != []
    ensures done + Retained(q)
            == (if q[0] != [] && q[0][0].handled then done else done + [q[0]]) + Retained(q[1..])
  {
    assert [] + Retained(q[1..]) == Retained(q[1..]);
    assert done + ([q[0]] + Retained(q[1..])) == (done + [q[0]]) + Retained(q[1..]);
  }

  lemma {:induction false} RetainedSplits(q: seq<Datagram>)
    ensures multiset(Pending(Retained(q))) + multiset(Pending(NotRetained(q))) == multiset(Pending(q))
  {
    if q != [] {
      RetainedSplits(q[1..]);
      var kept, gone := Retained(q[1..]), NotRetained(q[1..]);
      PendingCons(q[0], kept);
      PendingCons(q[0], gone);
      assert [] + kept == kept && [] + gone == gone;
      InFront(PendingIn(q[0]), Pending(q[1..]), Pending(kept), Pending(gone));
    }
  }

  /** More in front of the whole, and of either part. */
  lemma InFront(front: seq<Held>, whole: seq<Held>, part: seq<Held>, rest: seq<Held>)
    requires multiset(part) + multiset(rest) == multiset(whole)
    ensures multiset(front + part) + multiset(rest) == multiset(front + whole)
    ensures multiset(part) + multiset(front + rest) == multiset(front + whole)
  {
  }

  lemma RetryKeeps(b: Inbox)
    requires InboxValid(b)
    ensures InboxValid(Happen(b, HelloRetry))
  {
    QuietLedger(b, HelloRetry);
    RetainedSplits(b.queue);
  }

  lemma {:induction false} HandleLeavesPending(d: Datagram, j: nat)
    requires j < |d| && !d[j].payload.AppData?
    ensures PendingIn(d[j := d[j].(handled := true)]) == PendingIn(d)
    decreases j
  {
    var e := d[j := d[j].(handled := true)];
    if j == 0 {
      assert e[1..] == d[1..];
    } else {
      assert e[1..] == d[1..][j - 1 := d[j].(handled := true)];
      HandleLeavesPending(d[1..], j - 1);
    }
  }

  lemma HandledLeavesPending(q: seq<Datagram>, i: nat, j: nat)
    ensures Pending(Handled(q, i, j)) == Pending(q)
  {
    if i < |q| && j < |q[i]| && q[i][j].payload.HandshakePart? {
      HandleLeavesPending(q[i], j);
      var d := q[i][j := q[i][j].(handled := true)];
      assert Handled(q, i, j) == q[..i] + ([d] + q[i + 1..]);
      assert q == q[..i] + ([q[i]] + q[i + 1..]);
      PendingConcat(q[..i], [d] + q[i + 1..]);
      PendingConcat(q[..i], [q[i]] + q[i + 1..]);
      assert ([d] + q[i + 1..])[1..] == ([q[i]] + q[i + 1..])[1..];
    }
  }

  lemma ChangeKeeps(b: Inbox, op: RecvOp)
    requires InboxValid(b) && Happens(b, Change(op))
    ensures InboxValid(Happen(b, Change(op)))
  {
    QuietLedger(b, Change(op));
    PerformRecvKeeps(b.rcv, op);
    ListsSame(b.arrived, b.rcv, PerformRecv(b.rcv, op));
  }

  lemma PassKeeps(b: Inbox)
    requires InboxValid(b)
    ensures InboxValid(Happen(b, PassMessage))
  {
    QuietLedger(b, PassMessage);
    ListsSame(b.arrived, b.rcv, b.rcv.(peerMsgSeq := b.rcv.peerMsgSeq + 1));
  }

  lemma HappenKeeps(b: Inbox, e: Event)
    requires InboxValid(b) && Happens(b, e)
    ensures InboxValid(Happen(b, e))
  {
    match e
    case Arrives(packet, p) => ArrivesKeeps(b, packet, p);
    case Fails(packet) => FailsKeeps(b, packet);
    case PollAppData => PollKeeps(b);
    case PurgeHandled =>
      QuietLedger(b, e);
      PurgeDropsHandledOnly(b.queue);
    case Handle(i, j) =>
      QuietLedger(b, e);
      HandledLeavesPending(b.queue, i, j);
    case PassMessage => PassKeeps(b);
    case HelloRetry => RetryKeeps(b);
    case Change(op) => ChangeKeeps(b, op);
  }

  lemma {:induction false} HappenAllKeeps(b: Inbox, es: seq<Event>)
    requires InboxValid(b) && HappensAll(b, es)
    ensures InboxValid(HappenAll(b, es))
    decreases |es|
  {
    if es != [] {
      HappenKeeps(b, es[0]);
      HappenAllKeeps(Happen(b, es[0]), es[1..]);
    }
  }

  /** In every run, whatever is inserted, replaced, purged or dropped: the application records
      opened are those accepted and those shed; delivered, still pending and lost together are
      the accepted ones; each has its own epoch and number, so what is shed or lost is never
      delivered; and each was opened under its own. */
  lemma ExactlyOnce(peer: Side, maxQueue: nat, es: seq<Event>)
    requires HappensAll(NewInbox(peer, maxQueue), es)
    ensures var b := HappenAll(NewInbox(peer, maxQueue), es);
            && Lists(b.arrived, b.rcv)
            && multiset(b.arrived) == multiset(b.accepted) + multiset(b.shed)
            && multiset(b.delivered) + multiset(Pending(b.queue)) + multiset(b.lost) == multiset(b.accepted)
            && NumbersDistinct(b.delivered + b.lost + b.shed)
            && forall h :: h in b.delivered ==> OpenedAs(b.rcv, h)
  {
    HappenAllKeeps(NewInbox(peer, maxQueue), es);
    ValidLedger(HappenAll(NewInbox(peer, maxQueue), es));
  }

  lemma ValidLedger(b: Inbox)
    requires InboxValid(b)
    ensures NumbersDistinct(b.delivered + b.lost + b.shed)
    ensures forall h :: h in b.delivered ==> OpenedAs(b.rcv, h)
  {
    var out := b.delivered + b.lost + b.shed;
    assert multiset(out) == multiset(b.delivered) + multiset(b.lost) + multiset(b.shed);
    DistinctPart(b.arrived, out);
    forall h | h in b.delivered
      ensures OpenedAs(b.rcv, h)
    {
      assert h in multiset(b.arrived);
    }
  }

  // ----- When nothing is lost -----

  /** No event of the run drops a datagram with an application record still pending. */
  predicate Spares(b: Inbox, es: seq<Event>)
    requires HappensAll(b, es)
    decreases |es|
  {
    es == [] || (LostTo(b, es[0]) == [] && Spares(Happen(b, es[0]), es[1..]))
  }

  lemma {:induction false} LostGrows(b: Inbox, es: seq<Event>)
    requires HappensAll(b, es)
    ensures b.lost <= HappenAll(b, es).lost
    ensures HappenAll(b, es).lost == b.lost <==> Spares(b, es)
    decreases |es|
  {
    if es != [] {
      LostGrows(Happen(b, es[0]), es[1..]);
      if LostTo(b, es[0]) == [] {
        assert b.lost + [] == b.lost;
      }
    }
  }

  /** Delivered and still pending are all that was accepted exactly when no datagram that was
      replaced, or dropped for a HelloRetryRequest, held a pending application record. */
  lemma LosslessExact(peer: Side, maxQueue: nat, es: seq<Event>)
    requires HappensAll(NewInbox(peer, maxQueue), es)
    ensures var b := HappenAll(NewInbox(peer, maxQueue), es);
            multiset(b.delivered) + multiset(Pending(b.queue)) == multiset(b.accepted)
            <==> Spares(NewInbox(peer, maxQueue), es)
  {
    var b := HappenAll(NewInbox(peer, maxQueue), es);
    HappenAllKeeps(NewInbox(peer, maxQueue), es);
    LostGrows(NewInbox(peer, maxQueue), es);
    var kept := multiset(b.delivered) + multiset(Pending(b.queue));
    NothingLost(kept, b.lost, multiset{});
    assert kept + multiset{} == kept && kept + multiset(b.lost) + multiset{} == kept + multiset(b.lost);
  }

  // ----- When nothing is shed -----

  /** An application record opened from the datagram lies behind the close_notify noted by
      then. */
  predicate TooLate(r: Receiver, os: seq<Opened>, k: nat)
    requires k < |os|
  {
    os[k].payload.AppData? && AfterClose(Sift(r, os[..k]).0, os[k].epoch, os[k].number)
  }

  /** No application record is opened from a datagram that is not queued, or opened behind a
      close_notify. */
  predicate Admits(b: Inbox, e: Event) {
    match e
    case Arrives(packet, p) =>
      var (r, os) := OpenAll(b.rcv, packet);
      if Queues(p) then forall k :: 0 <= k < |os| ==> !TooLate(r, os, k)
      else forall o :: o in os ==> !o.payload.AppData?
    case Fails(packet) => forall o :: o in OpenAll(b.rcv, packet).1 ==> !o.payload.AppData?
    case _ => true
  }

  predicate AdmitsAll(b: Inbox, es: seq<Event>)
    requires HappensAll(b, es)
    decreases |es|
  {
    es == [] || (Admits(b, es[0]) && AdmitsAll(Happen(b, es[0]), es[1..]))
  }

  lemma {:induction false} NoDataIn(os: seq<Opened>)
    ensures DataIn(os) == [] <==> forall o :: o in os ==> !o.payload.AppData?
  {
    if os != [] {
      DataInFirst(os);
      NoDataIn(os[1..]);
      assert forall o :: o in os <==> o == os[0] || o in os[1..];
    }
  }

  lemma {:induction false} NoneLate(r: Receiver, os: seq<Opened>)
    ensures Late(r, os) == [] <==> forall k :: 0 <= k < |os| ==> !TooLate(r, os, k)
    decreases |os|
  {
    if os != [] {
      var r1, rest := Noted(r, os[0]), os[1..];
      NoneLate(r1, rest);
      assert os[..0] == [] && TooLate(r, os, 0)
             == (os[0].payload.AppData? && AfterClose(r, os[0].epoch, os[0].number));
      assert [] + Late(r1, rest) == Late(r1, rest);
      forall k | 0 < k < |os|
        ensures TooLate(r, os, k) == TooLate(r1, rest, k - 1)
      {
        assert os[..k][0] == os[0] && os[..k][1..] == rest[..k - 1];
      }
      if Late(r, os) == [] {
        forall k | 0 <= k < |os|
          ensures !TooLate(r, os, k)
        {
        }
      } else if Late(r1, rest) != [] {
        var j :| 0 <= j < |rest| && TooLate(r1, rest, j);
        assert TooLate(r, os, j + 1);
      } else {
        assert TooLate(r, os, 0);
      }
    }
  }

  lemma ShedNothing(b: Inbox, e: Event)
    ensures ShedBy(b, e) == [] <==> Admits(b, e)
  {
    if e.Arrives? {
      var (r, os) := OpenAll(b.rcv, e.packet);
      NoDataIn(os);
      NoneLate(r, os);
    } else if e.Fails? {
      NoDataIn(OpenAll(b.rcv, e.packet).1);
    }
  }

  lemma {:induction false} ShedGrows(b: Inbox, es: seq<Event>)
    requires HappensAll(b, es)
    ensures b.shed <= HappenAll(b, es).shed
    ensures HappenAll(b, es).shed == b.shed <==> AdmitsAll(b, es)
    decreases |es|
  {
    if es != [] {
      ShedNothing(b, es[0]);
      ShedGrows(Happen(b, es[0]), es[1..]);
      if ShedBy(b, es[0]) == [] {
        assert b.shed + [] == b.shed;
      }
    }
  }

  /** Every application record opened was accepted exactly when none came in a datagram that
      was refused, dropped or failed, or behind a close_notify. */
  lemma ShedExact(peer: Side, maxQueue: nat, es: seq<Event>)
    requires HappensAll(NewInbox(peer, maxQueue), es)
    ensures var b := HappenAll(NewInbox(peer, maxQueue), es);
            multiset(b.accepted) == multiset(b.arrived) <==> AdmitsAll(NewInbox(peer, maxQueue), es)
  {
    var b := HappenAll(NewInbox(peer, maxQueue), es);
    HappenAllKeeps(NewInbox(peer, maxQueue), es);
    ShedGrows(NewInbox(peer, maxQueue), es);
    var kept := multiset(b.accepted);
    NothingLost(kept, b.shed, multiset{});
    assert kept + multiset{} == kept && kept + multiset(b.shed) + multiset{} == kept + multiset(b.shed);
  }

  /** A datagram that leads with a message already read is not queued, whatever follows. */
  lemma LeadReadSheds(b: Inbox, packet: seq<(Record, nat)>, p: Placement)
    requires Happens(b, Arrives(packet, p))
    requires AlreadyRead(Brought(b, packet).0.peerMsgSeq, Brought(b, packet).1)
    ensures var t := Happen(b, Arrives(packet, p));
            && t.queue == b.queue && t.accepted == b.accepted
            && t.shed == b.shed + DataIn(OpenAll(b.rcv, packet).1)
  {
  }

  // ----- A run that loses a record -----

  const FRAGMENT := HandshakePart(Part(Finished, 0, 2, 0, [7]))
  const WHOLE := HandshakePart(Part(Finished, 0, 2, 0, [7, 8]))
  const DATA := AppData([1])

  function FromClient(epoch: nat, number: nat, payload: Payload): Record
    requires epoch >= HANDSHAKE_EPOCH
  {
    Ciphertext(SecretOf(Client, epoch), number, epoch % 4, number % 0x1_0000, payload)
  }

  /** The next number of an epoch whose keys are held opens. */
  lemma NextOpens(r: Receiver, epoch: nat, number: nat, payload: Payload)
    requires ReceiverValid(r) && r.peer == Client && r.peerEncryption && epoch >= HANDSHAKE_EPOCH
    requires Holds(r, epoch) && Unmistaken(r, epoch) && number == ExpectedAt(r, epoch) && ReplayCheck(r, epoch, number)
    ensures var o := Opened(epoch, number, payload);
            && OpenOne(r, FromClient(epoch, number, payload), 0) == (Commit(r, o), [o])
            && ReceiverValid(Commit(r, o))
  {
    NextOpen(r, epoch, number, payload);
    CommitKeeps(r, FromClient(epoch, number, payload), 0);
  }

  lemma NextOpen(r: Receiver, epoch: nat, number: nat, payload: Payload)
    requires ReceiverValid(r) && r.peer == Client && r.peerEncryption && epoch >= HANDSHAKE_EPOCH
    requires Holds(r, epoch) && Unmistaken(r, epoch) && number == ExpectedAt(r, epoch) && ReplayCheck(r, epoch, number)
    ensures Open(r, FromClient(epoch, number, payload), 0) == Some(Opened(epoch, number, payload))
  {
    Pow2Even(FIELD_BITS);
    OpenExact(r, epoch, number, payload, 0);
  }

  /** Two fresh records in one datagram are both kept. */
  lemma BothKept(r: Receiver, first: Opened, second: Opened)
    requires r.closeNotify.None? && first.payload.HandshakePart? && second.payload.AppData?
    ensures Sift(r, [first, second])
            == (r, [AsHeld(first), AsHeld(second)])
  {
    assert [first, second][1..] == [second] && [second][1..] == [];
    assert Noted(r, first) == r && Noted(r, second) == r && Sift(r, []) == (r, []);
    var h1, h2 := AsHeld(first), AsHeld(second);
    assert Kept(r, first) == [h1] && Kept(r, second) == [h2];
    assert Sift(r, [second]) == (r, [h2] + []) && [h2] + [] == [h2];
    assert [h1] + [h2] == [h1, h2];
  }

  lemma OneKept(r: Receiver, o: Opened)
    requires r.closeNotify.None? && o.payload.HandshakePart?
    ensures Sift(r, [o]) == (r, [AsHeld(o)])
  {
    var h := AsHeld(o);
    assert [o][1..] == [] && Noted(r, o) == r && Kept(r, o) == [h] && Sift(r, []) == (r, []);
    assert [h] + [] == [h];
  }

  /** A server's inbox with both epochs' keys. */
  function ReadyInbox(): Inbox {
    var r := NewReceiver(Client, 10).(
      hsSecret := Some(HandshakeTraffic(Client)), slots := [FreshSlot(FIRST_APP_EPOCH, ApplicationTraffic(Client))],
      peerEncryption := true);
    NewInbox(Client, 10).(rcv := r)
  }

  const READYING := [Change(InstallHandshakeSecret), Change(InstallApplicationSecret), Change(EnableEncryption)]

  lemma HappenCons(b: Inbox, e: Event, es: seq<Event>)
    requires Happens(b, e) && HappensAll(Happen(b, e), es)
    ensures HappensAll(b, [e] + es) && HappenAll(b, [e] + es) == HappenAll(Happen(b, e), es)
  {
    assert ([e] + es)[1..] == es;
  }

  lemma Changes(b: Inbox, op: RecvOp)
    requires !op.Arrive?
    ensures Happens(b, Change(op)) && Happen(b, Change(op)) == b.(rcv := PerformRecv(b.rcv, op))
  {
    QuietLedger(b, Change(op));
  }

  lemma GetsReady()
    ensures HappensAll(NewInbox(Client, 10), READYING) && HappenAll(NewInbox(Client, 10), READYING) == ReadyInbox()
    ensures ReceiverValid(ReadyInbox().rcv)
  {
    var b := NewInbox(Client, 10);
    var e1, e2, e3 := READYING[0], READYING[1], READYING[2];
    Changes(b, e1.op);
    var b1 := Happen(b, e1);
    Changes(b1, e2.op);
    var b2 := Happen(b1, e2);
    Changes(b2, e3.op);
    HappenCons(b2, e3, []);
    HappenCons(b1, e2, [e3] + []);
    HappenCons(b, e1, [e2] + ([e3] + []));
    assert READYING == [e1] + ([e2] + ([e3] + []));
    GetsReadyReceiver();
  }

  lemma GetsReadyReceiver()
    ensures var r := NewReceiver(Client, 10);
            PerformRecv(PerformRecv(PerformRecv(r, InstallHandshakeSecret), InstallApplicationSecret), EnableEncryption)
            == ReadyInbox().rcv && ReceiverValid(ReadyInbox().rcv)
  {
    var r := NewReceiver(Client, 10);
    PerformRecvKeeps(r, InstallHandshakeSecret);
    PerformRecvKeeps(PerformRecv(r, InstallHandshakeSecret), InstallApplicationSecret);
    PerformRecvKeeps(PerformRecv(PerformRecv(r, InstallHandshakeSecret), InstallApplicationSecret), EnableEncryption);
  }

  const MIXED := [(FromClient(HANDSHAKE_EPOCH, 0, FRAGMENT), 0), (FromClient(FIRST_APP_EPOCH, 0, DATA), 0)]
  const BETTER := [(FromClient(HANDSHAKE_EPOCH, 1, WHOLE), 0)]

  function MixedReceiver(): Receiver {
    Commit(Commit(ReadyInbox().rcv, Opened(HANDSHAKE_EPOCH, 0, FRAGMENT)), Opened(FIRST_APP_EPOCH, 0, DATA))
  }

  function MixedDatagram(): Datagram {
    [Held(HANDSHAKE_EPOCH, 0, FRAGMENT, false), Held(FIRST_APP_EPOCH, 0, DATA, false)]
  }

  /** A handshake record leaves the application epochs alone. */
  lemma CommitElsewhere(r: Receiver, o: Opened, epoch: nat, number: nat)
    requires o.epoch == HANDSHAKE_EPOCH && epoch != HANDSHAKE_EPOCH
    ensures var t := Commit(r, o);
            && t.peer == r.peer && t.peerEncryption == r.peerEncryption
            && t.hsSecret == r.hsSecret && t.slots == r.slots
            && ExpectedAt(t, epoch) == ExpectedAt(r, epoch) && Holds(t, epoch) == Holds(r, epoch)
            && ReplayCheck(t, epoch, number) == ReplayCheck(r, epoch, number)
  {
  }

  lemma MixedOpens(r: Receiver)
    requires r == ReadyInbox().rcv && ReceiverValid(r)
    ensures ReceiverValid(MixedReceiver())
    ensures OpenAll(r, MIXED)
            == (MixedReceiver(), [Opened(HANDSHAKE_EPOCH, 0, FRAGMENT), Opened(FIRST_APP_EPOCH, 0, DATA)])
  {
    var o1, o2 := Opened(HANDSHAKE_EPOCH, 0, FRAGMENT), Opened(FIRST_APP_EPOCH, 0, DATA);
    NextOpens(r, HANDSHAKE_EPOCH, 0, FRAGMENT);
    var r1 := Commit(r, o1);
    CommitElsewhere(r, o1, FIRST_APP_EPOCH, 0);
    NextOpens(r1, FIRST_APP_EPOCH, 0, DATA);
    BothOpen(r, MIXED[0].0, MIXED[1].0, o1, o2);
  }

  lemma BothOpen(r: Receiver, first: Record, second: Record, o1: Opened, o2: Opened)
    requires OpenOne(r, first, 0) == (Commit(r, o1), [o1])
    requires OpenOne(Commit(r, o1), second, 0) == (Commit(Commit(r, o1), o2), [o2])
    ensures OpenAll(r, [(first, 0), (second, 0)]) == (Commit(Commit(r, o1), o2), [o1, o2])
  {
    OneOpens(Commit(r, o1), second, o2);
    assert [(first, 0), (second, 0)][1..] == [(second, 0)] && [o1] + [o2] == [o1, o2];
  }

  lemma OneOpens(r: Receiver, record: Record, o: Opened)
    requires OpenOne(r, record, 0) == (Commit(r, o), [o])
    ensures OpenAll(r, [(record, 0)]) == (Commit(r, o), [o])
  {
    assert [(record, 0)][1..] == [] && [o] + [] == [o];
  }

  /** What is queued at the front when nothing else is. */
  lemma ArrivesFirst(b: Inbox, packet: seq<(Record, nat)>, r: Receiver, d: Datagram)
    requires b.queue == [] && Brought(b, packet) == (r, d) && d != []
    requires !Refuses([], r.maxQueue, r.peerMsgSeq, r.released, d) && !AlreadyRead(r.peerMsgSeq, d)
    ensures var e := Arrives(packet, At(0));
            && Happens(b, e)
            && var t := Happen(b, e);
               && t.queue == [d] && t.rcv == r && t.lost == b.lost && t.delivered == b.delivered
  {
    assert b.queue[..0] + [d] + b.queue[0..] == [d];
    assert b.lost + [] == b.lost;
  }

  /** A fragment and an application record in one datagram are queued. */
  lemma MixedArrives()
    ensures ReceiverValid(MixedReceiver())
    ensures var b, e := ReadyInbox(), Arrives(MIXED, At(0));
            && Happens(b, e)
            && var t := Happen(b, e);
               t.queue == [MixedDatagram()] && t.rcv == MixedReceiver() && t.lost == [] && t.delivered == []
  {
    GetsReady();
    MixedOpens(ReadyInbox().rcv);
    BothKept(MixedReceiver(), Opened(HANDSHAKE_EPOCH, 0, FRAGMENT), Opened(FIRST_APP_EPOCH, 0, DATA));
    ArrivesFirst(ReadyInbox(), MIXED, MixedReceiver(), MixedDatagram());
  }

  lemma BetterOpens(r: Receiver)
    requires r == MixedReceiver() && ReceiverValid(r)
    ensures var (t, os) := OpenAll(r, BETTER);
            && os == [Opened(HANDSHAKE_EPOCH, 1, WHOLE)] && t.closeNotify.None?
            && t.maxQueue == 10 && t.peerMsgSeq == 0 && !t.released
  {
    var o := Opened(HANDSHAKE_EPOCH, 1, WHOLE);
    NextOpens(r, HANDSHAKE_EPOCH, 1, WHOLE);
    OneOpens(r, BETTER[0].0, o);
  }

  lemma MixedPending()
    ensures PendingIn(MixedDatagram()) == [Held(FIRST_APP_EPOCH, 0, DATA, false)]
  {
    var data := MixedDatagram()[1];
    assert MixedDatagram()[1..] == [data] && [data][1..] == [];
    assert PendingIn([data]) == [data] + PendingIn([]);
  }

  /** What takes the place of the only datagram queued. */
  lemma ArrivesInstead(b: Inbox, packet: seq<(Record, nat)>, r: Receiver, d: Datagram)
    requires |b.queue| == 1 && Brought(b, packet) == (r, d) && d != []
    requires !Refuses(b.queue, r.maxQueue, r.peerMsgSeq, r.released, d) && !AlreadyRead(r.peerMsgSeq, d)
    requires Supersedes(b.queue[0], d)
    ensures var e := Arrives(packet, Over(0));
            && Happens(b, e)
            && var t := Happen(b, e);
               t.queue == [d] && t.lost == b.lost + PendingIn(b.queue[0]) && t.delivered == b.delivered
  {
    assert b.queue[0 := d] == [d];
  }

  /** The whole message, sent again, takes the place of that datagram. */
  lemma BetterArrives(b: Inbox)
    requires b.queue == [MixedDatagram()] && b.rcv == MixedReceiver()
    requires ReceiverValid(b.rcv) && b.lost == [] && b.delivered == []
    ensures var e := Arrives(BETTER, Over(0));
            && Happens(b, e)
            && var t := Happen(b, e);
               t.lost == [Held(FIRST_APP_EPOCH, 0, DATA, false)] && t.delivered == [] && Pending(t.queue) == []
  {
    BetterOpens(b.rcv);
    var (r, os) := OpenAll(b.rcv, BETTER);
    OneKept(r, os[0]);
    var d := [AsHeld(os[0])];
    ArrivesInstead(b, BETTER, r, d);
    SingleDatagram(d);
    MixedPending();
    assert [] + PendingIn(MixedDatagram()) == PendingIn(MixedDatagram());
  }

  const TRADING := [Arrives(MIXED, At(0)), Arrives(BETTER, Over(0))]

  lemma Trades()
    ensures HappensAll(ReadyInbox(), TRADING)
    ensures var t := HappenAll(ReadyInbox(), TRADING);
            t.lost == [Held(FIRST_APP_EPOCH, 0, DATA, false)] && t.delivered == [] && Pending(t.queue) == []
  {
    MixedArrives();
    BetterFollows(Happen(ReadyInbox(), TRADING[0]));
  }

  lemma BetterFollows(mixed: Inbox)
    requires Happens(ReadyInbox(), TRADING[0]) && mixed == Happen(ReadyInbox(), TRADING[0])
    requires mixed.queue == [MixedDatagram()] && mixed.rcv == MixedReceiver()
    requires ReceiverValid(mixed.rcv) && mixed.lost == [] && mixed.delivered == []
    ensures HappensAll(ReadyInbox(), TRADING)
    ensures var t := HappenAll(ReadyInbox(), TRADING);
            t.lost == [Held(FIRST_APP_EPOCH, 0, DATA, false)] && t.delivered == [] && Pending(t.queue) == []
  {
    BetterArrives(mixed);
    TwoHappen(ReadyInbox(), TRADING[0], mixed, TRADING[1], Happen(mixed, TRADING[1]));
    assert [TRADING[0], TRADING[1]] == TRADING;
  }

  lemma TwoHappen(b: Inbox, first: Event, mid: Inbox, second: Event, end: Inbox)
    requires Happens(b, first) && Happen(b, first) == mid && Happens(mid, second) && Happen(mid, second) == end
    ensures HappensAll(b, [first, second]) && HappenAll(b, [first, second]) == end
  {
    OneHappens(mid, second);
    HappenCons(b, first, [second]);
    assert [first] + [second] == [first, second];
  }

  /** From a new inbox: an application record arrives behind a fragment in one datagram, the
      whole message arrives in another, and the record is gone undelivered. */
  lemma ReplacementLoses()
    ensures HappensAll(NewInbox(Client, 10), READYING + TRADING)
    ensures var b := HappenAll(NewInbox(Client, 10), READYING + TRADING);
            b.lost == [Held(FIRST_APP_EPOCH, 0, DATA, false)] && b.delivered == [] && Pending(b.queue) == []
  {
    Trades();
    OnceReady(TRADING);
  }

  lemma {:induction false} HappenAppend(b: Inbox, es: seq<Event>, more: seq<Event>)
    requires HappensAll(b, es) && HappensAll(HappenAll(b, es), more)
    ensures HappensAll(b, es + more) && HappenAll(b, es + more) == HappenAll(HappenAll(b, es), more)
    decreases |es|
  {
    if es == [] {
      assert es + more == more;
    } else {
      HappenAppend(Happen(b, es[0]), es[1..], more);
      HappenOne(b, es, more);
    }
  }

  lemma HappenOne(b: Inbox, es: seq<Event>, more: seq<Event>)
    requires es != [] && Happens(b, es[0]) && HappensAll(Happen(b, es[0]), es[1..] + more)
    ensures HappensAll(b, es + more) && HappenAll(b, es + more) == HappenAll(Happen(b, es[0]), es[1..] + more)
  {
    assert (es + more)[1..] == es[1..] + more;
  }

  // ----- A run that sheds a record -----

  const UPDATE := HandshakePart(Part(KeyUpdate, 0, 1, 0, [0]))
  const UPDATED := FIRST_APP_EPOCH + 1

  /** A KeyUpdate, and the same sent again with application data under the next keys. */
  const ONCE := [(FromClient(FIRST_APP_EPOCH, 0, UPDATE), 0)]
  const AGAIN := [(FromClient(FIRST_APP_EPOCH, 1, UPDATE), 0), (FromClient(UPDATED, 0, DATA), 0)]

  /** The receiver once it has read the KeyUpdate and rotated. */
  function UpdatedReceiver(): Receiver {
    UpdateRecvKeys(Commit(ReadyInbox().rcv, Opened(FIRST_APP_EPOCH, 0, UPDATE))).(peerMsgSeq := 1)
  }

  lemma OnceOpens()
    ensures ReceiverValid(Commit(ReadyInbox().rcv, Opened(FIRST_APP_EPOCH, 0, UPDATE)))
    ensures OpenAll(ReadyInbox().rcv, ONCE)
            == (Commit(ReadyInbox().rcv, Opened(FIRST_APP_EPOCH, 0, UPDATE)), [Opened(FIRST_APP_EPOCH, 0, UPDATE)])
  {
    GetsReadyReceiver();
    NextOpens(ReadyInbox().rcv, FIRST_APP_EPOCH, 0, UPDATE);
    OneOpens(ReadyInbox().rcv, ONCE[0].0, Opened(FIRST_APP_EPOCH, 0, UPDATE));
  }

  lemma CommitsIn(r: Receiver, o: Opened)
    requires o.epoch == FIRST_APP_EPOCH && r.slots != [] && r.slots[0].epoch == FIRST_APP_EPOCH
    ensures var s := r.slots[0];
            Commit(r, o).slots
            == [s.(replay := s.replay.Record(o.number), expected := Later(s.expected, o.number))] + r.slots[1..]
  {
    assert Find(r.slots, FIRST_APP_EPOCH) == 0;
  }

  lemma UpdatedSlots()
    ensures ReceiverValid(UpdatedReceiver())
    ensures UpdatedReceiver().slots
            == [Slot(FIRST_APP_EPOCH, ApplicationTraffic(Client), 1, NOTHING_SEEN.Record(0)),
                FreshSlot(UPDATED, NextTraffic(ApplicationTraffic(Client)))]
  {
    var r1 := Commit(ReadyInbox().rcv, Opened(FIRST_APP_EPOCH, 0, UPDATE));
    OnceOpens();
    CommitsIn(ReadyInbox().rcv, Opened(FIRST_APP_EPOCH, 0, UPDATE));
    UpdateRecvKeysKeeps(r1);
    RotatesOne(r1, Slot(FIRST_APP_EPOCH, ApplicationTraffic(Client), 1, NOTHING_SEEN.Record(0)));
  }

  lemma RotatesOne(r: Receiver, slot: Slot)
    requires r.slots == [slot] && slot.epoch == FIRST_APP_EPOCH
    ensures UpdateRecvKeys(r).slots == [slot, FreshSlot(UPDATED, NextTraffic(slot.secret))]
  {
    assert [slot] + [FreshSlot(UPDATED, NextTraffic(slot.secret))]
        == [slot, FreshSlot(UPDATED, NextTraffic(slot.secret))];
  }

  /** The receiver once it has opened the KeyUpdate a second time. */
  function AgainReceiver(): Receiver {
    Commit(UpdatedReceiver(), Opened(FIRST_APP_EPOCH, 1, UPDATE))
  }

  lemma UpdateOpensAgain()
    ensures ReceiverValid(AgainReceiver())
    ensures OpenOne(UpdatedReceiver(), AGAIN[0].0, 0) == (AgainReceiver(), [Opened(FIRST_APP_EPOCH, 1, UPDATE)])
    ensures AgainReceiver().slots
            == [Slot(FIRST_APP_EPOCH, ApplicationTraffic(Client), 2, NOTHING_SEEN.Record(0).Record(1)),
                FreshSlot(UPDATED, NextTraffic(ApplicationTraffic(Client)))]
  {
    var r := UpdatedReceiver();
    UpdatedSlots();
    assert Find(r.slots, FIRST_APP_EPOCH) == 0;
    NextOpens(r, FIRST_APP_EPOCH, 1, UPDATE);
    CommitsIn(r, Opened(FIRST_APP_EPOCH, 1, UPDATE));
  }

  lemma DataOpens()
    ensures OpenOne(AgainReceiver(), AGAIN[1].0, 0)
            == (Commit(AgainReceiver(), Opened(UPDATED, 0, DATA)), [Opened(UPDATED, 0, DATA)])
  {
    var r := AgainReceiver();
    UpdateOpensAgain();
    assert r.slots[1..][0] == r.slots[1] && Find(r.slots[1..], UPDATED) == 0;
    assert Find(r.slots, UPDATED) == 1;
    NextOpens(r, UPDATED, 0, DATA);
  }

  /** Both records of the second datagram are opened. */
  lemma AgainOpens()
    ensures OpenAll(UpdatedReceiver(), AGAIN).1
            == [Opened(FIRST_APP_EPOCH, 1, UPDATE), Opened(UPDATED, 0, DATA)]
    ensures var r := OpenAll(UpdatedReceiver(), AGAIN).0; r.closeNotify.None? && r.peerMsgSeq == 1
  {
    UpdateOpensAgain();
    DataOpens();
    BothOpen(UpdatedReceiver(), AGAIN[0].0, AGAIN[1].0, Opened(FIRST_APP_EPOCH, 1, UPDATE), Opened(UPDATED, 0, DATA));
  }

  lemma {:induction false} NothingPends(r: Receiver, o: Opened)
    requires o.payload.HandshakePart?
    ensures DataIn([o]) == [] && Late(r, [o]) == [] && PendingIn([AsHeld(o)]) == []
  {
    var none: seq<Held> := [];
    assert [o][1..] == [] && [AsHeld(o)][1..] == [] && none + none == none;
    assert DataIn([]) == none && Late(Noted(r, o), []) == none && PendingIn([]) == none;
    assert !Pends(AsHeld(o));
  }

  /** A single handshake record is queued by itself. */
  lemma {:induction false} ArrivesAlone(b: Inbox, packet: seq<(Record, nat)>, r: Receiver, o: Opened)
    requires b.queue == [] && OpenAll(b.rcv, packet) == (r, [o]) && o.payload.HandshakePart? && r.closeNotify.None?
    requires r.maxQueue > 0 && !r.released && r.peerMsgSeq == o.payload.part.seqNo
    ensures var e := Arrives(packet, At(0));
            Happens(b, e) && Happen(b, e) == b.(rcv := r, queue := [[AsHeld(o)]])
  {
    OneKept(r, o);
    assert [o][1..] == [] && [AsHeld(o)][1..] == [];
    assert Brought(b, packet) == (r, [AsHeld(o)]);
    assert [][..0] + [[AsHeld(o)]] + [][0..] == [[AsHeld(o)]];
    NothingPends(r, o);
    assert b.arrived + [] == b.arrived && b.shed + [] == b.shed && b.lost + [] == b.lost;
    assert b.accepted + [] == b.accepted;
  }

  /** The inbox once the KeyUpdate is queued. */
  function OnceInbox(): Inbox {
    var o := Opened(FIRST_APP_EPOCH, 0, UPDATE);
    ReadyInbox().(rcv := Commit(ReadyInbox().rcv, o), queue := [[AsHeld(o)]])
  }

  lemma OnceArrives()
    ensures Happens(ReadyInbox(), READING[0]) && Happen(ReadyInbox(), READING[0]) == OnceInbox()
  {
    OnceOpens();
    ArrivesAlone(ReadyInbox(), ONCE, OnceInbox().rcv, Opened(FIRST_APP_EPOCH, 0, UPDATE));
  }

  /** The inbox once the KeyUpdate has been read. */
  function UpdatedInbox(): Inbox {
    ReadyInbox().(rcv := UpdatedReceiver(), queue := [[AsHeld(Opened(FIRST_APP_EPOCH, 0, UPDATE)).(handled := true)]])
  }

  const READING := [Arrives(ONCE, At(0)), Change(Rotate), Handle(0, 0), PassMessage]

  lemma OnceRead()
    ensures HappensAll(OnceInbox(), READING[1..]) && HappenAll(OnceInbox(), READING[1..]) == UpdatedInbox()
  {
    var b1 := OnceInbox();
    Changes(b1, Rotate);
    var b2 := Happen(b1, READING[1]);
    QuietLedger(b2, READING[2]);
    var b3 := b2.(queue := UpdatedInbox().queue);
    assert Handled(b2.queue, 0, 0) == b3.queue by {
      var h := b2.queue[0][0];
      assert [h][0 := h.(handled := true)] == [h.(handled := true)];
      assert b2.queue[0 := b2.queue[0][0 := h.(handled := true)]] == b3.queue;
    }
    assert Happen(b2, READING[2]) == b3;
    QuietLedger(b3, READING[3]);
    assert Happen(b3, READING[3]) == UpdatedInbox();
    HappenCons(b3, READING[3], []);
    HappenCons(b2, READING[2], [READING[3]] + []);
    HappenCons(b1, READING[1], [READING[2]] + ([READING[3]] + []));
    assert READING[1..] == [READING[1]] + ([READING[2]] + ([READING[3]] + []));
  }

  lemma ReadsOnce()
    ensures HappensAll(ReadyInbox(), READING) && HappenAll(ReadyInbox(), READING) == UpdatedInbox()
  {
    OnceArrives();
    OnceRead();
    HappenCons(ReadyInbox(), READING[0], READING[1..]);
    assert [READING[0]] + READING[1..] == READING;
  }

  /** The second datagram is dropped for the KeyUpdate it leads with. */
  lemma AgainArrives()
    ensures var b, e := UpdatedInbox(), Arrives(AGAIN, Dropped);
            && Happens(b, e)
            && var t := Happen(b, e);
               && t.shed == [AsHeld(Opened(UPDATED, 0, DATA))] && t.accepted == [] && t.delivered == []
               && Pending(t.queue) == []
  {
    var b, o2 := UpdatedInbox(), Opened(UPDATED, 0, DATA);
    AgainOpens();
    var (r, os) := OpenAll(b.rcv, AGAIN);
    assert os[1..] == [o2] && [o2][1..] == [];
    assert DataIn([o2]) == [AsHeld(o2)] + DataIn([]);
    BothKept(r, os[0], os[1]);
    LeadReadSheds(b, AGAIN, Dropped);
    SingleDatagram(b.queue[0]);
    assert b.queue[0][1..] == [];
  }

  /** From a new inbox: a KeyUpdate is read; sent again, because its ACK was lost, it shares a
      datagram with application data; and the data is gone, accepted by none. */
  lemma ResentUpdateSheds()
    ensures var es := READYING + (READING + [Arrives(AGAIN, Dropped)]);
            && HappensAll(NewInbox(Client, 10), es)
            && var b := HappenAll(NewInbox(Client, 10), es);
               b.shed == [AsHeld(Opened(UPDATED, 0, DATA))] && b.accepted == [] && b.delivered == []
  {
    ReadsThenSheds();
    OnceReady(READING + [Arrives(AGAIN, Dropped)]);
  }

  lemma OnceReady(es: seq<Event>)
    requires HappensAll(ReadyInbox(), es)
    ensures HappensAll(NewInbox(Client, 10), READYING + es)
    ensures HappenAll(NewInbox(Client, 10), READYING + es) == HappenAll(ReadyInbox(), es)
  {
    GetsReady();
    HappenAppend(NewInbox(Client, 10), READYING, es);
  }

  lemma ReadsThenSheds()
    ensures var es := READING + [Arrives(AGAIN, Dropped)];
            && HappensAll(ReadyInbox(), es)
            && var b := HappenAll(ReadyInbox(), es);
               b.shed == [AsHeld(Opened(UPDATED, 0, DATA))] && b.accepted == [] && b.delivered == []
  {
    ReadsOnce();
    AgainArrives();
    OneHappens(UpdatedInbox(), Arrives(AGAIN, Dropped));
    HappenAppend(ReadyInbox(), READING, [Arrives(AGAIN, Dropped)]);
  }

  lemma OneHappens(b: Inbox, e: Event)
    requires Happens(b, e)
    ensures HappensAll(b, [e]) && HappenAll(b, [e]) == Happen(b, e)
  {
    HappenCons(b, e, []);
    assert [e] + [] == [e];
  }

  // ----- After a close_notify -----

  lemma {:induction false} OpeningKeepsMark(r: Receiver, packet: seq<(Record, nat)>)
    ensures OpenAll(r, packet).0.closeNotify == r.closeNotify
    decreases |packet|
  {
    if packet != [] {
      OpeningKeepsMark(OpenOne(r, packet[0].0, packet[0].1).0, packet[1..]);
    }
  }

  lemma {:induction false} SiftingStops(r: Receiver, os: seq<Opened>)
    requires r.closeNotify.Some?
    ensures Sift(r, os).0.closeNotify == r.closeNotify
    ensures forall h :: h in PendingIn(Sift(r, os).1) ==> !AfterClose(r, h.epoch, h.number)
    decreases |os|
  {
    if os != [] {
      SiftingStops(Noted(r, os[0]), os[1..]);
      PendingInConcat(Kept(r, os[0]), Sift(Noted(r, os[0]), os[1..]).1);
      KeptIsOpened(r, os[0]);
    }
  }

  lemma OpsKeepMark(r: Receiver, op: RecvOp)
    requires !op.Arrive?
    ensures PerformRecv(r, op).closeNotify == r.closeNotify
  {
  }

  lemma HappeningStops(b: Inbox, e: Event)
    requires b.rcv.closeNotify.Some? && Happens(b, e)
    ensures var t := Happen(b, e);
            && t.rcv.closeNotify == b.rcv.closeNotify && b.accepted <= t.accepted
            && forall i :: |b.accepted| <= i < |t.accepted| ==>
                 !AfterClose(b.rcv, t.accepted[i].epoch, t.accepted[i].number)
  {
    match e
    case Arrives(packet, p) =>
      OpeningKeepsMark(b.rcv, packet);
      var (r, os) := OpenAll(b.rcv, packet);
      SiftingStops(r, os);
      var t := Happen(b, e);
      forall i | |b.accepted| <= i < |t.accepted|
        ensures !AfterClose(b.rcv, t.accepted[i].epoch, t.accepted[i].number)
      {
        assert t.accepted[i] in PendingIn(Sift(r, os).1);
      }
    case Fails(packet) => OpeningKeepsMark(b.rcv, packet);
    case Change(op) => OpsKeepMark(b.rcv, op);
    case _ =>
  }

  /** Once a close_notify has been noted, sealed or in the clear, it stays noted, and no
      application record numbered after it is ever accepted. */
  lemma {:induction false} CloseEndsAcceptance(b: Inbox, es: seq<Event>)
    requires b.rcv.closeNotify.Some? && HappensAll(b, es)
    ensures var t := HappenAll(b, es);
            && t.rcv.closeNotify == b.rcv.closeNotify && b.accepted <= t.accepted
            && forall i :: |b.accepted| <= i < |t.accepted| ==>
                 !AfterClose(b.rcv, t.accepted[i].epoch, t.accepted[i].number)
    decreases |es|
  {
    if es != [] {
      HappeningStops(b, es[0]);
      var m, t := Happen(b, es[0]), HappenAll(b, es);
      CloseEndsAcceptance(m, es[1..]);
      forall i | |b.accepted| <= i < |t.accepted|
        ensures !AfterClose(b.rcv, t.accepted[i].epoch, t.accepted[i].number)
      {
        if i < |m.accepted| {
          assert t.accepted[i] == m.accepted[i];
        }
      }
    }
  }

  /** A sequence drawn from one with distinct numbers has distinct numbers. */
  lemma DistinctPart(all: seq<Held>, part: seq<Held>)
    requires NumbersDistinct(all) && multiset(part) <= multiset(all)
    ensures NumbersDistinct(part)
  {
    forall i, j | 0 <= i < j < |part|
      ensures !SameNumber(part[i], part[j])
    {
      if SameNumber(part[i], part[j]) {
        assert part[i] in multiset(all) && part[j] in multiset(all);
        var k :| 0 <= k < |all| && all[k] == part[i];
        var l :| 0 <= l < |all| && all[l] == part[j];
        assert k == l;
        TwicePresent(part, i, j);
        OnceOnly(all, k);
      }
    }
  }

  lemma TwicePresent(s: seq<Held>, i: nat, j: nat)
    requires i < j < |s| && s[i] == s[j]
    ensures multiset(s)[s[i]] >= 2
  {
    assert s == s[..j] + [s[j]] + s[j + 1..];
    assert s[i] in s[..j];
  }

  lemma OnceOnly(s: seq<Held>, k: nat)
    requires k < |s| && NumbersDistinct(s)
    ensures multiset(s)[s[k]] == 1
  {
    assert s == s[..k] + [s[k]] + s[k + 1..];
    assert s[k] !in s[..k] && s[k] !in s[k + 1..];
  }

  lemma FirstPendingIs(d: Datagram, j: nat)
    requires j <= |d| && (forall k :: 0 <= k < j ==> !Pends(d[k])) && (j < |d| ==> Pends(d[j]))
    ensures FirstPending(d) == j
  {
  }

  /** Looking from datagram `i` on, with nothing pending before it. */
  lemma TakeAt(q: seq<Datagram>, i: nat)
    requires i < |q|
    ensures FirstPending(q[i]) < |q[i]| ==>
              && Take(q[i..]).0 == Some(q[i][FirstPending(q[i])])
              && q[..i] + Take(q[i..]).1 == q[i := Marked(q[i])]
    ensures FirstPending(q[i]) == |q[i]| ==>
              && Take(q[i..]).0 == Take(q[i + 1..]).0
              && q[..i] + Take(q[i..]).1 == q[..i + 1] + Take(q[i + 1..]).1
  {
    assert q[i..][0] == q[i] && q[i..][1..] == q[i + 1..];
    if FirstPending(q[i]) < |q[i]| {
      assert q[..i] + ([Marked(q[i])] + q[i + 1..]) == q[i := Marked(q[i])];
    } else {
      assert q[..i] + ([q[i]] + Take(q[i + 1..]).1) == q[..i + 1] + Take(q[i + 1..]).1;
    }
  }

  // ----- The queue as the engine holds it -----

  class DeliveryQueue {
    const maxQueueRx: nat
    var queueRx: seq<Datagram>
    var peerHandshakeSeqNo: nat
    var releaseAppData: bool

    constructor (maxQueueRx: nat)
      ensures queueRx == [] && peerHandshakeSeqNo == 0 && !releaseAppData && this.maxQueueRx == maxQueueRx
    {
      this.maxQueueRx := maxQueueRx;
      queueRx := [];
      peerHandshakeSeqNo := 0;
      releaseAppData := false;
    }

    /** The datagram is refused exactly in the two error cases, and otherwise takes one of
        the placements open to it: in a queue that is in order, the one that keeps it so. */
    method InsertIncoming(incoming: Datagram) returns (p: Placement)
      requires incoming != [] && NoneEmpty(queueRx)
      requires LeadsWithPart(incoming) ==> incoming[0].payload.part.offset <= MAX_OFFSET
      modifies this`queueRx
      ensures MayTake(old(queueRx), maxQueueRx, peerHandshakeSeqNo, releaseAppData, incoming, p)
      ensures queueRx == Placed(old(queueRx), incoming, p)
      ensures p.Refused? <==> Refuses(old(queueRx), maxQueueRx, peerHandshakeSeqNo, releaseAppData, incoming)
      ensures !p.Refused? && !LeadsWithPart(incoming) ==>
                && (p.Dropped? ==> Led(old(queueRx), Lead(incoming)))
                && (Ascending(old(queueRx)) ==> Orderly(old(queueRx), incoming, p))
      ensures !p.Refused? && LeadsWithPart(incoming) && !AlreadyRead(peerHandshakeSeqNo, incoming) ==>
                (p.Dropped? ==>
                   exists d :: d in queueRx && PositionOf(d) == PositionOf(incoming) && !Supersedes(d, incoming))
      ensures LeadsWithPart(incoming) && incoming[0].payload.part.seqNo <= MAX_SEQ_NO && PartsFirst(old(queueRx)) ==>
                PartsFirst(queueRx) && (p.At? ==> !PartAt(old(queueRx), PositionOf(incoming)))
    {
      if |queueRx| >= maxQueueRx {
        return Refused;
      }
      if incoming[0].payload.HandshakePart? {
        p := InsertIncomingHandshake(incoming);
      } else {
        p := InsertIncomingNonHandshake(incoming);
      }
    }

    /** Binary search by handshake position; what has the position already is replaced if the
        datagram supersedes it, and kept otherwise. */
    method InsertIncomingHandshake(incoming: Datagram) returns (p: Placement)
      requires LeadsWithPart(incoming) && incoming[0].payload.part.offset <= MAX_OFFSET && |queueRx| < maxQueueRx
      modifies this`queueRx
      ensures MayTake(old(queueRx), maxQueueRx, peerHandshakeSeqNo, releaseAppData, incoming, p)
      ensures queueRx == Placed(old(queueRx), incoming, p)
      ensures p.Refused? <==> Refuses(old(queueRx), maxQueueRx, peerHandshakeSeqNo, releaseAppData, incoming)
      ensures p.Dropped? && !AlreadyRead(peerHandshakeSeqNo, incoming) ==>
                exists d :: d in queueRx && PositionOf(d) == PositionOf(incoming) && !Supersedes(d, incoming)
      ensures incoming[0].payload.part.seqNo <= MAX_SEQ_NO && PartsFirst(old(queueRx)) ==>
                PartsFirst(queueRx) && (p.At? ==> !PartAt(old(queueRx), PositionOf(incoming)))
    {
      var part := incoming[0].payload.part;
      if part.seqNo < peerHandshakeSeqNo {
        return Dropped;
      }
      if releaseAppData && part.seqNo >= peerHandshakeSeqNo && part.msgType != KeyUpdate {
        return Refused;
      }
      ghost var sorted := part.seqNo <= MAX_SEQ_NO && PartsFirst(queueRx);
      var low, high := 0, |queueRx|;
      while low < high
        invariant low <= high <= |queueRx| && queueRx == old(queueRx)
        invariant sorted ==> forall k :: 0 <= k < low ==>
          LeadsWithPart(queueRx[k]) && Less(PositionOf(queueRx[k]), PositionOf(incoming))
        invariant sorted ==> forall k :: high <= k < |queueRx| ==> Less(PositionOf(incoming), PositionOf(queueRx[k]))
      {
        var mid := (low + high) / 2;
        var other := PositionOf(queueRx[mid]);
        if other == PositionOf(incoming) {
          var existing := queueRx[mid][0];
          if existing.handled || (!existing.payload.part.Whole() && part.Whole()) {
            if sorted {
              PartsFirstReplaced(queueRx, mid, incoming);
            }
            queueRx := queueRx[mid := incoming];
            return Over(mid);
          }
          assert queueRx[mid] in queueRx && !Supersedes(queueRx[mid], incoming);
          return Dropped;
        }
        if Less(other, PositionOf(incoming)) {
          low := mid + 1;
        } else {
          high := mid;
        }
      }
      if sorted {
        PartsFirstAfter(queueRx, low, incoming);
      }
      queueRx := queueRx[..low] + [incoming] + queueRx[low..];
      return At(low);
    }

    /** Binary search by the number of each datagram's first record.  In a queue that is
        ascending by these the datagram goes where it belongs.  The queue may also hold
        datagrams sorted by handshake position; then a match is a match, and otherwise the
        datagram goes in somewhere, once. */
    method InsertIncomingNonHandshake(incoming: Datagram) returns (p: Placement)
      requires incoming != [] && NoneEmpty(queueRx)
      requires !LeadsWithPart(incoming) && |queueRx| < maxQueueRx
      modifies this`queueRx
      ensures MayTake(old(queueRx), maxQueueRx, peerHandshakeSeqNo, releaseAppData, incoming, p)
      ensures queueRx == Placed(old(queueRx), incoming, p) && (p.At? || p.Dropped?)
      ensures p.Dropped? ==> Led(old(queueRx), Lead(incoming))
      ensures Ascending(old(queueRx)) ==> Orderly(old(queueRx), incoming, p)
    {
      ghost var sorted := Ascending(queueRx);
      var low, high := 0, |queueRx|;
      while low < high
        invariant low <= high <= |queueRx| && queueRx == old(queueRx)
        invariant sorted ==> forall k :: 0 <= k < low ==> Less(Lead(queueRx[k]), Lead(incoming))
        invariant sorted ==> forall k :: high <= k < |queueRx| ==> Less(Lead(incoming), Lead(queueRx[k]))
      {
        var mid := (low + high) / 2;
        var first := queueRx[mid][0];
        if SameNumber(first, incoming[0]) {
          return Dropped;
        }
        if Less((first.epoch, first.number), (incoming[0].epoch, incoming[0].number)) {
          low := mid + 1;
        } else {
          high := mid;
        }
      }
      if sorted {
        AscendingAfter(queueRx, low, incoming);
      }
      queueRx := queueRx[..low] + [incoming] + queueRx[low..];
      return At(low);
    }

    /** A HelloRetryRequest drops the datagrams whose first record is consumed. */
    method ResetForHelloRetry()
      modifies this`queueRx
      ensures queueRx == Retained(old(queueRx))
    {
      var retained: seq<Datagram> := [];
      var i := 0;
      assert queueRx[0..] == queueRx;
      while i < |queueRx|
        invariant i <= |queueRx| && queueRx == old(queueRx)
        invariant retained + Retained(queueRx[i..]) == Retained(queueRx)
      {
        var item := queueRx[i];
        assert queueRx[i..][0] == item && queueRx[i..][1..] == queueRx[i + 1..];
        RetainedStep(retained, queueRx[i..]);
        if !(item != [] && item[0].handled) {
          retained := retained + [item];
        }
        i := i + 1;
      }
      queueRx := retained;
    }

    method PollAppData() returns (taken: Option<Held>)
      modifies this`queueRx
      ensures (taken, queueRx) == if releaseAppData then Take(old(queueRx)) else (None, old(queueRx))
    {
      if !releaseAppData {
        return None;
      }
      var i := 0;
      assert queueRx[0..] == queueRx && [] + Take(queueRx).1 == Take(queueRx).1;
      while i < |queueRx|
        invariant i <= |queueRx| && queueRx == old(queueRx)
        invariant Take(queueRx) == (Take(queueRx[i..]).0, queueRx[..i] + Take(queueRx[i..]).1)
      {
        var d := queueRx[i];
        var j := 0;
        while j < |d| && !(d[j].payload.AppData? && !d[j].handled)
          invariant j <= |d|
          invariant forall k :: 0 <= k < j ==> !Pends(d[k])
        {
          j := j + 1;
        }
        FirstPendingIs(d, j);
        TakeAt(queueRx, i);
        if j < |d| {
          queueRx := queueRx[i := d[j := d[j].(handled := true)]];
          return Some(d[j]);
        }
        i := i + 1;
      }
      assert queueRx[i..] == [] && queueRx[..i] + [] == queueRx;
      return None;
    }

    method PurgeHandledQueueRx()
      modifies this`queueRx
      ensures queueRx == Purge(old(queueRx))
    {
      while queueRx != []
        invariant Purge(queueRx) == Purge(old(queueRx))
        decreases |queueRx|
      {
        var peek := queueRx[0];
        var k := 0;
        while k < |peek| && peek[k].handled
          invariant k <= |peek|
          invariant forall m :: 0 <= m < k ==> peek[m].handled
        {
          k := k + 1;
        }
        if k < |peek| {
          break;
        }
        queueRx := queueRx[1..];
      }
    }
  }
}
