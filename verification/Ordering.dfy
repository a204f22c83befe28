/** The order in which application data is handed out: by epoch and number, whatever the order
    of arrival, as long as nothing but application data is queued. */
module Ordering {
  import opened Handshakes
  import opened RecordNumbers
  import opened Records
  import opened ReceiveSide
  import opened Delivery

  function NumberOf(h: Held): (nat, nat) {
    (h.epoch, h.number)
  }

  predicate Earlier(h: Held, g: Held) {
    Less(NumberOf(h), NumberOf(g))
  }

  /** Strictly ascending by epoch and number. */
  predicate Rising(hs: seq<Held>) {
    forall i, j :: 0 <= i < j < |hs| ==> Earlier(hs[i], hs[j])
  }

  predicate Before(d: Datagram, e: Datagram) {
    forall i, j :: 0 <= i < |d| && 0 <= j < |e| ==> Earlier(d[i], e[j])
  }

  /** No record of one lies between two of the other, as of stretches of one sender's log. */
  predicate Apart(d: Datagram, e: Datagram) {
    Before(d, e) || Before(e, d)
  }

  /** The whole queue in order: within its datagrams and from one to the next. */
  predicate Sequential(q: seq<Datagram>) {
    && NoneEmpty(q)
    && (forall i :: 0 <= i < |q| ==> Rising(q[i]))
    && forall i, j :: 0 <= i < j < |q| ==> Before(q[i], q[j])
  }

  lemma SequentialAscends(q: seq<Datagram>)
    requires Sequential(q)
    ensures Ascending(q)
  {
    forall i, j | 0 <= i < j < |q|
      ensures Less(Lead(q[i]), Lead(q[j]))
    {
      assert Before(q[i], q[j]) && Earlier(q[i][0], q[j][0]);
    }
  }

  /** A datagram in its place keeps the queue in order. */
  lemma PlacedInOrder(q: seq<Datagram>, i: nat, d: Datagram)
    requires Sequential(q) && i <= |q| && d != [] && Rising(d)
    requires forall k :: 0 <= k < |q| ==> Apart(d, q[k])
    requires Ascending(q[..i] + [d] + q[i..])
    ensures Sequential(q[..i] + [d] + q[i..])
  {
    var r := q[..i] + [d] + q[i..];
    assert r[i] == d && forall k :: 0 <= k < |q| ==> q[k] == r[if k < i then k else k + 1];
    forall a | 0 <= a < |r|
      ensures Rising(r[a])
    {
      if a != i {
        assert r[a] == q[if a < i then a else a - 1];
      }
    }
    forall a, b | 0 <= a < b < |r|
      ensures Before(r[a], r[b])
    {
      var k, l := if a < i then a else a - 1, if b < i then b else b - 1;
      assert Less(Lead(r[a]), Lead(r[b]));
      if a != i && b != i {
        assert Before(q[k], q[l]);
      } else {
        assert Apart(d, q[if a == i then l else k]);
        assert Earlier(r[a][0], r[b][0]);
      }
    }
  }

  // ----- What is pending, in order -----

  lemma {:induction false} PendingInAre(d: Datagram)
    requires Rising(d)
    ensures Rising(PendingIn(d)) && forall h :: h in PendingIn(d) ==> h in d
  {
    if d != [] {
      assert Rising(d[1..]);
      PendingInAre(d[1..]);
      PendingInFirst(d);
      forall h | h in PendingIn(d[1..])
        ensures h in d && Earlier(d[0], h)
      {
        var j :| 0 <= j < |d[1..]| && d[1..][j] == h;
        assert d[j + 1] == h;
      }
    }
  }

  lemma {:induction false} PendingAre(q: seq<Datagram>)
    requires Sequential(q)
    ensures Rising(Pending(q))
    ensures forall h :: h in Pending(q) ==> exists i :: 0 <= i < |q| && h in q[i]
  {
    if q != [] {
      PendingInAre(q[0]);
      PendingAre(q[1..]);
      forall h | h in Pending(q[1..])
        ensures exists i :: 0 < i < |q| && h in q[i]
      {
        var i :| 0 <= i < |q[1..]| && h in q[1..][i];
        assert q[i + 1] == q[1..][i];
      }
      forall g, h | g in PendingIn(q[0]) && h in Pending(q[1..])
        ensures Earlier(g, h)
      {
        var i :| 0 < i < |q| && h in q[i];
        assert Before(q[0], q[i]);
      }
      JoinedRise(PendingIn(q[0]), Pending(q[1..]));
    }
  }

  lemma JoinedRise(a: seq<Held>, b: seq<Held>)
    requires Rising(a) && Rising(b) && forall g, h :: g in a && h in b ==> Earlier(g, h)
    ensures Rising(a + b)
  {
  }

  /** The first pending record of such a queue is the earliest. */
  lemma TakesEarliest(q: seq<Datagram>)
    requires Sequential(q) && Pending(q) != []
    ensures var (taken, rest) := Take(q);
            && taken.Some? && taken.value in Pending(q)
            && forall h :: h in Pending(rest) ==> Earlier(taken.value, h)
  {
    PendingAre(q);
    TakeTakesFirst(q);
  }

  // ----- Steps -----

  lemma MarkedKeeps(q: seq<Datagram>)
    requires Sequential(q)
    ensures Sequential(Take(q).1)
    ensures |Take(q).1| == |q| && forall i :: 0 <= i < |q| ==> SameRecords(q[i], Take(q).1[i])
  {
    TakeSame(q);
    SameSequential(q, Take(q).1);
  }

  /** The same records, whatever has become of them. */
  predicate SameRecords(d: Datagram, e: Datagram) {
    |d| == |e| && forall i :: 0 <= i < |d| ==> NumberOf(d[i]) == NumberOf(e[i]) && d[i].payload == e[i].payload
  }

  lemma {:induction false} TakeSame(q: seq<Datagram>)
    ensures |Take(q).1| == |q| && forall i :: 0 <= i < |q| ==> SameRecords(q[i], Take(q).1[i])
  {
    if q != [] && FirstPending(q[0]) == |q[0]| {
      TakeSame(q[1..]);
      forall i | 0 < i < |q|
        ensures SameRecords(q[i], Take(q).1[i])
      {
        assert q[i] == q[1..][i - 1] && Take(q).1[i] == Take(q[1..]).1[i - 1];
      }
    }
  }

  lemma SameSequential(q: seq<Datagram>, r: seq<Datagram>)
    requires Sequential(q) && |r| == |q| && forall i :: 0 <= i < |q| ==> SameRecords(q[i], r[i])
    ensures Sequential(r)
  {
    forall i | 0 <= i < |r|
      ensures r[i] != [] && Rising(r[i])
    {
      assert SameRecords(q[i], r[i]) && Rising(q[i]);
      forall k, l | 0 <= k < l < |r[i]|
        ensures Earlier(r[i][k], r[i][l])
      {
        assert Earlier(q[i][k], q[i][l]);
      }
    }
    forall i, j | 0 <= i < j < |r|
      ensures Before(r[i], r[j])
    {
      assert SameRecords(q[i], r[i]) && SameRecords(q[j], r[j]) && Before(q[i], q[j]);
      forall k, l | 0 <= k < |r[i]| && 0 <= l < |r[j]|
        ensures Earlier(r[i][k], r[j][l])
      {
        assert Earlier(q[i][k], q[j][l]);
      }
    }
  }

  lemma {:induction false} PurgeKeeps(q: seq<Datagram>)
    requires Sequential(q)
    ensures Sequential(Purge(q))
  {
    if q != [] && FullyHandled(q[0]) {
      assert forall i :: 0 <= i < |q[1..]| ==> q[1..][i] == q[i + 1];
      PurgeKeeps(q[1..]);
    }
  }

  /** Events of the connected phase that bring application data only, each datagram a stretch of
      the sender's records, and placed as the engine places it. */
  predicate Streams(b: Inbox, e: Event) {
    match e
    case Arrives(packet, p) =>
      var d := Brought(b, packet).1;
      Queues(p) ==>
        && p.At? && NoneEmpty(b.queue) && d != [] && Orderly(b.queue, d, p)
        && Rising(d) && forall k :: 0 <= k < |b.queue| ==> Apart(d, b.queue[k])
    case Handle(_, _) => false
    case HelloRetry => false
    case _ => true
  }

  predicate StreamsAll(b: Inbox, es: seq<Event>)
    decreases |es|
  {
    es == [] || (Happens(b, es[0]) && Streams(b, es[0]) && StreamsAll(Happen(b, es[0]), es[1..]))
  }

  lemma StreamKeeps(b: Inbox, e: Event)
    requires Sequential(b.queue) && Happens(b, e) && Streams(b, e)
    ensures Sequential(Happen(b, e).queue)
  {
    match e
    case Arrives(packet, p) =>
      if Queues(p) {
        PlacedInOrder(b.queue, p.i, Brought(b, packet).1);
      }
    case PollAppData => MarkedKeeps(b.queue);
    case PurgeHandled => PurgeKeeps(b.queue);
    case _ =>
  }

  lemma {:induction false} StreamIsRun(b: Inbox, es: seq<Event>)
    requires StreamsAll(b, es)
    ensures HappensAll(b, es)
    decreases |es|
  {
    if es != [] {
      StreamIsRun(Happen(b, es[0]), es[1..]);
    }
  }

  lemma {:induction false} StreamStaysSequential(b: Inbox, es: seq<Event>)
    requires Sequential(b.queue) && StreamsAll(b, es)
    ensures HappensAll(b, es) && Sequential(HappenAll(b, es).queue)
    decreases |es|
  {
    StreamIsRun(b, es);
    if es != [] {
      StreamKeeps(b, es[0]);
      StreamStaysSequential(Happen(b, es[0]), es[1..]);
    }
  }

  /** Whatever the order in which the datagrams of a stream of application data arrive, what is
      handed out next is always the earliest record still pending, by epoch and number. */
  lemma PolledInOrder(peer: Side, maxQueue: nat, es: seq<Event>)
    requires StreamsAll(NewInbox(peer, maxQueue), es)
    ensures HappensAll(NewInbox(peer, maxQueue), es)
    ensures var b := HappenAll(NewInbox(peer, maxQueue), es);
            var t := Happen(b, PollAppData);
            && (b.rcv.released && Pending(b.queue) != [] ==>
                  exists h :: h in Pending(b.queue) && t.delivered == b.delivered + [h]
                              && forall g :: g in Pending(t.queue) ==> Earlier(h, g))
            && (!b.rcv.released || Pending(b.queue) == [] ==> t.delivered == b.delivered && t.queue == b.queue)
  {
    StreamStaysSequential(NewInbox(peer, maxQueue), es);
    var b := HappenAll(NewInbox(peer, maxQueue), es);
    TakeTakesFirst(b.queue);
    QuietLedger(b, PollAppData);
    if b.rcv.released && Pending(b.queue) != [] {
      TakesEarliest(b.queue);
    }
  }

  // ----- One record in each datagram -----

  /** An arrival brings one application record or is not queued. */
  predicate Single(b: Inbox, e: Event) {
    match e
    case Arrives(packet, p) =>
      var d := Brought(b, packet).1;
      Queues(p) ==> p.At? && |d| == 1 && NoneEmpty(b.queue) && Orderly(b.queue, d, p)
    case Handle(_, _) => false
    case HelloRetry => false
    case _ => true
  }

  predicate SingleAll(b: Inbox, es: seq<Event>)
    decreases |es|
  {
    es == [] || (Happens(b, es[0]) && Single(b, es[0]) && SingleAll(Happen(b, es[0]), es[1..]))
  }

  predicate Singles(q: seq<Datagram>) {
    forall i :: 0 <= i < |q| ==> |q[i]| == 1
  }

  /** Then order by leading record is all there is to it. */
  lemma SinglesApart(q: seq<Datagram>, d: Datagram, p: Placement)
    requires Singles(q) && NoneEmpty(q) && |d| == 1 && Orderly(q, d, p) && p.At?
    ensures Rising(d) && forall k :: 0 <= k < |q| ==> Apart(d, q[k])
  {
    forall k | 0 <= k < |q|
      ensures Apart(d, q[k])
    {
      assert Lead(q[k]) != Lead(d);
      assert Less(Lead(q[k]), Lead(d)) || Less(Lead(d), Lead(q[k]));
    }
  }

  lemma SingleKeeps(b: Inbox, e: Event)
    requires Singles(b.queue) && Happens(b, e) && Single(b, e)
    ensures Streams(b, e) && Singles(Happen(b, e).queue)
  {
    match e
    case Arrives(packet, p) =>
      if Queues(p) {
        SinglesApart(b.queue, Brought(b, packet).1, p);
      }
    case PollAppData => TakeSame(b.queue);
    case PurgeHandled => PurgeSingles(b.queue);
    case _ =>
  }

  lemma {:induction false} PurgeSingles(q: seq<Datagram>)
    requires Singles(q)
    ensures Singles(Purge(q))
  {
    if q != [] && FullyHandled(q[0]) {
      assert forall i :: 0 <= i < |q[1..]| ==> q[1..][i] == q[i + 1];
      PurgeSingles(q[1..]);
    }
  }

  /** With one record in each datagram nothing more is asked of the arrivals. */
  lemma {:induction false} SinglesStream(b: Inbox, es: seq<Event>)
    requires Singles(b.queue) && SingleAll(b, es)
    ensures StreamsAll(b, es)
    decreases |es|
  {
    if es != [] {
      SingleKeeps(b, es[0]);
      SinglesStream(Happen(b, es[0]), es[1..]);
    }
  }

  // ----- What breaks the order -----

  predicate NoParts(q: seq<Datagram>) {
    forall i :: 0 <= i < |q| ==> !LeadsWithPart(q[i])
  }

  lemma FrontOf(q: seq<Datagram>, d: Datagram, i: nat)
    requires i <= |q|
    ensures var r := q[..i] + [d] + q[i..]; r[i] == d && (i > 0 ==> r[0] == q[0])
  {
  }

  /** A datagram led by a KeyUpdate goes in front of all application data.  The queue stays
      ascending, so that later searches find their place, exactly when no queued record has a
      smaller number. */
  lemma UpdateGoesFirst(q: seq<Datagram>, d: Datagram, i: nat)
    requires Ascending(q) && NoParts(q) && LeadsWithPart(d) && i <= |q| && PartsFirst(q[..i] + [d] + q[i..])
    ensures i == 0
    ensures Ascending(q[..i] + [d] + q[i..]) <==> q == [] || Less(Lead(d), Lead(q[0]))
  {
    var r := q[..i] + [d] + q[i..];
    FrontOf(q, d, i);
    assert forall k :: 0 <= k < |q| ==> q[k] == r[k + 1];
    if Ascending(r) && q != [] {
      assert Less(Lead(r[0]), Lead(r[1]));
    }
    if q == [] || Less(Lead(d), Lead(q[0])) {
      forall k | 0 <= k < |q|
        ensures Less(Lead(d), Lead(q[k]))
      {
        assert k > 0 ==> Less(Lead(q[0]), Lead(q[k]));
      }
      AscendingAfter(q, 0, d);
    }
  }

  /** An insertion anywhere leaves the queue ascending only if it was, and in its place if it was. */
  lemma InsertionExact(q: seq<Datagram>, d: Datagram, p: Placement)
    requires NoneEmpty(q) && d != [] && p.At? && p.i <= |q|
    requires Ascending(q) ==> Orderly(q, d, p)
    ensures Ascending(Placed(q, d, p)) <==> Ascending(q)
  {
    if Ascending(Placed(q, d, p)) {
      AscendingBefore(q, p.i, d);
    }
  }
}
