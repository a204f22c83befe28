/** With one handshake fragment in each datagram, the queue of datagrams is the queue of
    fragments. */
module PartQueue {
  import opened Handshakes
  import opened Records
  import opened Delivery
  import R = Reassembly

  predicate OnePart(d: Datagram) {
    |d| == 1 && LeadsWithPart(d)
  }

  function AsItem(d: Datagram): R.Item
    requires OnePart(d)
  {
    R.Item(d[0].payload.part, d[0].epoch, d[0].number, d[0].handled)
  }

  function AsItems(q: seq<Datagram>): (items: seq<R.Item>)
    requires forall i :: 0 <= i < |q| ==> OnePart(q[i])
    ensures |items| == |q| && forall i :: 0 <= i < |q| ==> items[i] == AsItem(q[i])
  {
    seq(|q|, i requires 0 <= i < |q| => AsItem(q[i]))
  }

  lemma ItemsSorted(q: seq<Datagram>)
    requires (forall i :: 0 <= i < |q| ==> OnePart(q[i])) && PartsFirst(q)
    ensures R.Sorted(AsItems(q))
  {
    forall i, j | 0 <= i < j < |q|
      ensures AsItems(q)[i].part.Before(AsItems(q)[j].part)
    {
      assert LeadsWithPart(q[j]) && Less(PositionOf(q[i]), PositionOf(q[j]));
    }
  }

  /** What the search of the queue promises of the place it gives a datagram. */
  ghost predicate Found(
      q: seq<Datagram>, maxQueue: nat, peerSeq: nat, released: bool, d: Datagram, p: Placement)
    requires d != []
  {
    && MayTake(q, maxQueue, peerSeq, released, d, p)
    && (p.Refused? <==> Refuses(q, maxQueue, peerSeq, released, d))
    && (p.Dropped? && !AlreadyRead(peerSeq, d) ==>
          exists e :: e in q && PositionOf(e) == PositionOf(d) && !Supersedes(e, d))
    && PartsFirst(Placed(q, d, p)) && (p.At? ==> !PartAt(q, PositionOf(d)))
  }

  /** A fragment with this key at `i` is where the sorted queue has it. */
  lemma KeyIsThere(items: seq<R.Item>, part: Part, i: nat)
    requires R.Sorted(items) && i < |items| && items[i].part.SameKey(part)
    ensures R.Position(items, part) == i
  {
    R.PositionIs(items, part, i);
  }

  lemma DroppedAlike(q: seq<Datagram>, maxQueue: nat, peerSeq: nat, released: bool, d: Datagram)
    requires (forall i :: 0 <= i < |q| ==> OnePart(q[i])) && OnePart(d) && PartsFirst(q)
    requires Found(q, maxQueue, peerSeq, released, d, Dropped)
    ensures R.Insert(AsItems(q), peerSeq, released, maxQueue, AsItem(d)) == AsItems(q)
  {
    if !AlreadyRead(peerSeq, d) {
      ItemsSorted(q);
      var e :| e in q && PositionOf(e) == PositionOf(d) && !Supersedes(e, d);
      var i :| 0 <= i < |q| && q[i] == e;
      assert OnePart(q[i]);
      KeyIsThere(AsItems(q), AsItem(d).part, i);
    }
  }

  lemma PlaceIs(q: seq<Datagram>, d: Datagram, at: nat)
    requires (forall i :: 0 <= i < |q| ==> OnePart(q[i])) && OnePart(d) && at <= |q|
    requires PartsFirst(q[..at] + [d] + q[at..])
    ensures R.Position(AsItems(q), AsItem(d).part) == at
    ensures at < |q| ==> !q[at][0].payload.part.SameKey(d[0].payload.part)
  {
    var r, items := q[..at] + [d] + q[at..], AsItems(q);
    assert r[at] == d && forall k :: 0 <= k < |q| ==> q[k] == r[if k < at then k else k + 1];
    forall k | 0 <= k < at
      ensures items[k].part.Before(AsItem(d).part)
    {
      assert r[k] == q[k] && Less(PositionOf(r[k]), PositionOf(r[at]));
    }
    if at < |q| {
      assert r[at + 1] == q[at] && OnePart(q[at]) && Less(PositionOf(r[at]), PositionOf(r[at + 1]));
    }
    R.PositionIs(items, AsItem(d).part, at);
  }

  lemma SplicedItems(q: seq<Datagram>, d: Datagram, at: nat)
    requires (forall i :: 0 <= i < |q| ==> OnePart(q[i])) && OnePart(d) && at <= |q|
    ensures var r := q[..at] + [d] + q[at..];
            && (forall i :: 0 <= i < |r| ==> OnePart(r[i]))
            && AsItems(r) == AsItems(q)[..at] + [AsItem(d)] + AsItems(q)[at..]
  {
    var r := q[..at] + [d] + q[at..];
    assert r[at] == d && forall k :: 0 <= k < |q| ==> q[k] == r[if k < at then k else k + 1];
    forall i | 0 <= i < |r|
      ensures OnePart(r[i])
    {
      if i != at {
        assert r[i] == q[if i < at then i else i - 1];
      }
    }
    assert AsItems(r) == AsItems(q)[..at] + [AsItem(d)] + AsItems(q)[at..];
  }

  lemma InsertedAlike(q: seq<Datagram>, maxQueue: nat, peerSeq: nat, released: bool, d: Datagram, at: nat)
    requires (forall i :: 0 <= i < |q| ==> OnePart(q[i])) && OnePart(d) && PartsFirst(q)
    requires Found(q, maxQueue, peerSeq, released, d, At(at))
    ensures var r := Placed(q, d, At(at));
            && (forall i :: 0 <= i < |r| ==> OnePart(r[i]))
            && R.Insert(AsItems(q), peerSeq, released, maxQueue, AsItem(d)) == AsItems(r)
  {
    PlaceIs(q, d, at);
    SplicedItems(q, d, at);
  }

  lemma ReplacedAlike(q: seq<Datagram>, maxQueue: nat, peerSeq: nat, released: bool, d: Datagram, at: nat)
    requires (forall i :: 0 <= i < |q| ==> OnePart(q[i])) && OnePart(d) && PartsFirst(q)
    requires Found(q, maxQueue, peerSeq, released, d, Over(at))
    ensures var r := Placed(q, d, Over(at));
            && (forall i :: 0 <= i < |r| ==> OnePart(r[i]))
            && R.Insert(AsItems(q), peerSeq, released, maxQueue, AsItem(d)) == AsItems(r)
  {
    ItemsSorted(q);
    KeyIsThere(AsItems(q), AsItem(d).part, at);
    assert AsItems(q[at := d]) == AsItems(q)[at := AsItem(d)];
  }

  /** Wherever the search puts such a datagram, or if it refuses or drops it, the queue then holds
      what inserting its fragment into the queue of fragments gives; so what is proved of
      arrival order, completeness and reassembly there holds of it. */
  lemma OnePartRefines(q: seq<Datagram>, maxQueue: nat, peerSeq: nat, released: bool, d: Datagram, p: Placement)
    requires (forall i :: 0 <= i < |q| ==> OnePart(q[i])) && OnePart(d) && PartsFirst(q)
    requires Found(q, maxQueue, peerSeq, released, d, p)
    ensures var r := Placed(q, d, p);
            && (forall i :: 0 <= i < |r| ==> OnePart(r[i]))
            && R.Insert(AsItems(q), peerSeq, released, maxQueue, AsItem(d)) == AsItems(r)
  {
    match p
    case Refused =>
    case Dropped => DroppedAlike(q, maxQueue, peerSeq, released, d);
    case At(i) => InsertedAlike(q, maxQueue, peerSeq, released, d, i);
    case Over(i) => ReplacedAlike(q, maxQueue, peerSeq, released, d, i);
  }
}
