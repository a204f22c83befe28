/** The receive queue of handshake fragments, one fragment per datagram: sorted insertion,
    the three walks over it, and the reassembly of a message body. */
module Reassembly {
  import opened Handshakes

  const MAX_DEFRAGMENT_PACKETS := 50

  /** A queued fragment, the epoch and number of the record that brought it, and whether
      it has been consumed. */
  datatype Item = Item(part: Part, epoch: nat, number: nat, handled: bool)

  // ----- Insertion -----

  ghost predicate Sorted(q: seq<Item>) {
    forall i, j :: 0 <= i < j < |q| ==> q[i].part.Before(q[j].part)
  }

  /** The first position whose key is not before that of `part`. */
  function Position(q: seq<Item>, part: Part): (i: nat)
    ensures i <= |q|
    ensures forall j :: 0 <= j < i ==> q[j].part.Before(part)
    ensures i < |q| ==> !q[i].part.Before(part)
  {
    if q == [] || !q[0].part.Before(part) then 0 else 1 + Position(q[1..], part)
  }

  /** What an arriving fragment does to the queue. */
  datatype Arrival =
    | QueueFull
    | AlreadyProcessed
    | Renegotiation
    | Inserted(at: nat)
    | Replaced(at: nat)
    | Duplicate

  function Classify(q: seq<Item>, peerSeq: nat, released: bool, maxQueue: nat, item: Item): Arrival {
    if |q| >= maxQueue then QueueFull
    else if item.part.seqNo < peerSeq then AlreadyProcessed
    else if released && item.part.msgType != KeyUpdate then Renegotiation
    else
      var i := Position(q, item.part);
      if i == |q| || !q[i].part.SameKey(item.part) then Inserted(i)
      else if q[i].handled || (!q[i].part.Whole() && item.part.Whole()) then Replaced(i)
      else Duplicate
  }

  function Insert(q: seq<Item>, peerSeq: nat, released: bool, maxQueue: nat, item: Item): seq<Item> {
    match Classify(q, peerSeq, released, maxQueue, item)
    case Inserted(i) => q[..i] + [item] + q[i..]
    case Replaced(i) => q[i := item]
    case _ => q
  }

  lemma PositionIs(q: seq<Item>, part: Part, i: nat)
    requires i <= |q| && (forall j :: 0 <= j < i ==> q[j].part.Before(part))
    requires i < |q| ==> !q[i].part.Before(part)
    ensures Position(q, part) == i
  {
  }

  lemma SplicedSorted(q: seq<Item>, i: nat, item: Item)
    requires Sorted(q) && i <= |q| && (forall j :: 0 <= j < i ==> q[j].part.Before(item.part))
    requires forall j :: i <= j < |q| ==> item.part.Before(q[j].part)
    ensures Sorted(q[..i] + [item] + q[i..])
  {
  }

  lemma InsertKeepsSorted(q: seq<Item>, peerSeq: nat, released: bool, maxQueue: nat, item: Item)
    requires Sorted(q)
    ensures Sorted(Insert(q, peerSeq, released, maxQueue, item))
  {
    var i := Position(q, item.part);
    if i == |q| || !q[i].part.SameKey(item.part) {
      forall j | i <= j < |q|
        ensures item.part.Before(q[j].part)
      {
        assert j > i ==> q[i].part.Before(q[j].part);
      }
      SplicedSorted(q, i, item);
    }
  }

  /** A run of arrivals at a queue whose reader stands still. */
  function InsertAll(q: seq<Item>, peerSeq: nat, released: bool, maxQueue: nat, items: seq<Item>): seq<Item>
    decreases |items|
  {
    if items == [] then q
    else InsertAll(Insert(q, peerSeq, released, maxQueue, items[0]), peerSeq, released, maxQueue, items[1..])
  }

  lemma {:induction false} InsertAllKeepsSorted(
      q: seq<Item>, peerSeq: nat, released: bool, maxQueue: nat, items: seq<Item>)
    requires Sorted(q)
    ensures Sorted(InsertAll(q, peerSeq, released, maxQueue, items))
    decreases |items|
  {
    if items != [] {
      InsertKeepsSorted(q, peerSeq, released, maxQueue, items[0]);
      InsertAllKeepsSorted(Insert(q, peerSeq, released, maxQueue, items[0]), peerSeq, released, maxQueue, items[1..]);
    }
  }

  /** Of all that arrives, only fragments of messages not yet read are queued, and once
      application data is released only KeyUpdates; and the queue never outgrows its bound. */
  lemma {:induction false} InsertAllAdmits(
      q: seq<Item>, peerSeq: nat, released: bool, maxQueue: nat, items: seq<Item>)
    ensures var r := InsertAll(q, peerSeq, released, maxQueue, items);
            && (|r| <= maxQueue || r == q)
            && forall item :: item in r && item !in q ==>
                 item in items && item.part.seqNo >= peerSeq && (released ==> item.part.msgType == KeyUpdate)
    decreases |items|
  {
    if items != [] {
      InsertAdmits(q, peerSeq, released, maxQueue, items[0]);
      InsertAllAdmits(Insert(q, peerSeq, released, maxQueue, items[0]), peerSeq, released, maxQueue, items[1..]);
    }
  }

  lemma InsertAdmits(q: seq<Item>, peerSeq: nat, released: bool, maxQueue: nat, item: Item)
    ensures var r := Insert(q, peerSeq, released, maxQueue, item);
            && (|r| <= maxQueue || r == q)
            && forall other :: other in r && other !in q ==>
                 other == item && item.part.seqNo >= peerSeq && (released ==> item.part.msgType == KeyUpdate)
  {
  }

  // ----- Arrival order does not matter -----

  ghost function Parts(q: seq<Item>): set<Part> {
    set i | 0 <= i < |q| :: q[i].part
  }

  /** Fragments from one fragmentation: two with the same key are the same. */
  ghost predicate Consistent(parts: set<Part>) {
    forall p, r :: p in parts && r in parts && p.SameKey(r) ==> p == r
  }

  /** Fresh arrivals: of unread messages, and not yet consumed. */
  ghost predicate FreshArrivals(items: seq<Item>, peerSeq: nat) {
    forall i :: 0 <= i < |items| ==> !items[i].handled && items[i].part.seqNo >= peerSeq
  }

  /** A strictly sorted queue holds as many fragments as it is long. */
  lemma {:induction false} PartsCount(q: seq<Item>)
    requires Sorted(q)
    ensures |Parts(q)| == |q|
    decreases |q|
  {
    if q != [] {
      PartsCons(q);
      HeadNotInTail(q);
      PartsCount(q[1..]);
    }
  }

  /** A queue with no room left already holds the fragment. */
  lemma FullHoldsPart(q: seq<Item>, maxQueue: nat, part: Part)
    requires Sorted(q) && |q| >= maxQueue && |Parts(q) + {part}| <= maxQueue
    ensures Parts(q) + {part} == Parts(q)
  {
    PartsCount(q);
    AddCount(Parts(q), part);
  }

  lemma AddCount(a: set<Part>, p: Part)
    ensures p !in a ==> |a + {p}| == |a| + 1
  {
  }

  lemma SplicedParts(q: seq<Item>, i: nat, item: Item)
    requires i <= |q|
    ensures Parts(q[..i] + [item] + q[i..]) == Parts(q) + {item.part}
  {
    var r := q[..i] + [item] + q[i..];
    forall p | p in Parts(q) + {item.part}
      ensures p in Parts(r)
    {
      if p == item.part {
        assert r[i].part == p;
      } else {
        var j :| 0 <= j < |q| && q[j].part == p;
        assert r[if j < i then j else j + 1].part == p;
      }
    }
  }

  lemma ReplacedParts(q: seq<Item>, i: nat, item: Item)
    requires i < |q| && q[i].part == item.part
    ensures Parts(q[i := item]) == Parts(q) == Parts(q) + {item.part}
  {
    var r := q[i := item];
    assert q[i].part in Parts(q);
    assert forall j :: 0 <= j < |q| ==> r[j].part == q[j].part;
  }

  /** What inserting does to the fragments queued. */
  lemma InsertCases(q: seq<Item>, peerSeq: nat, maxQueue: nat, item: Item)
    requires item.part.seqNo >= peerSeq
    ensures var r, i := Insert(q, peerSeq, false, maxQueue, item), Position(q, item.part);
            || (|q| >= maxQueue && r == q)
            || r == q[..i] + [item] + q[i..]
            || (i < |q| && q[i].part.SameKey(item.part) && (r == q || r == q[i := item]))
  {
  }

  lemma InsertAddsPart(q: seq<Item>, peerSeq: nat, maxQueue: nat, item: Item)
    requires Sorted(q) && item.part.seqNo >= peerSeq
    requires Consistent(Parts(q) + {item.part}) && |Parts(q) + {item.part}| <= maxQueue
    ensures Parts(Insert(q, peerSeq, false, maxQueue, item)) == Parts(q) + {item.part}
  {
    var r, i := Insert(q, peerSeq, false, maxQueue, item), Position(q, item.part);
    InsertCases(q, peerSeq, maxQueue, item);
    if |q| >= maxQueue && r == q {
      FullHoldsPart(q, maxQueue, item.part);
    } else if r == q[..i] + [item] + q[i..] {
      SplicedParts(q, i, item);
    } else {
      assert q[i].part in Parts(q);
      ReplacedParts(q, i, item);
    }
  }

  lemma {:induction false} InsertAllParts(q: seq<Item>, peerSeq: nat, maxQueue: nat, items: seq<Item>)
    requires Sorted(q) && FreshArrivals(items, peerSeq)
    requires Consistent(Parts(q) + Parts(items)) && |Parts(q) + Parts(items)| <= maxQueue
    ensures Parts(InsertAll(q, peerSeq, false, maxQueue, items)) == Parts(q) + Parts(items)
    decreases |items|
  {
    if items != [] {
      var rest := items[1..];
      PartsCons(items);
      SubsetCount(Parts(q) + {items[0].part}, Parts(q) + Parts(items));
      InsertAddsPart(q, peerSeq, maxQueue, items[0]);
      InsertKeepsSorted(q, peerSeq, false, maxQueue, items[0]);
      var r := Insert(q, peerSeq, false, maxQueue, items[0]);
      assert Parts(r) + Parts(rest) == Parts(q) + Parts(items);
      InsertAllParts(r, peerSeq, maxQueue, rest);
    }
  }

  lemma SubsetCount(a: set<Part>, b: set<Part>)
    requires a <= b
    ensures |a| <= |b|
  {
    assert b == a + (b - a);
  }

  lemma PartsCons(items: seq<Item>)
    requires items != []
    ensures Parts(items) == {items[0].part} + Parts(items[1..])
  {
    forall p | p in Parts(items)
      ensures p in {items[0].part} + Parts(items[1..])
    {
      var i :| 0 <= i < |items| && items[i].part == p;
      if i > 0 {
        assert items[1..][i - 1].part == p;
      }
    }
    forall p | p in Parts(items[1..])
      ensures p in Parts(items)
    {
      var i :| 0 <= i < |items[1..]| && items[1..][i].part == p;
      assert items[i + 1].part == p;
    }
  }

  /** Strictly sorted queues with the same fragments list them identically. */
  lemma {:induction false} SortedUnique(q: seq<Item>, r: seq<Item>)
    requires Sorted(q) && Sorted(r) && Parts(q) == Parts(r)
    ensures |q| == |r| && forall i :: 0 <= i < |q| ==> q[i].part == r[i].part
    decreases |q|
  {
    if r != [] {
      assert r[0].part in Parts(r);
    }
    if q != [] {
      assert q[0].part in Parts(q);
      assert r != [];
      assert r[0].part in Parts(r);
      var i :| 0 <= i < |r| && r[i].part == q[0].part;
      var j :| 0 <= j < |q| && q[j].part == r[0].part;
      assert i == 0 && j == 0;
      PartsCons(q);
      PartsCons(r);
      HeadNotInTail(q);
      HeadNotInTail(r);
      SortedUnique(q[1..], r[1..]);
      forall k | 0 <= k < |q|
        ensures q[k].part == r[k].part
      {
        if k > 0 {
          assert q[k] == q[1..][k - 1] && r[k] == r[1..][k - 1];
        }
      }
    }
  }

  lemma HeadNotInTail(q: seq<Item>)
    requires q != [] && Sorted(q)
    ensures q[0].part !in Parts(q[1..])
  {
    assert forall i :: 0 <= i < |q[1..]| ==> q[1..][i].part == q[i + 1].part;
  }

  function PartsOf(q: seq<Item>): (ps: seq<Part>)
    ensures |ps| == |q| && forall i :: 0 <= i < |q| ==> ps[i] == q[i].part
  {
    seq(|q|, i requires 0 <= i < |q| => q[i].part)
  }

  /** What a queue that got these holds under the key of `p`: the first whole fragment, or
      else the first. */
  function Held(items: seq<Item>, p: Part): Option<Part> {
    if items == [] then None
    else
      var before, last := Held(items[..|items| - 1], p), items[|items| - 1].part;
      if !last.SameKey(p) then before
      else if before.None? || (!before.value.Whole() && last.Whole()) then Some(last)
      else before
  }

  /** A sorted queue of unread fragments that holds just what these arrivals leave. */
  ghost predicate Holds(q: seq<Item>, items: seq<Item>) {
    && Sorted(q) && (forall i :: 0 <= i < |q| ==> !q[i].handled)
    && (forall i :: 0 <= i < |q| ==> Held(items, q[i].part) == Some(q[i].part))
    && (forall p :: Held(items, p).Some? ==> Held(items, p).value in PartsOf(q))
  }

  lemma {:induction false} HeldIsBrought(items: seq<Item>, p: Part)
    ensures Held(items, p).Some? ==> Held(items, p).value in Parts(items) && Held(items, p).value.SameKey(p)
    decreases |items|
  {
    if items != [] {
      var front := items[..|items| - 1];
      HeldIsBrought(front, p);
      if Held(front, p).Some? && Held(front, p).value in Parts(front) {
        var i :| 0 <= i < |front| && front[i].part == Held(front, p).value;
        assert items[i] == front[i];
      }
    }
  }

  lemma {:induction false} KeyIsHeld(items: seq<Item>, p: Part)
    ensures (exists i :: 0 <= i < |items| && items[i].part.SameKey(p)) ==> Held(items, p).Some?
    decreases |items|
  {
    if items != [] {
      var front := items[..|items| - 1];
      KeyIsHeld(front, p);
      if i :| 0 <= i < |items| && items[i].part.SameKey(p) {
        assert i < |front| ==> front[i] == items[i];
      }
    }
  }

  lemma {:induction false} HeldByKey(items: seq<Item>, p: Part, r: Part)
    requires p.SameKey(r)
    ensures Held(items, p) == Held(items, r)
    decreases |items|
  {
    if items != [] {
      HeldByKey(items[..|items| - 1], p, r);
    }
  }

  lemma {:induction false} InsertAllAppend(
      q: seq<Item>, peerSeq: nat, released: bool, maxQueue: nat, items: seq<Item>, item: Item)
    ensures InsertAll(q, peerSeq, released, maxQueue, items + [item])
            == Insert(InsertAll(q, peerSeq, released, maxQueue, items), peerSeq, released, maxQueue, item)
    decreases |items|
  {
    if items == [] {
      assert [] + [item] == [item] && [item][1..] == [];
      assert InsertAll(q, peerSeq, released, maxQueue, [item])
          == InsertAll(Insert(q, peerSeq, released, maxQueue, item), peerSeq, released, maxQueue, []);
    } else {
      assert (items + [item])[1..] == items[1..] + [item];
      InsertAllAppend(Insert(q, peerSeq, released, maxQueue, items[0]), peerSeq, released, maxQueue, items[1..], item);
    }
  }

  lemma HeldLast(items: seq<Item>, item: Item, p: Part)
    ensures var before := Held(items, p);
            Held(items + [item], p)
            == if !item.part.SameKey(p) then before
               else if before.None? || (!before.value.Whole() && item.part.Whole()) then Some(item.part)
               else before
  {
    assert (items + [item])[..|items + [item]| - 1] == items;
  }

  lemma PartsAppend(items: seq<Item>, item: Item)
    ensures Parts(items + [item]) == Parts(items) + {item.part}
  {
    SplicedParts(items, |items|, item);
    assert items[..|items|] + [item] + items[|items|..] == items + [item];
  }

  lemma HeldAreBrought(q: seq<Item>, items: seq<Item>)
    requires Holds(q, items)
    ensures Parts(q) <= Parts(items)
  {
    forall p | p in Parts(q)
      ensures p in Parts(items)
    {
      HeldIsBrought(items, p);
    }
  }

  /** A full queue already holds whatever else may arrive. */
  lemma FullStays(q: seq<Item>, items: seq<Item>, item: Item, maxQueue: nat)
    requires Holds(q, items) && |q| >= maxQueue && |Parts(items + [item])| <= maxQueue
    ensures Holds(q, items + [item])
  {
    HeldAreBrought(q, items);
    PartsAppend(items, item);
    PartsCount(q);
    SubsetCount(Parts(q), Parts(items + [item]));
    SubsetEqual(Parts(q), Parts(items + [item]));
    assert item.part in Parts(q);
    forall p
      ensures Held(items + [item], p) == Held(items, p)
    {
      HeldLast(items, item, p);
      if item.part.SameKey(p) {
        HeldByKey(items, item.part, p);
      }
    }
  }

  lemma SubsetEqual(a: set<Part>, b: set<Part>)
    requires a <= b && |b| <= |a|
    ensures a == b
  {
    assert b == a + (b - a);
  }

  /** The queue after an arrival that found room holds what that leaves. */
  lemma ArrivalHolds(q: seq<Item>, r: seq<Item>, items: seq<Item>, item: Item)
    requires Holds(q, items) && Sorted(r) && !item.handled
    requires forall i :: 0 <= i < |r| ==>
               || r[i] == item
               || (r[i] in q && !r[i].part.SameKey(item.part))
               || (r[i] in q && Held(items + [item], r[i].part) == Some(r[i].part))
    requires forall i :: 0 <= i < |q| ==> q[i] in r || q[i].part.SameKey(item.part)
    requires Held(items + [item], item.part).value in PartsOf(r)
    requires item in r ==> Held(items + [item], item.part) == Some(item.part)
    ensures Holds(r, items + [item])
  {
    forall i | 0 <= i < |r|
      ensures !r[i].handled && Held(items + [item], r[i].part) == Some(r[i].part)
    {
      if r[i] != item {
        var j :| 0 <= j < |q| && q[j] == r[i];
        HeldLast(items, item, r[i].part);
      }
    }
    forall p | Held(items + [item], p).Some?
      ensures Held(items + [item], p).value in PartsOf(r)
    {
      HeldLast(items, item, p);
      if item.part.SameKey(p) {
        HeldByKey(items + [item], p, item.part);
      } else {
        HeldIsBrought(items, p);
        var j :| 0 <= j < |q| && PartsOf(q)[j] == Held(items, p).value;
        assert q[j] in r;
        var k :| 0 <= k < |r| && r[k] == q[j];
        assert PartsOf(r)[k] == Held(items, p).value;
      }
    }
  }

  /** One more arrival. */
  lemma InsertHolds(q: seq<Item>, items: seq<Item>, peerSeq: nat, maxQueue: nat, item: Item)
    requires Holds(q, items) && !item.handled && item.part.seqNo >= peerSeq && |Parts(items + [item])| <= maxQueue
    ensures Holds(Insert(q, peerSeq, false, maxQueue, item), items + [item])
  {
    var i := Position(q, item.part);
    InsertShape(q, peerSeq, maxQueue, item);
    if |q| >= maxQueue {
      FullStays(q, items, item, maxQueue);
    } else if i < |q| && q[i].part.SameKey(item.part) {
      HeldMeets(q, items, item, i);
    } else {
      NewKeyHolds(q, items, item);
    }
  }

  /** What inserting does where nothing has been read yet. */
  lemma InsertShape(q: seq<Item>, peerSeq: nat, maxQueue: nat, item: Item)
    requires item.part.seqNo >= peerSeq && forall j :: 0 <= j < |q| ==> !q[j].handled
    ensures var i := Position(q, item.part);
            Insert(q, peerSeq, false, maxQueue, item)
            == if |q| >= maxQueue then q
               else if i < |q| && q[i].part.SameKey(item.part) then
                 if !q[i].part.Whole() && item.part.Whole() then q[i := item] else q
               else q[..i] + [item] + q[i..]
  {
  }

  lemma NewKeyHolds(q: seq<Item>, items: seq<Item>, item: Item)
    requires Holds(q, items) && !item.handled
    requires var i := Position(q, item.part); i == |q| || !q[i].part.SameKey(item.part)
    ensures var i := Position(q, item.part); Holds(q[..i] + [item] + q[i..], items + [item])
  {
    var i := Position(q, item.part);
    NewKey(q, items, item.part, i);
    HeldLast(items, item, item.part);
    SplicedMembers(q, i, item);
    forall j | i <= j < |q|
      ensures item.part.Before(q[j].part)
    {
      assert j > i ==> q[i].part.Before(q[j].part);
    }
    SplicedSorted(q, i, item);
    ArrivalHolds(q, q[..i] + [item] + q[i..], items, item);
  }

  /** The place of a key no queued fragment has. */
  lemma {:induction false} NewKey(q: seq<Item>, items: seq<Item>, part: Part, i: nat)
    requires Holds(q, items) && i == Position(q, part) && (i == |q| || !q[i].part.SameKey(part))
    ensures Held(items, part).None? && forall j :: 0 <= j < |q| ==> !q[j].part.SameKey(part)
  {
    if i < |q| {
      assert forall j :: i < j < |q| ==> q[i].part.Before(q[j].part);
    }
    if Held(items, part).Some? {
      HeldIsBrought(items, part);
    }
  }

  lemma SplicedMembers(q: seq<Item>, i: nat, item: Item)
    requires i <= |q|
    ensures var r := q[..i] + [item] + q[i..];
            && item in r && r[i] == item && item.part in PartsOf(r)
            && (forall k :: 0 <= k < |r| && k != i ==> r[k] in q)
            && forall j :: 0 <= j < |q| ==> q[j] in r
  {
    var r := q[..i] + [item] + q[i..];
    assert r[i] == item && PartsOf(r)[i] == item.part;
    forall j | 0 <= j < |q|
      ensures q[j] in r
    {
      assert r[if j < i then j else j + 1] == q[j];
    }
  }

  /** Its key is there: it takes that place or not. */
  lemma HeldMeets(q: seq<Item>, items: seq<Item>, item: Item, i: nat)
    requires Holds(q, items) && !item.handled && i < |q| && q[i].part.SameKey(item.part)
    ensures var r := if !q[i].part.Whole() && item.part.Whole() then q[i := item] else q;
            Holds(r, items + [item])
  {
    HeldByKey(items, q[i].part, item.part);
    HeldLast(items, item, item.part);
    HeldByKey(items + [item], q[i].part, item.part);
    if !q[i].part.Whole() && item.part.Whole() {
      HeldReplaces(q, items, item, i);
    } else {
      HeldStays(q, items, item, i);
    }
  }

  lemma {:induction false} HeldReplaces(q: seq<Item>, items: seq<Item>, item: Item, i: nat)
    requires Holds(q, items) && !item.handled && i < |q| && q[i].part.SameKey(item.part)
    requires Held(items + [item], item.part) == Some(item.part)
    ensures Holds(q[i := item], items + [item])
  {
    var r := q[i := item];
    assert PartsOf(r)[i] == item.part;
    assert forall j :: 0 <= j < |q| && j != i ==> !q[j].part.SameKey(item.part);
    forall j | 0 <= j < |q| && j != i
      ensures q[j] in r
    {
      assert r[j] == q[j];
    }
    assert Sorted(r);
    ArrivalHolds(q, r, items, item);
  }

  lemma {:induction false} HeldStays(q: seq<Item>, items: seq<Item>, item: Item, i: nat)
    requires Holds(q, items) && !item.handled && i < |q| && q[i].part.SameKey(item.part)
    requires Held(items + [item], item.part) == Held(items + [item], q[i].part) == Some(q[i].part)
    ensures Holds(q, items + [item])
  {
    assert PartsOf(q)[i] == q[i].part;
    assert forall j :: 0 <= j < |q| && j != i ==> !q[j].part.SameKey(item.part);
    ArrivalHolds(q, q, items, item);
  }

  /** After any arrivals that fit, the queue holds what they leave. */
  lemma {:induction false} QueueHolds(peerSeq: nat, maxQueue: nat, items: seq<Item>)
    requires FreshArrivals(items, peerSeq) && |Parts(items)| <= maxQueue
    ensures Holds(InsertAll([], peerSeq, false, maxQueue, items), items)
    decreases |items|
  {
    if items != [] {
      var front, last := items[..|items| - 1], items[|items| - 1];
      assert items == front + [last];
      PartsAppend(front, last);
      SubsetCount(Parts(front), Parts(items));
      QueueHolds(peerSeq, maxQueue, front);
      InsertHolds(InsertAll([], peerSeq, false, maxQueue, front), front, peerSeq, maxQueue, last);
      InsertAllAppend([], peerSeq, false, maxQueue, front, last);
    }
  }

  lemma HeldDecides(q: seq<Item>, items: seq<Item>, r: seq<Item>, others: seq<Item>)
    requires Holds(q, items) && Holds(r, others) && forall p :: Held(items, p) == Held(others, p)
    ensures PartsOf(q) == PartsOf(r)
  {
    forall p
      ensures p in Parts(q) <==> p in Parts(r)
    {
      HeldMembers(q, items, p);
      HeldMembers(r, others, p);
    }
    SortedUnique(q, r);
  }

  lemma HeldMembers(q: seq<Item>, items: seq<Item>, p: Part)
    requires Holds(q, items)
    ensures p in Parts(q) <==> Held(items, p) == Some(p)
  {
    if Held(items, p) == Some(p) {
      var i :| 0 <= i < |q| && PartsOf(q)[i] == p;
      assert q[i].part == p;
    }
  }

  /** One whole fragment of the key, and no other. */
  ghost predicate OneWhole(parts: set<Part>, p: Part) {
    exists w :: w in parts && w.SameKey(p) && w.Whole()
                && forall v :: v in parts && v.SameKey(p) && v.Whole() ==> v == w
  }

  /** Wherever two different fragments have one key, just one whole fragment has it. */
  ghost predicate Settles(parts: set<Part>) {
    forall p, r :: p in parts && r in parts && p.SameKey(r) && p != r ==> OneWhole(parts, p)
  }

  lemma {:induction false} WholeWins(items: seq<Item>, p: Part, w: Part)
    requires w in Parts(items) && w.SameKey(p) && w.Whole()
    ensures Held(items, p).Some? && Held(items, p).value.Whole()
    decreases |items|
  {
    var front, last := items[..|items| - 1], items[|items| - 1];
    assert items == front + [last];
    PartsAppend(front, last);
    if w in Parts(front) {
      WholeWins(front, p, w);
    }
  }

  lemma SettledHeld(items: seq<Item>, others: seq<Item>, p: Part)
    requires Parts(items) == Parts(others) && Settles(Parts(items))
    ensures Held(items, p) == Held(others, p)
  {
    if Held(items, p).Some? {
      SameKeysHeld(items, others, p);
      SettledValue(items, others, p);
    } else if Held(others, p).Some? {
      SameKeysHeld(others, items, p);
    }
  }

  lemma SettledValue(items: seq<Item>, others: seq<Item>, p: Part)
    requires Parts(items) == Parts(others) && Settles(Parts(items))
    requires Held(items, p).Some? && Held(others, p).Some?
    ensures Held(items, p) == Held(others, p)
  {
    HeldIsBrought(items, p);
    HeldIsBrought(others, p);
    var h, g := Held(items, p).value, Held(others, p).value;
    if h != g {
      assert h.SameKey(g) && OneWhole(Parts(items), h);
      var w :| w in Parts(items) && w.SameKey(h) && w.Whole()
               && forall v :: v in Parts(items) && v.SameKey(h) && v.Whole() ==> v == w;
      WholeWins(items, p, w);
      WholeWins(others, p, w);
    }
  }

  lemma SameKeysHeld(items: seq<Item>, others: seq<Item>, p: Part)
    requires Parts(items) == Parts(others) && Held(items, p).Some?
    ensures Held(others, p).Some?
  {
    HeldIsBrought(items, p);
    var i :| 0 <= i < |others| && others[i].part == Held(items, p).value;
    KeyIsHeld(others, p);
  }

  /** Two runs that bring the same fragments, in any order and with any repetitions, leave
      queues with the same fragments in the same places, as long as different fragments with
      one key meet just one whole one. */
  lemma OrderInsensitive(peerSeq: nat, maxQueue: nat, items: seq<Item>, others: seq<Item>)
    requires FreshArrivals(items, peerSeq) && FreshArrivals(others, peerSeq)
    requires Parts(items) == Parts(others) && Settles(Parts(items)) && |Parts(items)| <= maxQueue
    ensures PartsOf(InsertAll([], peerSeq, false, maxQueue, items))
            == PartsOf(InsertAll([], peerSeq, false, maxQueue, others))
  {
    QueueHolds(peerSeq, maxQueue, items);
    QueueHolds(peerSeq, maxQueue, others);
    forall p
      ensures Held(items, p) == Held(others, p)
    {
      SettledHeld(items, others, p);
    }
    HeldDecides(InsertAll([], peerSeq, false, maxQueue, items), items,
                InsertAll([], peerSeq, false, maxQueue, others), others);
  }

  /** Arrivals of just these fragments, none of them of a message already read. */
  ghost predicate Brings(items: seq<Item>, parts: set<Part>, peerSeq: nat) {
    FreshArrivals(items, peerSeq) && Parts(items) == parts
  }

  /** However these fragments arrive, the queue ends the same. */
  ghost predicate OrderFree(parts: set<Part>, peerSeq: nat, maxQueue: nat) {
    forall items, others :: Brings(items, parts, peerSeq) && Brings(others, parts, peerSeq) ==>
      PartsOf(InsertAll([], peerSeq, false, maxQueue, items))
      == PartsOf(InsertAll([], peerSeq, false, maxQueue, others))
  }

  function Arriving(p: Part): Item {
    Item(p, 0, 0, false)
  }

  /** The fragments in some order. */
  ghost function Listing(parts: set<Part>): (items: seq<Item>)
    ensures Parts(items) == parts && forall i :: 0 <= i < |items| ==> !items[i].handled
    decreases |parts|
  {
    if parts == {} then []
    else
      var p :| p in parts;
      PartsAppend(Listing(parts - {p}), Arriving(p));
      Listing(parts - {p}) + [Arriving(p)]
  }

  /** A whole fragment, or one that meets no whole one, stays when it comes first. */
  lemma {:induction false} FirstStays(first: Item, items: seq<Item>)
    requires first.part.Whole()
             || forall i :: 0 <= i < |items| ==> !(items[i].part.SameKey(first.part) && items[i].part.Whole())
    ensures Held([first] + items, first.part) == Some(first.part)
    decreases |items|
  {
    if items == [] {
      HeldLast([], first, first.part);
      assert [] + [first] == [first] == [first] + [];
    } else {
      var front, last := items[..|items| - 1], items[|items| - 1];
      FirstStays(first, front);
      HeldLast([first] + front, last, first.part);
      assert [first] + items == ([first] + front) + [last];
    }
  }

  ghost predicate NoWhole(parts: set<Part>, p: Part) {
    forall w :: w in parts && w.SameKey(p) ==> !w.Whole()
  }

  /** Two different fragments of one key, both whole, or with no whole one about. */
  ghost predicate Rivals(parts: set<Part>, a: Part, b: Part) {
    && a in parts && b in parts && a.SameKey(b) && a != b
    && ((a.Whole() && b.Whole()) || (NoWhole(parts, a) && NoWhole(parts, b)))
  }

  /** Two fragments of one key, either of which stays when it comes first, make the order
      matter. */
  lemma RivalsMatter(parts: set<Part>, peerSeq: nat, maxQueue: nat, a: Part, b: Part)
    requires |parts| <= maxQueue && forall p :: p in parts ==> p.seqNo >= peerSeq
    requires Rivals(parts, a, b)
    ensures !OrderFree(parts, peerSeq, maxQueue)
  {
    var items := FirstEnds(parts, peerSeq, maxQueue, a);
    var others := FirstEnds(parts, peerSeq, maxQueue, b);
    RivalsDiffer(InsertAll([], peerSeq, false, maxQueue, items), InsertAll([], peerSeq, false, maxQueue, others), a, b);
  }

  /** It comes first and ends in the queue. */
  lemma FirstEnds(parts: set<Part>, peerSeq: nat, maxQueue: nat, a: Part) returns (items: seq<Item>)
    requires |parts| <= maxQueue && (forall p :: p in parts ==> p.seqNo >= peerSeq) && a in parts
    requires a.Whole() || NoWhole(parts, a)
    ensures Brings(items, parts, peerSeq)
    ensures var q := InsertAll([], peerSeq, false, maxQueue, items); Sorted(q) && a in PartsOf(q)
  {
    var rest := Listing(parts);
    items := [Arriving(a)] + rest;
    FrontBrings(a, rest, parts, peerSeq);
    assert forall i :: 0 <= i < |rest| ==> rest[i].part in Parts(rest);
    FirstStays(Arriving(a), rest);
    QueueHolds(peerSeq, maxQueue, items);
  }

  lemma RivalsDiffer(q: seq<Item>, r: seq<Item>, a: Part, b: Part)
    requires Sorted(q) && Sorted(r) && a.SameKey(b) && a != b && a in PartsOf(q) && b in PartsOf(r)
    ensures PartsOf(q) != PartsOf(r)
  {
    var i :| 0 <= i < |q| && PartsOf(q)[i] == a;
    forall j | 0 <= j < |q|
      ensures PartsOf(q)[j] != b
    {
      assert i < j ==> q[i].part.Before(q[j].part);
      assert j < i ==> q[j].part.Before(q[i].part);
    }
  }

  lemma FrontBrings(p: Part, rest: seq<Item>, parts: set<Part>, peerSeq: nat)
    requires p in parts && Parts(rest) == parts && (forall i :: 0 <= i < |rest| ==> !rest[i].handled)
    requires forall r :: r in parts ==> r.seqNo >= peerSeq
    ensures Brings([Arriving(p)] + rest, parts, peerSeq)
  {
    var items := [Arriving(p)] + rest;
    PartsCons(items);
    assert items[1..] == rest;
    forall i | 0 <= i < |items|
      ensures !items[i].handled && items[i].part.seqNo >= peerSeq
    {
      if i > 0 {
        assert items[i] == rest[i - 1] && rest[i - 1].part in Parts(rest);
      }
    }
  }

  /** Of fragments of unread messages that fit the queue: the order in which they arrive, and
      how often, makes no difference exactly when, wherever two different ones have one key,
      just one whole fragment has it. */
  lemma OrderExact(parts: set<Part>, peerSeq: nat, maxQueue: nat)
    requires |parts| <= maxQueue && forall p :: p in parts ==> p.seqNo >= peerSeq
    ensures OrderFree(parts, peerSeq, maxQueue) <==> Settles(parts)
  {
    if Settles(parts) {
      forall items, others | Brings(items, parts, peerSeq) && Brings(others, parts, peerSeq)
        ensures PartsOf(InsertAll([], peerSeq, false, maxQueue, items))
                == PartsOf(InsertAll([], peerSeq, false, maxQueue, others))
      {
        OrderInsensitive(peerSeq, maxQueue, items, others);
      }
    } else {
      Unsettled(parts, peerSeq, maxQueue);
    }
  }

  lemma Unsettled(parts: set<Part>, peerSeq: nat, maxQueue: nat)
    requires |parts| <= maxQueue && (forall p :: p in parts ==> p.seqNo >= peerSeq) && !Settles(parts)
    ensures !OrderFree(parts, peerSeq, maxQueue)
  {
    var a, b := PickRivals(parts);
    RivalsMatter(parts, peerSeq, maxQueue, a, b);
  }

  lemma PickRivals(parts: set<Part>) returns (a: Part, b: Part)
    requires !Settles(parts)
    ensures Rivals(parts, a, b)
  {
    var p, r :| p in parts && r in parts && p.SameKey(r) && p != r && !OneWhole(parts, p);
    if NoWhole(parts, p) {
      return p, r;
    }
    a := PickWhole(parts, p);
    b := PickOther(parts, p, a);
  }

  lemma PickWhole(parts: set<Part>, p: Part) returns (a: Part)
    requires !NoWhole(parts, p)
    ensures a in parts && a.SameKey(p) && a.Whole()
  {
    a :| a in parts && a.SameKey(p) && a.Whole();
  }

  lemma PickOther(parts: set<Part>, p: Part, a: Part) returns (b: Part)
    requires !OneWhole(parts, p) && a in parts && a.SameKey(p) && a.Whole()
    ensures b in parts && b.SameKey(p) && b.Whole() && b != a
  {
    b :| b in parts && b.SameKey(p) && b.Whole() && b != a;
  }

  // ----- The walks -----

  function FirstUnhandled(q: seq<Item>): (i: nat)
    ensures i <= |q|
    ensures forall j :: 0 <= j < i ==> q[j].handled
    ensures i < |q| ==> !q[i].handled
  {
    if q == [] || !q[0].handled then 0 else 1 + FirstUnhandled(q[1..])
  }

  /** The fragments the walks look at: from the first unhandled one, at most fifty. */
  function Window(q: seq<Item>): (w: seq<Item>)
    ensures w != [] <==> FirstUnhandled(q) < |q|
  {
    var rest := q[FirstUnhandled(q)..];
    if |rest| > MAX_DEFRAGMENT_PACKETS then rest[..MAX_DEFRAGMENT_PACKETS] else rest
  }

  /** Where following a message stands once `part` has been seen. */
  function Reached(part: Part, end: nat): nat {
    if part.End() > end then part.End() else end
  }

  /** The walk of the completeness test: follow message `seqNo` through `w` from byte `end`
      on, tolerating overlaps, and answer yes on reaching `length`. */
  predicate CompleteFrom(w: seq<Item>, seqNo: nat, length: nat, end: nat) {
    if w == [] then false
    else if w[0].part.seqNo != seqNo then CompleteFrom(w[1..], seqNo, length, end)
    else if w[0].part.offset > end then false
    else if Reached(w[0].part, end) == length then true
    else CompleteFrom(w[1..], seqNo, length, Reached(w[0].part, end))
  }

  /** The walk of the ACK scheduler: anything but reaching `length` asks for help. */
  predicate HelpFrom(w: seq<Item>, seqNo: nat, length: nat, end: nat) {
    if w == [] then true
    else if w[0].part.seqNo != seqNo then HelpFrom(w[1..], seqNo, length, end)
    else if w[0].part.offset > end then true
    else if Reached(w[0].part, end) == length then false
    else HelpFrom(w[1..], seqNo, length, Reached(w[0].part, end))
  }

  /** The walk of the gap test: only a fragment that starts too late is a gap. */
  predicate GapFrom(w: seq<Item>, seqNo: nat, length: nat, end: nat) {
    if w == [] then false
    else if w[0].part.seqNo != seqNo then GapFrom(w[1..], seqNo, length, end)
    else if w[0].part.offset > end then true
    else if Reached(w[0].part, end) == length then false
    else GapFrom(w[1..], seqNo, length, Reached(w[0].part, end))
  }

  /** One round of the walk. */
  lemma CompleteStep(w: seq<Item>, part: Part, rest: seq<Item>, seqNo: nat, length: nat, end: nat)
    requires w != [] && w[0].part == part && rest == w[1..]
    ensures CompleteFrom(w, seqNo, length, end)
            == if part.seqNo != seqNo then CompleteFrom(rest, seqNo, length, end)
               else if part.offset > end then false
               else Reached(part, end) == length || CompleteFrom(rest, seqNo, length, Reached(part, end))
  {
  }

  predicate HasComplete(q: seq<Item>, wanted: MessageType, expected: nat) {
    && Window(q) != []
    && Window(q)[0].part.seqNo == expected
    && Window(q)[0].part.msgType == wanted
    && CompleteFrom(Window(q), expected, Window(q)[0].part.length, 0)
  }

  predicate AckHelpNeeded(q: seq<Item>, expected: nat) {
    && Window(q) != []
    && (Window(q)[0].part.seqNo != expected || HelpFrom(Window(q), expected, Window(q)[0].part.length, 0))
  }

  predicate HasGap(q: seq<Item>, expected: nat) {
    && Window(q) != []
    && (Window(q)[0].part.seqNo != expected || GapFrom(Window(q), expected, Window(q)[0].part.length, 0))
  }

  /** Help is asked for exactly when the message is not complete. */
  lemma {:induction false} HelpOpposesComplete(w: seq<Item>, seqNo: nat, length: nat, end: nat)
    ensures HelpFrom(w, seqNo, length, end) <==> !CompleteFrom(w, seqNo, length, end)
    decreases |w|
  {
    if w != [] {
      HelpOpposesComplete(w[1..], seqNo, length, end);
      HelpOpposesComplete(w[1..], seqNo, length, Reached(w[0].part, end));
    }
  }

  lemma {:induction false} GapExcludesComplete(w: seq<Item>, seqNo: nat, length: nat, end: nat)
    requires GapFrom(w, seqNo, length, end)
    ensures !CompleteFrom(w, seqNo, length, end)
    decreases |w|
  {
    if w[0].part.seqNo != seqNo {
      GapExcludesComplete(w[1..], seqNo, length, end);
    } else if w[0].part.offset <= end {
      GapExcludesComplete(w[1..], seqNo, length, Reached(w[0].part, end));
    }
  }

  // ----- Completeness is coverage -----

  ghost predicate CoversByte(w: seq<Item>, seqNo: nat, b: nat) {
    exists i :: 0 <= i < |w| && w[i].part.seqNo == seqNo && w[i].part.offset <= b < w[i].part.End()
  }

  /** The fragments of message `seqNo` leave no byte of [from, length) out. */
  ghost predicate Covers(w: seq<Item>, seqNo: nat, from: nat, length: nat) {
    forall b: nat :: from <= b < length ==> CoversByte(w, seqNo, b)
  }

  ghost predicate WithinLength(w: seq<Item>, seqNo: nat, length: nat) {
    forall i :: 0 <= i < |w| && w[i].part.seqNo == seqNo ==> w[i].part.End() <= length
  }

  lemma CoversByteCons(w: seq<Item>, seqNo: nat, b: nat)
    requires w != []
    ensures CoversByte(w, seqNo, b) <==>
            (w[0].part.seqNo == seqNo && w[0].part.offset <= b < w[0].part.End()) || CoversByte(w[1..], seqNo, b)
  {
    if CoversByte(w, seqNo, b) {
      var i :| 0 <= i < |w| && w[i].part.seqNo == seqNo && w[i].part.offset <= b < w[i].part.End();
      if i > 0 {
        assert w[1..][i - 1] == w[i];
      }
    }
    if CoversByte(w[1..], seqNo, b) {
      var i :| 0 <= i < |w[1..]| && w[1..][i].part.seqNo == seqNo && w[1..][i].part.offset <= b < w[1..][i].part.End();
      assert w[i + 1] == w[1..][i];
    }
  }

  lemma {:induction false} WalkIsCoverage(w: seq<Item>, seqNo: nat, length: nat, end: nat)
    requires Sorted(w) && WithinLength(w, seqNo, length) && end < length
    ensures CompleteFrom(w, seqNo, length, end) <==> Covers(w, seqNo, end, length)
    decreases |w|
  {
    if w == [] {
      assert !CoversByte(w, seqNo, end);
    } else {
      var rest := w[1..];
      assert forall i :: 0 <= i < |rest| ==> rest[i] == w[i + 1];
      forall b: nat
        ensures CoversByte(w, seqNo, b) <==>
                (w[0].part.seqNo == seqNo && w[0].part.offset <= b < w[0].part.End()) || CoversByte(rest, seqNo, b)
      {
        CoversByteCons(w, seqNo, b);
      }
      var p := w[0].part;
      if p.seqNo != seqNo {
        WalkIsCoverage(rest, seqNo, length, end);
        assert Covers(w, seqNo, end, length) <==> Covers(rest, seqNo, end, length);
      } else if p.offset > end {
        assert !CoversByte(rest, seqNo, end);
        assert !CoversByte(w, seqNo, end);
      } else {
        var end' := if p.End() > end then p.End() else end;
        if end' < length {
          WalkIsCoverage(rest, seqNo, length, end');
          assert Covers(w, seqNo, end, length) <==> Covers(rest, seqNo, end', length);
        }
      }
    }
  }

  /** Within the cap, the head message is complete exactly when its queued fragments cover
      it, for the wanted type and expected number. */
  lemma CompleteIsCoverage(q: seq<Item>, wanted: MessageType, expected: nat)
    requires Sorted(q)
    requires |q| - FirstUnhandled(q) <= MAX_DEFRAGMENT_PACKETS
    requires Window(q) != [] ==> WithinLength(Window(q), Window(q)[0].part.seqNo, Window(q)[0].part.length)
    ensures HasComplete(q, wanted, expected) <==>
            && Window(q) != []
            && Window(q)[0].part.seqNo == expected
            && Window(q)[0].part.msgType == wanted
            && Covers(q[FirstUnhandled(q)..], expected, 0, Window(q)[0].part.length)
  {
    var w := Window(q);
    if w != [] {
      assert w == q[FirstUnhandled(q)..];
      assert Sorted(w);
      var first := w[0].part;
      if first.length > 0 {
        WalkIsCoverage(w, first.seqNo, first.length, 0);
      } else {
        assert first.End() <= 0;
      }
    }
  }

  /** Some fragment of the message starts behind a byte, from `from` on, that none covers. */
  ghost predicate Hole(w: seq<Item>, seqNo: nat, from: nat) {
    exists i, b: nat :: 0 <= i < |w| && w[i].part.seqNo == seqNo && from <= b < w[i].part.offset
                        && !CoversByte(w, seqNo, b)
  }

  lemma {:induction false} WalkFindsHole(w: seq<Item>, seqNo: nat, length: nat, end: nat)
    requires Sorted(w) && WithinLength(w, seqNo, length) && end < length
    ensures GapFrom(w, seqNo, length, end) <==> Hole(w, seqNo, end)
    decreases |w|
  {
    if w != [] {
      var rest, p := w[1..], w[0].part;
      assert forall i :: 0 <= i < |rest| ==> rest[i] == w[i + 1];
      if p.seqNo != seqNo {
        WalkFindsHole(rest, seqNo, length, end);
        HoleBehindOther(w, seqNo, end);
      } else if p.offset > end {
        LateStartIsHole(w, seqNo, end);
      } else if Reached(p, end) == length {
        NoHoleBehindEnd(w, seqNo, length, end);
      } else {
        WalkFindsHole(rest, seqNo, length, Reached(p, end));
        HoleBehindPart(w, seqNo, end);
      }
    }
  }

  lemma HoleBehindOther(w: seq<Item>, seqNo: nat, end: nat)
    requires w != [] && w[0].part.seqNo != seqNo
    ensures Hole(w, seqNo, end) <==> Hole(w[1..], seqNo, end)
  {
    forall b: nat
      ensures CoversByte(w, seqNo, b) <==> CoversByte(w[1..], seqNo, b)
    {
      CoversByteCons(w, seqNo, b);
    }
    HoleMoves(w, seqNo, end, end);
  }

  /** A hole behind the first fragment stays one without it, and the other way round, when
      it covers nothing from `to` on and everything from `from` to there. */
  lemma HoleMoves(w: seq<Item>, seqNo: nat, from: nat, to: nat)
    requires w != [] && from <= to && (w[0].part.seqNo == seqNo ==> w[0].part.offset <= from)
    requires forall b: nat :: from <= b < to ==> CoversByte(w, seqNo, b)
    requires forall b: nat :: b >= to ==> (CoversByte(w, seqNo, b) <==> CoversByte(w[1..], seqNo, b))
    ensures Hole(w, seqNo, from) <==> Hole(w[1..], seqNo, to)
  {
    if Hole(w, seqNo, from) {
      var i, b: nat :| 0 <= i < |w| && w[i].part.seqNo == seqNo && from <= b < w[i].part.offset
                       && !CoversByte(w, seqNo, b);
      assert i > 0 && w[1..][i - 1] == w[i] && b >= to;
    }
    if Hole(w[1..], seqNo, to) {
      var i, b: nat :| 0 <= i < |w[1..]| && w[1..][i].part.seqNo == seqNo && to <= b < w[1..][i].part.offset
                       && !CoversByte(w[1..], seqNo, b);
      assert w[i + 1] == w[1..][i];
    }
  }

  lemma LateStartIsHole(w: seq<Item>, seqNo: nat, end: nat)
    requires Sorted(w) && w != [] && w[0].part.seqNo == seqNo && w[0].part.offset > end
    ensures Hole(w, seqNo, end)
  {
    assert !CoversByte(w, seqNo, end) by {
      assert forall i :: 0 < i < |w| ==> w[0].part.Before(w[i].part);
    }
  }

  lemma NoHoleBehindEnd(w: seq<Item>, seqNo: nat, length: nat, end: nat)
    requires WithinLength(w, seqNo, length) && w != [] && w[0].part.seqNo == seqNo
    requires w[0].part.offset <= end < length && Reached(w[0].part, end) == length
    ensures !Hole(w, seqNo, end)
  {
    forall b: nat | end <= b < length
      ensures CoversByte(w, seqNo, b)
    {
      assert w[0].part.offset <= b < w[0].part.End();
    }
  }

  lemma HoleBehindPart(w: seq<Item>, seqNo: nat, end: nat)
    requires w != [] && w[0].part.seqNo == seqNo && w[0].part.offset <= end
    ensures Hole(w, seqNo, end) <==> Hole(w[1..], seqNo, Reached(w[0].part, end))
  {
    var to := Reached(w[0].part, end);
    forall b: nat
      ensures b >= to ==> (CoversByte(w, seqNo, b) <==> CoversByte(w[1..], seqNo, b))
      ensures end <= b < to ==> CoversByte(w, seqNo, b)
    {
      CoversByteCons(w, seqNo, b);
    }
    HoleMoves(w, seqNo, end, to);
  }

  /** The three walks, each with its own answers: with an unhandled head of the expected
      message exactly one of complete, gap, and partial without gap holds; a scheduled ACK is
      wanted exactly when the head is not complete; a gap always wants one; and with nothing
      unhandled none of the three says yes. */
  lemma WalksAgree(q: seq<Item>, expected: nat)
    ensures Window(q) != [] ==>
              var complete := HasComplete(q, Window(q)[0].part.msgType, expected);
              && (AckHelpNeeded(q, expected) <==> !complete)
              && !(complete && HasGap(q, expected))
              && (HasGap(q, expected) ==> AckHelpNeeded(q, expected))
    ensures Window(q) == [] ==>
              && (forall wanted :: !HasComplete(q, wanted, expected))
              && !AckHelpNeeded(q, expected) && !HasGap(q, expected)
  {
    if Window(q) != [] && Window(q)[0].part.seqNo == expected {
      var length := Window(q)[0].part.length;
      HelpOpposesComplete(Window(q), expected, length, 0);
      if GapFrom(Window(q), expected, length, 0) {
        GapExcludesComplete(Window(q), expected, length, 0);
      }
    }
  }

  /** Within the cap, the gap test finds a hole if there is one: the head is of another
      message, or some fragment of it starts behind a byte that no fragment covers.  So a
      message that is neither complete nor has a gap is covered up to where its fragments
      end, and no further. */
  lemma GapIsHole(q: seq<Item>, expected: nat)
    requires Sorted(q)
    requires |q| - FirstUnhandled(q) <= MAX_DEFRAGMENT_PACKETS
    requires Window(q) != [] ==> WithinLength(Window(q), Window(q)[0].part.seqNo, Window(q)[0].part.length)
    ensures HasGap(q, expected) <==>
            && Window(q) != []
            && (Window(q)[0].part.seqNo != expected || Hole(q[FirstUnhandled(q)..], expected, 0))
  {
    var w := Window(q);
    if w != [] {
      assert w == q[FirstUnhandled(q)..];
      if w[0].part.length > 0 {
        WalkFindsHole(w, w[0].part.seqNo, w[0].part.length, 0);
      } else {
        assert w[0].part.End() <= 0;
      }
    }
  }

  // ----- The body -----

  /** The fragments reassembly reads: from the head on, those before the first one of
      another type. */
  function SameTypeRun(w: seq<Item>, msgType: MessageType): seq<Item> {
    if w == [] || w[0].part.msgType != msgType then [] else [w[0]] + SameTypeRun(w[1..], msgType)
  }

  /** Append each fragment's bytes beyond `end`. */
  function Assemble(w: seq<Item>, buffer: seq<nat>, end: nat): seq<nat> {
    if w == [] then buffer
    else
      var p := w[0].part;
      var skip := if end > p.offset then end - p.offset else 0;
      Assemble(
        w[1..],
        buffer + (if skip < |p.bytes| then p.bytes[skip..] else []),
        if p.End() > end then p.End() else end)
  }

  /** The reassembled body, or nothing when its length is not the announced one. */
  function Defragment(w: seq<Item>): Option<seq<nat>>
    requires w != []
  {
    var first := w[0].part;
    var body := Assemble(SameTypeRun(w[1..], first.msgType), first.bytes, first.End());
    if |body| == first.length then Some(body) else None
  }

  /** Reassembly consumes everything it reads. */
  function Consumed(w: seq<Item>, msgType: MessageType): seq<Item> {
    if w == [] || w[0].part.msgType != msgType then w
    else [w[0].(handled := true)] + Consumed(w[1..], msgType)
  }

  /** Every fragment of `w` is a piece of message `seqNo` with this body. */
  ghost predicate PiecesOf(w: seq<Item>, seqNo: nat, body: seq<nat>) {
    forall i :: 0 <= i < |w| ==>
      && w[i].part.seqNo == seqNo
      && w[i].part.End() <= |body|
      && w[i].part.bytes == body[w[i].part.offset..w[i].part.End()]
  }

  /** Walking to the end of a message and assembling it gather the same bytes. */
  lemma {:induction false} AssembleFollowsWalk(w: seq<Item>, seqNo: nat, body: seq<nat>, end: nat)
    requires PiecesOf(w, seqNo, body) && end <= |body|
    requires end == |body| || CompleteFrom(w, seqNo, |body|, end)
    ensures Assemble(w, body[..end], end) == body
    decreases |w|
  {
    if w == [] {
      assert body[..end] == body;
    } else {
      var p := w[0].part;
      var skip := if end > p.offset then end - p.offset else 0;
      var end' := if p.End() > end then p.End() else end;
      assert forall i :: 0 <= i < |w[1..]| ==> w[1..][i] == w[i + 1];
      if end < |body| {
        assert p.offset <= end;
      }
      if skip < |p.bytes| {
        assert body[..end] + p.bytes[skip..] == body[..end'];
      } else {
        assert body[..end] + [] == body[..end'];
      }
      AssembleFollowsWalk(w[1..], seqNo, body, end');
    }
  }

  lemma {:induction false} WalkIgnoresOthers(w: seq<Item>, t: seq<Item>, seqNo: nat, length: nat, end: nat)
    requires forall i :: 0 <= i < |t| ==> t[i].part.seqNo != seqNo
    ensures CompleteFrom(w + t, seqNo, length, end) == CompleteFrom(w, seqNo, length, end)
    decreases |w| + |t|
  {
    if w == [] {
      assert w + t == t;
      if t != [] {
        WalkIgnoresOthers(w, t[1..], seqNo, length, end);
        assert w + t[1..] == t[1..];
      }
    } else {
      assert (w + t)[1..] == w[1..] + t;
      var end' := if w[0].part.End() > end then w[0].part.End() else end;
      WalkIgnoresOthers(w[1..], t, seqNo, length, end);
      WalkIgnoresOthers(w[1..], t, seqNo, length, end');
    }
  }

  /** A complete message reassembles to its sender's body when the fragments read are all
      of that message, and the following queued messages differ from it in number. */
  lemma ReassemblyExact(q: seq<Item>, expected: nat, body: seq<nat>)
    requires |q| - FirstUnhandled(q) <= MAX_DEFRAGMENT_PACKETS
    requires Window(q) != [] && HasComplete(q, Window(q)[0].part.msgType, expected)
    requires Window(q)[0].part.length == |body|
    requires var w := Window(q); var n := |SameTypeRun(w, w[0].part.msgType)|;
             && PiecesOf(SameTypeRun(w, w[0].part.msgType), expected, body)
             && (n <= |w| ==> forall i :: n <= i < |w| ==> w[i].part.seqNo != expected)
    ensures Defragment(Window(q)) == Some(body)
  {
    var w := Window(q);
    var t := w[0].part.msgType;
    var run := SameTypeRun(w, t);
    RunPrefix(w, t);
    var first := w[0].part;
    WalkIgnoresOthers(run, w[|run|..], expected, |body|, 0);
    assert w == run + w[|run|..];
    assert run == [w[0]] + SameTypeRun(w[1..], t);
    assert run[0] == w[0] && run[1..] == SameTypeRun(w[1..], t);
    assert first.offset == 0;
    assert first.bytes == body[..first.End()];
    AssembleFollowsWalk(run[1..], expected, body, first.End());
  }

  lemma {:induction false} RunPrefix(w: seq<Item>, t: MessageType)
    ensures |SameTypeRun(w, t)| <= |w| && SameTypeRun(w, t) == w[..|SameTypeRun(w, t)|]
    decreases |w|
  {
    if w != [] && w[0].part.msgType == t {
      RunPrefix(w[1..], t);
    }
  }

  // ----- Where order and neighbours do matter -----

  /** Fragments of two different fragmentations may share a key, and then the first to
      arrive wins: here the message ends complete in one order and not in the other. */
  lemma MixedFragmentationsDependOnOrder()
    ensures var short := Item(Part(Certificate, 0, 3, 0, [7]), 2, 0, false);
            var long := Item(Part(Certificate, 0, 3, 0, [7, 8]), 2, 1, false);
            var last := Item(Part(Certificate, 0, 3, 2, [9]), 2, 2, false);
            && HasComplete(InsertAll([], 0, false, 10, [long, short, last]), Certificate, 0)
            && !HasComplete(InsertAll([], 0, false, 10, [short, long, last]), Certificate, 0)
  {
    var short := Item(Part(Certificate, 0, 3, 0, [7]), 2, 0, false);
    var long := Item(Part(Certificate, 0, 3, 0, [7, 8]), 2, 1, false);
    var last := Item(Part(Certificate, 0, 3, 2, [9]), 2, 2, false);
    InsertThree(long, short, last);
    InsertThree(short, long, last);
    assert Insert([long], 0, false, 10, short) == [long];
    assert Insert([short], 0, false, 10, long) == [short];
    assert Position([long], last.part) == 1 + Position([], last.part);
    assert Position([short], last.part) == 1 + Position([], last.part);
    assert Insert([long], 0, false, 10, last) == [long, last];
    assert Insert([short], 0, false, 10, last) == [short, last];
    assert Window([long, last]) == [long, last] && Window([short, last]) == [short, last];
    assert [long, last][1..] == [last] && [short, last][1..] == [last];
    assert CompleteFrom([last], 0, 3, 2);
    assert !CompleteFrom([last], 0, 3, 1);
  }

  lemma InsertThree(a: Item, b: Item, c: Item)
    requires a.part.seqNo == b.part.seqNo == c.part.seqNo == 0
    ensures InsertAll([], 0, false, 10, [a, b, c])
            == Insert(Insert([a], 0, false, 10, b), 0, false, 10, c)
  {
    assert [a, b, c][1..] == [b, c] && [b, c][1..] == [c] && [c][1..] == [];
    assert Insert([], 0, false, 10, a) == [a];
    var q := Insert([a], 0, false, 10, b);
    assert InsertAll(q, 0, false, 10, [c]) == Insert(q, 0, false, 10, c);
  }

  /** Reassembly stops at a change of type, not of number: a second KeyUpdate queued right
      behind the first is consumed with it and its byte is never looked at. */
  lemma NeighbourSwallowed(first: nat, second: nat)
    ensures var q := [Item(Part(KeyUpdate, 5, 1, 0, [first]), 3, 0, false),
                      Item(Part(KeyUpdate, 6, 1, 0, [second]), 3, 1, false)];
            && HasComplete(q, KeyUpdate, 5)
            && Defragment(Window(q)) == Some([first])
            && Consumed(Window(q), KeyUpdate) == [q[0].(handled := true), q[1].(handled := true)]
  {
    var a := Item(Part(KeyUpdate, 5, 1, 0, [first]), 3, 0, false);
    var b := Item(Part(KeyUpdate, 6, 1, 0, [second]), 3, 1, false);
    var q := [a, b];
    assert q[1..] == [b] && [b][1..] == [];
    assert SameTypeRun([b], KeyUpdate) == [b];
    assert Assemble([b], [first], 1) == [first];
    assert Consumed([b], KeyUpdate) == [b.(handled := true)];
  }

  /** How many fragments at the front are of message `seqNo`. */
  function OwnCount(w: seq<Item>, seqNo: nat): (n: nat)
    ensures n <= |w| && (forall i :: 0 <= i < n ==> w[i].part.seqNo == seqNo)
    ensures n < |w| ==> w[n].part.seqNo != seqNo
  {
    if w == [] || w[0].part.seqNo != seqNo then 0 else 1 + OwnCount(w[1..], seqNo)
  }

  /** Reading the message at the front marks a fragment of another one as read. */
  predicate Swallows(w: seq<Item>, wanted: MessageType, seqNo: nat) {
    exists i :: 0 <= i < |SameTypeRun(w, wanted)| && i < |w| && w[i].part.seqNo != seqNo
  }

  lemma {:induction false} ConsumedAt(w: seq<Item>, t: MessageType)
    ensures |Consumed(w, t)| == |w|
    ensures forall i :: 0 <= i < |w| ==>
              Consumed(w, t)[i] == if i < |SameTypeRun(w, t)| then w[i].(handled := true) else w[i]
    decreases |w|
  {
    if w != [] && w[0].part.msgType == t {
      ConsumedAt(w[1..], t);
    }
  }

  /** The run ends at the first fragment of another type. */
  lemma {:induction false} RunReaches(w: seq<Item>, t: MessageType, n: nat)
    requires n < |w|
    ensures n < |SameTypeRun(w, t)| <==> forall i :: 0 <= i <= n ==> w[i].part.msgType == t
    decreases |w|
  {
    if w[0].part.msgType == t && n > 0 {
      RunReaches(w[1..], t, n - 1);
      assert (forall i :: 0 <= i <= n ==> w[i].part.msgType == t)
        <==> (forall i :: 0 <= i <= n - 1 ==> w[1..][i].part.msgType == t) by {
        if forall i :: 0 <= i <= n - 1 ==> w[1..][i].part.msgType == t {
          forall i | 0 <= i <= n
            ensures w[i].part.msgType == t
          {
            assert i > 0 ==> w[i] == w[1..][i - 1];
          }
        }
      }
    }
  }

  /** Reading a complete message marks what the type-run covers, and that takes in a fragment
      of another message exactly when the one queued right behind its own fragments is there
      and has, like all of these, its type. */
  lemma SwallowExact(q: seq<Item>, wanted: MessageType, expected: nat)
    requires HasComplete(q, wanted, expected)
    ensures var w := q[FirstUnhandled(q)..]; var n := OwnCount(w, expected);
            && |Consumed(w, wanted)| == |w|
            && (forall i :: 0 <= i < |w| ==>
                  Consumed(w, wanted)[i] == if i < |SameTypeRun(w, wanted)| then w[i].(handled := true) else w[i])
            && (Swallows(w, wanted, expected) <==> n < |w| && forall i :: 0 <= i <= n ==> w[i].part.msgType == wanted)
  {
    var w := q[FirstUnhandled(q)..];
    var n := OwnCount(w, expected);
    ConsumedAt(w, wanted);
    if n < |w| {
      RunReaches(w, wanted, n);
    }
  }

  // ----- The queue as the engine holds it -----

  class HandshakeQueue {
    var queueRx: seq<Item>
    var peerSeq: nat
    var released: bool
    const maxQueue: nat

    constructor (maxQueue: nat)
      ensures queueRx == [] && peerSeq == 0 && !released && this.maxQueue == maxQueue
    {
      queueRx := [];
      peerSeq := 0;
      released := false;
      this.maxQueue := maxQueue;
    }

    method Search(part: Part) returns (found: bool, index: nat)
      requires Sorted(queueRx)
      ensures index == Position(queueRx, part)
      ensures found <==> index < |queueRx| && queueRx[index].part.SameKey(part)
    {
      var low, high := 0, |queueRx|;
      while low < high
        invariant low <= high <= |queueRx|
        invariant forall j :: 0 <= j < low ==> queueRx[j].part.Before(part)
        invariant forall j :: high <= j < |queueRx| ==> part.Before(queueRx[j].part)
      {
        var mid := (low + high) / 2;
        if queueRx[mid].part.Before(part) {
          low := mid + 1;
        } else if part.Before(queueRx[mid].part) {
          high := mid;
        } else {
          return true, mid;
        }
      }
      PositionIs(queueRx, part, low);
      return false, low;
    }

    method InsertIncomingHandshake(item: Item) returns (arrival: Arrival)
      requires Sorted(queueRx)
      modifies this`queueRx
      ensures arrival == Classify(old(queueRx), peerSeq, released, maxQueue, item)
      ensures queueRx == Insert(old(queueRx), peerSeq, released, maxQueue, item)
      ensures Sorted(queueRx)
    {
      InsertKeepsSorted(queueRx, peerSeq, released, maxQueue, item);
      if |queueRx| >= maxQueue {
        return QueueFull;
      }
      if item.part.seqNo < peerSeq {
        return AlreadyProcessed;
      }
      if released && item.part.msgType != KeyUpdate {
        return Renegotiation;
      }
      var found, index := Search(item.part);
      if !found {
        queueRx := queueRx[..index] + [item] + queueRx[index..];
        return Inserted(index);
      }
      var existing := queueRx[index];
      if existing.handled || (existing.part.length != |existing.part.bytes| && item.part.length == |item.part.bytes|) {
        queueRx := queueRx[index := item];
        return Replaced(index);
      }
      return Duplicate;
    }

    /** Index of the first unhandled fragment, and the end of the window behind it. */
    method Head() returns (first: nat, limit: nat)
      ensures first == FirstUnhandled(queueRx) && first <= limit <= |queueRx|
      ensures queueRx[first..limit] == Window(queueRx)
    {
      first := 0;
      while first < |queueRx| && queueRx[first].handled
        invariant first <= |queueRx|
        invariant forall j :: 0 <= j < first ==> queueRx[j].handled
      {
        first := first + 1;
      }
      limit := if |queueRx| - first > MAX_DEFRAGMENT_PACKETS then first + MAX_DEFRAGMENT_PACKETS else |queueRx|;
    }

    method HasCompleteHandshakeWithSeq(wanted: MessageType, expected: nat) returns (complete: bool)
      ensures complete == HasComplete(queueRx, wanted, expected)
    {
      var first, limit := Head();
      if first == limit {
        return false;
      }
      var head := queueRx[first].part;
      if head.seqNo != expected {
        return false;
      }
      if head.msgType != wanted {
        return false;
      }
      var lastFragmentEnd: nat := 0;
      var i := first;
      while i < limit
        invariant first <= i <= limit
        invariant CompleteFrom(queueRx[first..limit], expected, head.length, 0)
                  == CompleteFrom(queueRx[i..limit], expected, head.length, lastFragmentEnd)
      {
        var h := queueRx[i].part;
        assert queueRx[i..limit][0].part == h && queueRx[i..limit][1..] == queueRx[i + 1..limit];
        CompleteStep(queueRx[i..limit], h, queueRx[i + 1..limit], expected, head.length, lastFragmentEnd);
        i := i + 1;
        if expected != h.seqNo {
          continue;
        }
        if h.offset > lastFragmentEnd {
          return false;
        }
        if h.End() > lastFragmentEnd {
          lastFragmentEnd := h.End();
        }
        if lastFragmentEnd == head.length {
          return true;
        }
      }
      complete := false;
    }

    method HandshakeAckHelpNeeded() returns (needed: bool)
      ensures needed == AckHelpNeeded(queueRx, peerSeq)
    {
      var first, limit := Head();
      if first == limit {
        return false;
      }
      var head := queueRx[first].part;
      if head.seqNo != peerSeq {
        return true;
      }
      var lastFragmentEnd: nat := 0;
      var i := first;
      while i < limit
        invariant first <= i <= limit
        invariant HelpFrom(queueRx[first..limit], peerSeq, head.length, 0)
                  == HelpFrom(queueRx[i..limit], peerSeq, head.length, lastFragmentEnd)
      {
        var h := queueRx[i].part;
        assert queueRx[i..limit][1..] == queueRx[i + 1..limit];
        i := i + 1;
        if head.seqNo != h.seqNo {
          continue;
        }
        if h.offset > lastFragmentEnd {
          return true;
        }
        if h.End() > lastFragmentEnd {
          lastFragmentEnd := h.End();
        }
        if lastFragmentEnd == head.length {
          return false;
        }
      }
      needed := true;
    }

    method HasGapInIncomingHandshake() returns (gap: bool)
      ensures gap == HasGap(queueRx, peerSeq)
    {
      var first, limit := Head();
      if first == limit {
        return false;
      }
      var head := queueRx[first].part;
      if head.seqNo != peerSeq {
        return true;
      }
      var lastFragmentEnd: nat := 0;
      var i := first;
      while i < limit
        invariant first <= i <= limit
        invariant GapFrom(queueRx[first..limit], peerSeq, head.length, 0)
                  == GapFrom(queueRx[i..limit], peerSeq, head.length, lastFragmentEnd)
      {
        var h := queueRx[i].part;
        assert queueRx[i..limit][1..] == queueRx[i + 1..limit];
        i := i + 1;
        if head.seqNo != h.seqNo {
          continue;
        }
        if h.offset > lastFragmentEnd {
          return true;
        }
        if h.End() > lastFragmentEnd {
          lastFragmentEnd := h.End();
        }
        if lastFragmentEnd == head.length {
          return false;
        }
      }
      gap := false;
    }

    /** Read the wanted message off the queue, marking everything read as handled. */
    method NextHandshake(wanted: MessageType) returns (body: Option<seq<nat>>)
      modifies this`queueRx
      ensures var q := old(queueRx); var u := FirstUnhandled(q);
              if !HasComplete(q, wanted, peerSeq) then body == None && queueRx == q
              else body == Defragment(q[u..]) && queueRx == q[..u] + Consumed(q[u..], wanted)
    {
      var complete := HasCompleteHandshakeWithSeq(wanted, peerSeq);
      if !complete {
        return None;
      }
      var first, _ := Head();
      var consumed: seq<Item>;
      body, consumed := ReadMessage(queueRx[first..]);
      queueRx := queueRx[..first] + consumed;
    }
  }

  /** Reassemble the message at the head of `w`, marking everything read as handled. */
  method ReadMessage(w: seq<Item>) returns (body: Option<seq<nat>>, marked: seq<Item>)
    requires w != []
    ensures body == Defragment(w) && marked == Consumed(w, w[0].part.msgType)
  {
    var head := w[0].part;
    var buffer := head.bytes;
    marked := [w[0].(handled := true)];
    var assembledEnd: nat := head.End();
    var i := 1;
    while i < |w| && w[i].part.msgType == head.msgType
      invariant 1 <= i <= |w|
      invariant marked + Consumed(w[i..], head.msgType) == Consumed(w, head.msgType)
      invariant Assemble(SameTypeRun(w[1..], head.msgType), head.bytes, head.End())
                == Assemble(SameTypeRun(w[i..], head.msgType), buffer, assembledEnd)
    {
      ReadStep(w[i..], head.msgType, buffer, assembledEnd);
      assert w[i..][1..] == w[i + 1..];
      var p := w[i].part;
      var skip := if assembledEnd > p.offset then assembledEnd - p.offset else 0;
      if skip < |p.bytes| {
        buffer := buffer + p.bytes[skip..];
      }
      if p.End() > assembledEnd {
        assembledEnd := p.End();
      }
      marked := marked + [w[i].(handled := true)];
      i := i + 1;
    }
    assert marked + w[i..] == Consumed(w, head.msgType);
    marked := marked + w[i..];
    body := if |buffer| == head.length then Some(buffer) else None;
  }

  lemma ReadStep(w: seq<Item>, t: MessageType, buffer: seq<nat>, end: nat)
    requires w != [] && w[0].part.msgType == t
    ensures var p := w[0].part;
            var skip := if end > p.offset then end - p.offset else 0;
            Assemble(SameTypeRun(w, t), buffer, end)
            == Assemble(SameTypeRun(w[1..], t), if skip < |p.bytes| then buffer + p.bytes[skip..] else buffer,
                        if p.End() > end then p.End() else end)
    ensures Consumed(w, t) == [w[0].(handled := true)] + Consumed(w[1..], t)
  {
    assert SameTypeRun(w, t) == [w[0]] + SameTypeRun(w[1..], t);
    assert SameTypeRun(w, t)[1..] == SameTypeRun(w[1..], t);
    assert buffer + [] == buffer;
  }
}
