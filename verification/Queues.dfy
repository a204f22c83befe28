/** Queues of datagrams, seen record by record. */
module Queues {
  /** The records of a queue of datagrams, in order. */
  function Flat<T>(queue: seq<seq<T>>): seq<T> {
    if queue == [] then [] else Flat(queue[..|queue| - 1]) + queue[|queue| - 1]
  }

  lemma {:induction false} FlatConcat<T>(a: seq<seq<T>>, b: seq<seq<T>>)
    ensures Flat(a + b) == Flat(a) + Flat(b)
    decreases |b|
  {
    if b == [] {
      assert a + b == a;
    } else {
      var last := |b| - 1;
      assert (a + b)[..|a + b| - 1] == a + b[..last];
      FlatConcat(a, b[..last]);
    }
  }

  lemma FlatLast<T>(queue: seq<seq<T>>, d: seq<T>)
    ensures Flat(queue + [d]) == Flat(queue) + d
  {
    assert (queue + [d])[..|queue|] == queue;
  }

  /** A record that joins the last datagram, or starts the next one. */
  lemma {:induction false} FlatJoined<T>(queue: seq<seq<T>>, r: T, n: nat)
    requires n < |queue|
    ensures var last := |queue| - 1;
            Flat(queue[last := queue[last] + [r]][n..]) == Flat(queue[n..]) + [r]
  {
    var last := |queue| - 1;
    var front, d := queue[n..last], queue[last];
    FlatLast(front, d);
    FlatLast(front, d + [r]);
    assert queue[n..] == front + [d];
    assert queue[last := d + [r]][n..] == front + [d + [r]];
  }

  lemma {:induction false} FlatStarted<T>(queue: seq<seq<T>>, r: T, n: nat)
    requires n <= |queue|
    ensures Flat((queue + [[r]])[n..]) == Flat(queue[n..]) + [r]
  {
    FlatLast(queue[n..], [r]);
    assert (queue + [[r]])[n..] == queue[n..] + [[r]];
  }

  /** What leaves in two stretches. */
  lemma Chained<T>(a: seq<T>, b: seq<T>, before: seq<T>, mid: seq<T>, end: seq<T>, first: seq<T>, second: seq<T>)
    requires a + mid == before + first && b + end == mid + second
    ensures (a + b) + end == before + (first + second)
  {
    assert (a + b) + end == a + (b + end);
    assert a + (mid + second) == (a + mid) + second;
    assert (before + first) + second == before + (first + second);
  }
}
