/** 64-bit words as their bits, least significant first, with the word operations of the
    replay bitmap. */
module Words {

  const WIDTH := 64

  type Word = w: seq<bool> | |w| == WIDTH witness seq(WIDTH, i => false)

  const ZERO: Word := seq(WIDTH, i => false)
  const ONE: Word := seq(WIDTH, i => i == 0)

  function ShiftLeft(w: Word, d: nat): Word {
    seq(WIDTH, i requires 0 <= i < WIDTH => d <= i && w[i - d])
  }

  function Or(w: Word, v: Word): Word {
    seq(WIDTH, i requires 0 <= i < WIDTH => w[i] || v[i])
  }

  function And(w: Word, v: Word): Word {
    seq(WIDTH, i requires 0 <= i < WIDTH => w[i] && v[i])
  }

  /** Masking with `1 << d` tests bit `d`. */
  lemma MaskTests(w: Word, d: nat)
    requires d < WIDTH
    ensures And(w, ShiftLeft(ONE, d)) == ZERO <==> !w[d]
  {
    var masked := And(w, ShiftLeft(ONE, d));
    assert masked[d] == w[d];
  }
}

/** The anti-replay window of a record epoch: a 64-bit bitmap in `ReplayWindow`, and the
    unbounded history it stands for in `History`. */
module ReplayWindows {
  import opened Words

  /** Every number recorded so far, and the largest of them (0 when there is none). */
  datatype History = History(newest: nat, seen: set<nat>) {

    ghost predicate Valid() {
      && (forall n :: n in seen ==> n <= newest)
      && (newest == 0 || newest in seen)
    }

    predicate Accepts(n: nat) {
      n > newest || (newest - n < WIDTH && n !in seen)
    }

    function Record(n: nat): History {
      History(if n > newest then n else newest, seen + {n})
    }
  }

  const NOTHING_SEEN := History(0, {})

  /** One arriving record: its number, and whether it decrypts. */
  datatype Arrival = Arrival(number: nat, authentic: bool)

  /** Check, decrypt, and only then update: the numbers let through by a run of arrivals. */
  function Passed(h: History, arrivals: seq<Arrival>): seq<nat>
    decreases |arrivals|
  {
    if arrivals == [] then []
    else
      var a := arrivals[0];
      if h.Accepts(a.number) && a.authentic
      then [a.number] + Passed(h.Record(a.number), arrivals[1..])
      else Passed(h, arrivals[1..])
  }

  ghost predicate Distinct(s: seq<nat>) {
    forall i, j :: 0 <= i < j < |s| ==> s[i] != s[j]
  }

  /** No number passes twice in any run, nor at all if it had passed before the run. */
  lemma {:induction false} NeverTwice(h: History, arrivals: seq<Arrival>)
    requires h.Valid()
    ensures Distinct(Passed(h, arrivals))
    ensures forall n :: n in Passed(h, arrivals) ==> n !in h.seen
    decreases |arrivals|
  {
    if arrivals != [] {
      var a := arrivals[0];
      if h.Accepts(a.number) && a.authentic {
        NeverTwice(h.Record(a.number), arrivals[1..]);
      } else {
        NeverTwice(h, arrivals[1..]);
      }
    }
  }

  function Authentic(arrivals: seq<Arrival>): seq<Arrival> {
    if arrivals == [] then []
    else (if arrivals[0].authentic then [arrivals[0]] else []) + Authentic(arrivals[1..])
  }

  /** A record that fails to decrypt leaves no trace, wherever its number points: a run
      lets through what it would let through without such records. */
  lemma {:induction false} ForgeriesLeaveNoTrace(h: History, arrivals: seq<Arrival>)
    ensures Passed(h, arrivals) == Passed(h, Authentic(arrivals))
    decreases |arrivals|
  {
    if arrivals != [] {
      var a := arrivals[0];
      var rest := Authentic(arrivals[1..]);
      ForgeriesLeaveNoTrace(h, arrivals[1..]);
      ForgeriesLeaveNoTrace(h.Record(a.number), arrivals[1..]);
      if a.authentic {
        assert Authentic(arrivals) == [a] + rest;
        assert ([a] + rest)[1..] == rest;
      } else {
        assert Authentic(arrivals) == rest;
        assert Passed(h, arrivals) == Passed(h, arrivals[1..]);
      }
    }
  }

  class ReplayWindow {
    var maxSeq: nat
    var window: Word
    ghost var history: History

    /** The bitmap mirrors the history: bit `i` is set exactly when `maxSeq - i` was
        recorded, however far the window has moved. */
    ghost predicate Valid()
      reads this
    {
      && history.Valid()
      && history.newest == maxSeq
      && forall i :: 0 <= i < WIDTH ==> (window[i] <==> i <= maxSeq && maxSeq - i in history.seen)
    }

    constructor ()
      ensures Valid() && history == NOTHING_SEEN
    {
      maxSeq := 0;
      window := ZERO;
      history := NOTHING_SEEN;
    }

    method Check(seqno: nat) returns (unseen: bool)
      requires Valid()
      ensures unseen == history.Accepts(seqno)
    {
      if seqno > maxSeq {
        unseen := true;
      } else {
        var offset := maxSeq - seqno;
        if offset >= WIDTH {
          return false;
        }
        var mask := ShiftLeft(ONE, offset);
        MaskTests(window, offset);
        unseen := And(window, mask) == ZERO;
      }
    }

    method Update(seqno: nat)
      requires Valid()
      modifies this
      ensures Valid() && history == old(history).Record(seqno)
    {
      if seqno > maxSeq {
        var delta := seqno - maxSeq;
        if delta > 63 {
          window := ONE;
        } else {
          window := ShiftLeft(window, delta);
          window := Or(window, ONE);
        }
        maxSeq := seqno;
      } else {
        var offset := maxSeq - seqno;
        if offset < WIDTH {
          window := Or(window, ShiftLeft(ONE, offset));
        }
      }
      history := history.Record(seqno);
    }
  }
}
