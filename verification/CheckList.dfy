/** ICE candidate pairs: their priorities, the check list both agents build, and the best
    pair that succeeded. */
module CheckList {
  import opened Handshakes

  datatype CandidateType = Host | Srflx | Relay
  datatype IceRole = Controlling | Controlled
  datatype CheckState = Waiting | InProgress | Succeeded | Failed

  /** A candidate by the fields the check list looks at. */
  datatype Candidate = Candidate(address: nat, port: nat, priority: nat)

  datatype Pair = Pair(local: Candidate, remote: Candidate, state: CheckState, priority: nat)

  const TWO_TO_31: nat := 0x8000_0000
  const TWO_TO_32: nat := 0x1_0000_0000
  const MAX_U32: nat := 0xFFFF_FFFF
  const MAX_U64: nat := 0xFFFF_FFFF_FFFF_FFFF

  function CandidatePriority(t: CandidateType): nat {
    var typePref := match t case Host => 126 case Srflx => 110 case Relay => 0;
    typePref * 0x100_0000 + (256 - 1)
  }

  // ----- Pair priorities -----

  function Min(a: nat, b: nat): nat {
    if a < b then a else b
  }

  function Max(a: nat, b: nat): nat {
    if a < b then b else a
  }

  /** In unbounded arithmetic; `PriorityFits` says when the 64-bit sum is this. */
  function PairPriority(local: nat, remote: nat, role: IceRole): nat {
    var (g, d) := if role.Controlling? then (local, remote) else (remote, local);
    TWO_TO_32 * Min(g, d) + 2 * Max(g, d) + (if g > d then 1 else 0)
  }

  /** Of all pairs of 32-bit priorities exactly one overflows 64 bits. */
  lemma PriorityFits(local: nat, remote: nat, role: IceRole)
    requires local <= MAX_U32 && remote <= MAX_U32
    ensures PairPriority(local, remote, role) <= MAX_U64 <==> !(local == MAX_U32 && remote == MAX_U32)
  {
  }

  /** Both agents give a pair the same priority. */
  lemma AgentsAgreeOnPair(a: nat, b: nat)
    ensures PairPriority(a, b, Controlling) == PairPriority(b, a, Controlled)
  {
  }

  /** Smaller priority first, then the larger one, then whether the controlling side's is
      the larger. */
  predicate Below(g: nat, d: nat, g': nat, d': nat) {
    || Min(g, d) < Min(g', d')
    || (Min(g, d) == Min(g', d') && Max(g, d) < Max(g', d'))
    || (Min(g, d) == Min(g', d') && Max(g, d) == Max(g', d') && g <= d && g' > d')
  }

  /** The same for the local and the remote priority of the agent in a role. */
  predicate BelowFor(role: IceRole, local: nat, remote: nat, local': nat, remote': nat) {
    if role.Controlling? then Below(local, remote, local', remote') else Below(remote, local, remote', local')
  }

  /** The pair priorities of an agent in the role order these two pairs so. */
  predicate Ordered(role: IceRole, local: nat, remote: nat, local': nat, remote': nat) {
    PairPriority(local, remote, role) < PairPriority(local', remote', role)
    <==> BelowFor(role, local, remote, local', remote')
  }

  /** Priorities up to 2^31 order pairs so. */
  lemma PriorityOrders(role: IceRole, local: nat, remote: nat, local': nat, remote': nat)
    requires local <= TWO_TO_31 && remote <= TWO_TO_31 && local' <= TWO_TO_31 && remote' <= TWO_TO_31
    ensures Ordered(role, local, remote, local', remote')
  {
    var m, n := Min(local, remote), Min(local', remote');
    if m < n {
      assert TWO_TO_32 * (m + 1) <= TWO_TO_32 * n;
    } else if n < m {
      assert TWO_TO_32 * (n + 1) <= TWO_TO_32 * m;
    }
  }

  /** The pair priority of an agent in the role tells these two pairs apart. */
  predicate ToldApart(role: IceRole, local: nat, remote: nat, local': nat, remote': nat) {
    PairPriority(local, remote, role) == PairPriority(local', remote', role) <==> local == local' && remote == remote'
  }

  lemma PriorityIdentifies(role: IceRole, local: nat, remote: nat, local': nat, remote': nat)
    requires local <= TWO_TO_31 && remote <= TWO_TO_31 && local' <= TWO_TO_31 && remote' <= TWO_TO_31
    ensures ToldApart(role, local, remote, local', remote')
  {
    var m, n := Min(local, remote), Min(local', remote');
    if m < n {
      assert TWO_TO_32 * (m + 1) <= TWO_TO_32 * n;
    } else if n < m {
      assert TWO_TO_32 * (n + 1) <= TWO_TO_32 * m;
    }
  }

  /** The priorities an agent gives its own candidates are within that bound, and rank host
      above server reflexive above relayed ones: so the pairs of two agents that give theirs
      alike are ordered as they should be. */
  lemma OwnPrioritiesOrder(role: IceRole, a: CandidateType, b: CandidateType, c: CandidateType, d: CandidateType)
    ensures CandidatePriority(Host) > CandidatePriority(Srflx) > CandidatePriority(Relay)
    ensures var p, q, r, s := CandidatePriority(a), CandidatePriority(b), CandidatePriority(c), CandidatePriority(d);
            Ordered(role, p, q, r, s) && ToldApart(role, p, q, r, s)
  {
    var p, q, r, s := CandidatePriority(a), CandidatePriority(b), CandidatePriority(c), CandidatePriority(d);
    PriorityOrders(role, p, q, r, s);
    PriorityIdentifies(role, p, q, r, s);
  }

  /** With priorities up to `bound` the pair priorities of both roles order every two pairs by
      smaller, larger and controlling side's priority exactly when the bound is at most 2^31:
      above it the pair of `bound` and 0 is not below that of 1 and 1. */
  lemma OrderExact(role: IceRole, bound: nat)
    requires bound <= MAX_U32
    ensures (forall local, remote, local', remote' | 0 <= local <= bound && 0 <= remote <= bound
                                                     && 0 <= local' <= bound && 0 <= remote' <= bound ::
               Ordered(role, local, remote, local', remote'))
            <==> bound <= TWO_TO_31
  {
    if bound <= TWO_TO_31 {
      forall local, remote, local', remote' | 0 <= local <= bound && 0 <= remote <= bound
                                              && 0 <= local' <= bound && 0 <= remote' <= bound
        ensures Ordered(role, local, remote, local', remote')
      {
        PriorityOrders(role, local, remote, local', remote');
      }
    } else {
      assert !Ordered(role, bound, 0, 1, 1);
    }
  }

  /** Far above it the larger priority outweighs the smaller one. */
  lemma HighPrioritiesMisorder()
    ensures var g, d, g', d' := 1, TWO_TO_32 - 1, 2, 2;
            Below(g, d, g', d') && PairPriority(g, d, Controlling) > PairPriority(g', d', Controlling)
  {
  }

  /** And exactly then no two pairs have the same priority: above it a pair of 2^31 + 1 and 0
      has that of 1 and 1. */
  lemma IdentityExact(role: IceRole, bound: nat)
    requires bound <= MAX_U32
    ensures (forall local, remote, local', remote' | 0 <= local <= bound && 0 <= remote <= bound
                                                     && 0 <= local' <= bound && 0 <= remote' <= bound ::
               ToldApart(role, local, remote, local', remote'))
            <==> bound <= TWO_TO_31
  {
    if bound <= TWO_TO_31 {
      forall local, remote, local', remote' | 0 <= local <= bound && 0 <= remote <= bound
                                              && 0 <= local' <= bound && 0 <= remote' <= bound
        ensures ToldApart(role, local, remote, local', remote')
      {
        PriorityIdentifies(role, local, remote, local', remote');
      }
    } else if role.Controlling? {
      assert !ToldApart(role, 0, TWO_TO_31 + 1, 1, 1);
    } else {
      assert !ToldApart(role, TWO_TO_31 + 1, 0, 1, 1);
    }
  }

  // ----- The check list -----

  function MakePair(l: Candidate, r: Candidate, role: IceRole): Pair {
    Pair(l, r, Waiting, PairPriority(l.priority, r.priority, role))
  }

  /** The pairs of one local candidate with every remote one. */
  function PairsOf(l: Candidate, remote: seq<Candidate>, role: IceRole): seq<Pair> {
    seq(|remote|, j requires 0 <= j < |remote| => MakePair(l, remote[j], role))
  }

  function AllPairs(local: seq<Candidate>, remote: seq<Candidate>, role: IceRole): seq<Pair> {
    if local == [] then [] else AllPairs(local[..|local| - 1], remote, role) + PairsOf(local[|local| - 1], remote, role)
  }

  /** Where a stable descending sort puts `p` when everything in `sorted` came before it. */
  function InsertAfter(sorted: seq<Pair>, p: Pair): seq<Pair> {
    if sorted == [] then [p]
    else if sorted[|sorted| - 1].priority >= p.priority then sorted + [p]
    else InsertAfter(sorted[..|sorted| - 1], p) + [sorted[|sorted| - 1]]
  }

  function StableSort(pairs: seq<Pair>): seq<Pair> {
    if pairs == [] then [] else InsertAfter(StableSort(pairs[..|pairs| - 1]), pairs[|pairs| - 1])
  }

  function CheckListOf(local: seq<Candidate>, remote: seq<Candidate>, role: IceRole): seq<Pair> {
    StableSort(AllPairs(local, remote, role))
  }

  ghost predicate Descending(pairs: seq<Pair>) {
    forall i, j :: 0 <= i < j < |pairs| ==> pairs[i].priority >= pairs[j].priority
  }

  lemma {:induction false} InsertAfterHolds(sorted: seq<Pair>, p: Pair)
    ensures multiset(InsertAfter(sorted, p)) == multiset(sorted) + multiset{p}
    decreases |sorted|
  {
    if sorted != [] && sorted[|sorted| - 1].priority < p.priority {
      var front, last := sorted[..|sorted| - 1], sorted[|sorted| - 1];
      assert sorted == front + [last];
      InsertAfterHolds(front, p);
    }
  }

  /** Everything there and the new pair at least as good as `last`: so is what they make. */
  lemma InsertAfterBounded(front: seq<Pair>, p: Pair, last: Pair)
    requires p.priority >= last.priority && forall q :: q in front ==> q.priority >= last.priority
    ensures forall q :: q in InsertAfter(front, p) ==> q.priority >= last.priority
  {
    InsertAfterHolds(front, p);
    forall q | q in InsertAfter(front, p)
      ensures q.priority >= last.priority
    {
      assert q in multiset(InsertAfter(front, p));
      assert q in front || q == p;
    }
  }

  lemma {:induction false} InsertAfterSorts(sorted: seq<Pair>, p: Pair)
    requires Descending(sorted)
    ensures Descending(InsertAfter(sorted, p))
    decreases |sorted|
  {
    if sorted != [] && sorted[|sorted| - 1].priority < p.priority {
      var front, last := sorted[..|sorted| - 1], sorted[|sorted| - 1];
      InsertAfterSorts(front, p);
      InsertAfterBounded(front, p, last);
    }
  }

  lemma {:induction false} StableSortSorts(pairs: seq<Pair>)
    ensures Descending(StableSort(pairs)) && multiset(StableSort(pairs)) == multiset(pairs)
    decreases |pairs|
  {
    if pairs != [] {
      var front := pairs[..|pairs| - 1];
      assert pairs == front + [pairs[|pairs| - 1]];
      StableSortSorts(front);
      InsertAfterSorts(StableSort(front), pairs[|pairs| - 1]);
      InsertAfterHolds(StableSort(front), pairs[|pairs| - 1]);
    }
  }

  /** Nested loops push every pair, and a sort puts the best first. */
  method BuildCheckList(local: seq<Candidate>, remote: seq<Candidate>, role: IceRole) returns (pairs: seq<Pair>)
    ensures pairs == CheckListOf(local, remote, role)
    ensures Descending(pairs) && multiset(pairs) == multiset(AllPairs(local, remote, role))
  {
    var pushed: seq<Pair> := [];
    for i := 0 to |local|
      invariant pushed == AllPairs(local[..i], remote, role)
    {
      for j := 0 to |remote|
        invariant pushed == AllPairs(local[..i], remote, role) + PairsOf(local[i], remote[..j], role)
      {
        pushed := pushed + [MakePair(local[i], remote[j], role)];
        assert PairsOf(local[i], remote[..j + 1], role)
               == PairsOf(local[i], remote[..j], role) + [MakePair(local[i], remote[j], role)];
      }
      assert remote[..|remote|] == remote && local[..i + 1][..i] == local[..i];
    }
    assert local[..|local|] == local;
    StableSortSorts(pushed);
    pairs := SortByPriority(pushed);
  }

  /** The library's stable sort, best first. */
  method SortByPriority(pairs: seq<Pair>) returns (sorted: seq<Pair>)
    ensures sorted == StableSort(pairs)
  {
    sorted := [];
    for i := 0 to |pairs|
      invariant sorted == StableSort(pairs[..i])
    {
      assert pairs[..i + 1][..i] == pairs[..i];
      sorted := InsertAfter(sorted, pairs[i]);
    }
    assert pairs[..|pairs|] == pairs;
  }

  // ----- The two agents' lists -----

  function Priorities(pairs: seq<Pair>): (ps: seq<nat>)
    ensures |ps| == |pairs|
  {
    seq(|pairs|, i requires 0 <= i < |pairs| => pairs[i].priority)
  }

  /** How many pairs have a priority. */
  function Count(pairs: seq<Pair>, priority: nat): nat {
    if pairs == [] then 0
    else Count(pairs[..|pairs| - 1], priority) + (if pairs[|pairs| - 1].priority == priority then 1 else 0)
  }

  lemma {:induction false} CountConcat(a: seq<Pair>, b: seq<Pair>, priority: nat)
    ensures Count(a + b, priority) == Count(a, priority) + Count(b, priority)
    decreases |b|
  {
    if b == [] {
      assert a + b == a;
    } else {
      assert (a + b)[..|a + b| - 1] == a + b[..|b| - 1];
      CountConcat(a, b[..|b| - 1], priority);
    }
  }

  lemma {:induction false} CountInsert(sorted: seq<Pair>, p: Pair, priority: nat)
    ensures Count(InsertAfter(sorted, p), priority)
            == Count(sorted, priority) + (if p.priority == priority then 1 else 0)
    decreases |sorted|
  {
    if sorted == [] {
      CountConcat([], [p], priority);
      assert [p][..0] == [];
    } else if sorted[|sorted| - 1].priority >= p.priority {
      assert (sorted + [p])[..|sorted|] == sorted;
    } else {
      var front, last := sorted[..|sorted| - 1], sorted[|sorted| - 1];
      CountInsert(front, p, priority);
      var r := InsertAfter(front, p) + [last];
      assert r[..|r| - 1] == InsertAfter(front, p);
    }
  }

  lemma {:induction false} CountSort(pairs: seq<Pair>, priority: nat)
    ensures Count(StableSort(pairs), priority) == Count(pairs, priority)
    decreases |pairs|
  {
    if pairs != [] {
      CountSort(pairs[..|pairs| - 1], priority);
      CountInsert(StableSort(pairs[..|pairs| - 1]), pairs[|pairs| - 1], priority);
    }
  }

  /** Adding a remote candidate adds its pair with every local one. */
  lemma {:induction false} CountColumn(
      local: seq<Candidate>, remote: seq<Candidate>, r: Candidate, role: IceRole, priority: nat)
    ensures Count(AllPairs(local, remote + [r], role), priority)
            == Count(AllPairs(local, remote, role), priority) + Count(AllPairs(local, [r], role), priority)
    decreases |local|
  {
    if local != [] {
      var front, l := local[..|local| - 1], local[|local| - 1];
      CountColumn(front, remote, r, role, priority);
      assert PairsOf(l, remote + [r], role) == PairsOf(l, remote, role) + PairsOf(l, [r], role);
      CountConcat(PairsOf(l, remote, role), PairsOf(l, [r], role), priority);
      CountConcat(AllPairs(front, remote + [r], role), PairsOf(l, remote + [r], role), priority);
      CountConcat(AllPairs(front, remote, role), PairsOf(l, remote, role), priority);
      CountConcat(AllPairs(front, [r], role), PairsOf(l, [r], role), priority);
    }
  }

  lemma CountLast(pairs: seq<Pair>, p: Pair, priority: nat)
    ensures Count(pairs + [p], priority) == Count(pairs, priority) + (if p.priority == priority then 1 else 0)
  {
    assert (pairs + [p])[..|pairs|] == pairs;
  }

  /** One remote candidate seen from one side is one local candidate seen from the other. */
  lemma {:induction false} CountOne(local: seq<Candidate>, r: Candidate, priority: nat)
    ensures Count(AllPairs(local, [r], Controlling), priority) == Count(PairsOf(r, local, Controlled), priority)
    decreases |local|
  {
    if local != [] {
      var front, l := local[..|local| - 1], local[|local| - 1];
      CountOne(front, r, priority);
      AgentsAgreeOnPair(l.priority, r.priority);
      assert PairsOf(l, [r], Controlling) == [MakePair(l, r, Controlling)];
      assert PairsOf(r, local, Controlled) == PairsOf(r, front, Controlled) + [MakePair(r, l, Controlled)];
      CountLast(AllPairs(front, [r], Controlling), MakePair(l, r, Controlling), priority);
      CountLast(PairsOf(r, front, Controlled), MakePair(r, l, Controlled), priority);
    }
  }

  lemma {:induction false} NoRemote(local: seq<Candidate>, role: IceRole)
    ensures AllPairs(local, [], role) == []
    decreases |local|
  {
    if local != [] {
      NoRemote(local[..|local| - 1], role);
    }
  }

  lemma {:induction false} CountMirror(local: seq<Candidate>, remote: seq<Candidate>, priority: nat)
    ensures Count(AllPairs(local, remote, Controlling), priority)
            == Count(AllPairs(remote, local, Controlled), priority)
    decreases |remote|
  {
    if remote == [] {
      NoRemote(local, Controlling);
    } else {
      var front, r := remote[..|remote| - 1], remote[|remote| - 1];
      assert remote == front + [r];
      CountMirror(local, front, priority);
      CountColumn(local, front, r, Controlling, priority);
      CountOne(local, r, priority);
      CountConcat(AllPairs(front, local, Controlled), PairsOf(r, local, Controlled), priority);
    }
  }

  lemma {:induction false} CountAbove(pairs: seq<Pair>, priority: nat)
    requires forall i :: 0 <= i < |pairs| ==> pairs[i].priority != priority
    ensures Count(pairs, priority) == 0
    decreases |pairs|
  {
    if pairs != [] {
      CountAbove(pairs[..|pairs| - 1], priority);
    }
  }

  lemma {:induction false} CountSeen(pairs: seq<Pair>, i: nat)
    requires i < |pairs|
    ensures Count(pairs, pairs[i].priority) > 0
    decreases |pairs|
  {
    if i < |pairs| - 1 {
      CountSeen(pairs[..|pairs| - 1], i);
    }
  }

  lemma NothingCounted(pairs: seq<Pair>)
    requires forall priority :: Count(pairs, priority) == 0
    ensures pairs == []
  {
    if pairs != [] {
      CountSeen(pairs, 0);
    }
  }

  /** Descending lists with the same counts have the same priorities throughout. */
  lemma {:induction false} SortedByCounts(a: seq<Pair>, b: seq<Pair>)
    requires Descending(a) && Descending(b) && forall priority :: Count(a, priority) == Count(b, priority)
    ensures Priorities(a) == Priorities(b)
    decreases |a|
  {
    if a == [] {
      forall priority
        ensures Count(b, priority) == 0
      {
        assert Count(a, priority) == Count(b, priority);
      }
      NothingCounted(b);
    } else {
      var x := a[|a| - 1].priority;
      CountSeen(a, |a| - 1);
      assert Count(b, x) > 0;
      CountSeen(b, |b| - 1);
      var y := b[|b| - 1].priority;
      if x < y {
        CountAbove(b, x);
      } else if y < x {
        CountAbove(a, y);
      }
      var a', b' := a[..|a| - 1], b[..|b| - 1];
      forall priority
        ensures Count(a', priority) == Count(b', priority)
      {
        assert Count(a, priority) == Count(b, priority);
      }
      SortedByCounts(a', b');
      assert Priorities(a) == Priorities(a') + [x] && Priorities(b) == Priorities(b') + [y];
    }
  }

  /** With roles and candidate lists swapped the two agents check the same priorities in
      the same order. */
  lemma AgentsAgree(local: seq<Candidate>, remote: seq<Candidate>)
    ensures Priorities(CheckListOf(local, remote, Controlling)) == Priorities(CheckListOf(remote, local, Controlled))
  {
    var a, b := AllPairs(local, remote, Controlling), AllPairs(remote, local, Controlled);
    StableSortSorts(a);
    StableSortSorts(b);
    forall priority
      ensures Count(StableSort(a), priority) == Count(StableSort(b), priority)
    {
      CountMirror(local, remote, priority);
      CountSort(a, priority);
      CountSort(b, priority);
    }
    SortedByCounts(StableSort(a), StableSort(b));
  }

  // ----- The best pair -----

  /** The first pair that succeeded; in a check list, which is descending, the best. */
  method FindBestSucceeded(pairs: seq<Pair>) returns (best: Option<nat>)
    ensures best.None? <==> forall i :: 0 <= i < |pairs| ==> !pairs[i].state.Succeeded?
    ensures best.Some? ==>
              && best.value < |pairs| && pairs[best.value].state.Succeeded?
              && forall i :: 0 <= i < best.value ==> !pairs[i].state.Succeeded?
    ensures best.Some? && Descending(pairs) ==>
              forall i :: 0 <= i < |pairs| && pairs[i].state.Succeeded? ==>
                pairs[i].priority <= pairs[best.value].priority
  {
    for i := 0 to |pairs|
      invariant forall k :: 0 <= k < i ==> !pairs[k].state.Succeeded?
    {
      if pairs[i].state.Succeeded? {
        return Some(i);
      }
    }
    return None;
  }

  method AllPairsFailed(pairs: seq<Pair>) returns (failed: bool)
    ensures failed <==> pairs != [] && forall i :: 0 <= i < |pairs| ==> pairs[i].state.Failed?
  {
    if pairs == [] {
      return false;
    }
    var allTerminal, noneSucceeded := true, true;
    for i := 0 to |pairs|
      invariant allTerminal <==> forall k :: 0 <= k < i ==> pairs[k].state.Succeeded? || pairs[k].state.Failed?
      invariant noneSucceeded <==> forall k :: 0 <= k < i ==> !pairs[k].state.Succeeded?
    {
      allTerminal := allTerminal && (pairs[i].state.Succeeded? || pairs[i].state.Failed?);
      noneSucceeded := noneSucceeded && !pairs[i].state.Succeeded?;
    }
    failed := allTerminal && noneSucceeded;
  }
}
