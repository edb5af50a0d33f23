/**
  The top-down merge planner for a block with a known end (crates/coordinator/src/merge.rs, lines
  707-763 and 858-954): every merge of two stored, free halves that the split tree still needs.
*/
module TopDownPlanner {
  import opened Wrappers
  import opened PowersOfTwo
  import opened SplitTree
  import opened Proofs

  /** A range of at least two sequences, by its first and last. */
  type Span = x: (nat, nat) | x.0 < x.1 witness (0, 1)

  datatype MergeRequest = MergeRequest(sequences1: seq<nat>, sequences2: seq<nat>, blockProof: bool)

  /** The longest vector of `u64` that can be allocated. */
  const MAX_VECTOR: nat := 0x0FFF_FFFF_FFFF_FFFF

  /** The block's range can be collected into a vector; the source panics otherwise. */
  predicate Collectable(pc: ProofCalculation) {
    pc.endSequence.Some? ==>
      pc.endSequence.value < U64_LIMIT && pc.endSequence.value + 1 <= pc.startSequence + MAX_VECTOR
  }

  predicate Present(pc: ProofCalculation, a: nat, b: nat) {
    Find(pc.proofs, Range(a, b)).Some?
  }

  predicate AvailableAt(pc: ProofCalculation, now: nat, sequences: seq<nat>) {
    var p := Find(pc.proofs, sequences);
    p.Some? && p.value.Available(now)
  }

  /** Both halves of `a..b` are stored and free. */
  predicate HalvesAvailable(pc: ProofCalculation, now: nat, a: nat, b: nat)
    requires a < b
  {
    AvailableAt(pc, now, Range(a, Split(a, b) - 1)) && AvailableAt(pc, now, Range(Split(a, b), b))
  }

  function Request(a: nat, b: nat, blockProof: bool): MergeRequest
    requires a < b
  {
    MergeRequest(Range(a, Split(a, b) - 1), Range(Split(a, b), b), blockProof)
  }

  // ---- known end: specification ----

  /**
    What the top-down planner should propose: a node of the block's tree that is absent, that has no
    stored node above it, and whose two halves are stored and free.
  */
  ghost predicate Wanted(pc: ProofCalculation, now: nat, first: nat, last: nat, a: nat, b: nat) {
    && Node(first, last, a, b)
    && a < b
    && (forall c, d :: Node(first, last, c, d) && Node(c, d, a, b) ==> !Present(pc, c, d))
    && HalvesAvailable(pc, now, a, b)
  }

  /** The ranges proposed below `a..b`, a node before its halves and left before right. */
  function PlanRanges(pc: ProofCalculation, now: nat, a: nat, b: nat): seq<Span>
    decreases b - a
  {
    if a >= b || Present(pc, a, b) then []
    else
      PlanTop(pc, now, a, b)
      + (PlanRanges(pc, now, a, Split(a, b) - 1) + PlanRanges(pc, now, Split(a, b), b))
  }

  function PlanTop(pc: ProofCalculation, now: nat, a: nat, b: nat): seq<Span>
    requires a < b
  {
    if HalvesAvailable(pc, now, a, b) then [(a, b)] else []
  }

  /** Requests for ranges; the one for `first..last` carries the block flag. */
  function Requests(ranges: seq<Span>, first: nat, last: nat): (r: seq<MergeRequest>)
    ensures |r| == |ranges|
    ensures forall i :: 0 <= i < |r| ==>
              r[i] == Request(ranges[i].0, ranges[i].1, ranges[i] == (first, last))
  {
    seq(|ranges|, i requires 0 <= i < |ranges| =>
      Request(ranges[i].0, ranges[i].1, ranges[i] == (first, last)))
  }

  lemma WantedAtRoot(pc: ProofCalculation, now: nat, first: nat, last: nat)
    requires first < last && !Present(pc, first, last)
    ensures Wanted(pc, now, first, last, first, last) <==> HalvesAvailable(pc, now, first, last)
  {
    forall c, d | Node(first, last, c, d) && Node(c, d, first, last)
      ensures c == first && d == last
    {
      NodeBounds(first, last, c, d);
      NodeBounds(c, d, first, last);
    }
  }

  lemma WantedFromLeft(pc: ProofCalculation, now: nat, first: nat, last: nat, a: nat, b: nat)
    requires first < last && !Present(pc, first, last)
    requires Wanted(pc, now, first, Split(first, last) - 1, a, b)
    ensures Wanted(pc, now, first, last, a, b)
  {
    var m := Split(first, last);
    NodeBounds(first, m - 1, a, b);
    forall c, d | Node(first, last, c, d) && Node(c, d, a, b)
      ensures !Present(pc, c, d)
    {
      NodeBounds(c, d, a, b);
      if !(c == first && d == last) && !Node(first, m - 1, c, d) {
        NodeBounds(m, last, c, d);
      }
    }
  }

  lemma WantedFromRight(pc: ProofCalculation, now: nat, first: nat, last: nat, a: nat, b: nat)
    requires first < last && !Present(pc, first, last)
    requires Wanted(pc, now, Split(first, last), last, a, b)
    ensures Wanted(pc, now, first, last, a, b)
  {
    var m := Split(first, last);
    NodeBounds(m, last, a, b);
    forall c, d | Node(first, last, c, d) && Node(c, d, a, b)
      ensures !Present(pc, c, d)
    {
      NodeBounds(c, d, a, b);
      if !(c == first && d == last) && !Node(m, last, c, d) {
        NodeBounds(first, m - 1, c, d);
      }
    }
  }

  /** A wanted range other than the root is wanted in the tree of one half. */
  lemma WantedInHalf(pc: ProofCalculation, now: nat, first: nat, last: nat, a: nat, b: nat)
    requires first < last && Wanted(pc, now, first, last, a, b) && !(a == first && b == last)
    ensures Wanted(pc, now, first, Split(first, last) - 1, a, b) || Wanted(pc, now, Split(first, last), last, a, b)
  {
    var m := Split(first, last);
    forall c, d | (Node(first, m - 1, c, d) || Node(m, last, c, d)) && Node(c, d, a, b)
      ensures !Present(pc, c, d)
    {
      assert Node(first, last, c, d);
    }
  }

  /** Below an absent root, wanted ranges are the root's own merge and those of the two halves. */
  lemma WantedUnfold(pc: ProofCalculation, now: nat, first: nat, last: nat, a: nat, b: nat)
    requires first < last && !Present(pc, first, last)
    ensures Wanted(pc, now, first, last, a, b)
       <==> (a == first && b == last && HalvesAvailable(pc, now, first, last))
            || Wanted(pc, now, first, Split(first, last) - 1, a, b)
            || Wanted(pc, now, Split(first, last), last, a, b)
  {
    WantedAtRoot(pc, now, first, last);
    if Wanted(pc, now, first, Split(first, last) - 1, a, b) {
      WantedFromLeft(pc, now, first, last, a, b);
    } else if Wanted(pc, now, Split(first, last), last, a, b) {
      WantedFromRight(pc, now, first, last, a, b);
    } else if Wanted(pc, now, first, last, a, b) && !(a == first && b == last) {
      WantedInHalf(pc, now, first, last, a, b);
    }
  }

  lemma PlanUnfold(pc: ProofCalculation, now: nat, first: nat, last: nat, x: (nat, nat))
    requires first < last && !Present(pc, first, last)
    ensures x in PlanRanges(pc, now, first, last)
       <==> x in PlanTop(pc, now, first, last)
            || x in PlanRanges(pc, now, first, Split(first, last) - 1)
            || x in PlanRanges(pc, now, Split(first, last), last)
  {
  }

  /** The list is exactly the wanted ranges, for every status assignment and every clock. */
  lemma {:induction false} PlanExact(pc: ProofCalculation, now: nat, first: nat, last: nat, a: nat, b: nat)
    ensures (a, b) in PlanRanges(pc, now, first, last) <==> Wanted(pc, now, first, last, a, b)
    decreases last - first
  {
    if first >= last || Present(pc, first, last) {
      if Wanted(pc, now, first, last, a, b) {
        NodeBounds(first, last, a, b);
        assert Node(first, last, first, last);
      }
    } else {
      PlanExact(pc, now, first, Split(first, last) - 1, a, b);
      PlanExact(pc, now, Split(first, last), last, a, b);
      PlanUnfold(pc, now, first, last, (a, b));
      WantedUnfold(pc, now, first, last, a, b);
    }
  }

  /** Two different wanted ranges share no sequence. */
  lemma WantedDisjoint(pc: ProofCalculation, now: nat, first: nat, last: nat, a: nat, b: nat, c: nat, d: nat)
    requires Wanted(pc, now, first, last, a, b) && Wanted(pc, now, first, last, c, d)
    ensures (a == c && b == d) || Disjoint(a, b, c, d)
  {
    Laminar(first, last, a, b, c, d);
    if Node(a, b, c, d) {
      WantedInside(pc, now, first, last, a, b, c, d);
    } else if Node(c, d, a, b) {
      WantedInside(pc, now, first, last, c, d, a, b);
    }
  }

  /** Below a wanted range nothing else is wanted: one of its stored halves is in the way. */
  lemma WantedInside(pc: ProofCalculation, now: nat, first: nat, last: nat, a: nat, b: nat, c: nat, d: nat)
    requires Wanted(pc, now, first, last, a, b) && Wanted(pc, now, first, last, c, d)
    requires Node(a, b, c, d)
    ensures a == c && b == d
  {
    NodeChildren(first, last, a, b);
  }

  /** The list runs from left to right over disjoint ranges. */
  predicate LeftToRight(ranges: seq<Span>) {
    forall i, j :: 0 <= i < j < |ranges| ==> ranges[i].1 < ranges[j].0
  }

  /** Nothing is listed twice, and the listed ranges are pairwise disjoint. */
  lemma {:induction false} PlanLeftToRight(pc: ProofCalculation, now: nat, first: nat, last: nat)
    ensures LeftToRight(PlanRanges(pc, now, first, last))
    decreases last - first
  {
    if first < last && !Present(pc, first, last) {
      var m := Split(first, last);
      var left, right := PlanRanges(pc, now, first, m - 1), PlanRanges(pc, now, m, last);
      PlanLeftToRight(pc, now, first, m - 1);
      PlanLeftToRight(pc, now, m, last);
      PlanWithin(pc, now, first, m - 1);
      PlanWithin(pc, now, m, last);
      LeftToRightConcat(left, right, first, m, last);
      if HalvesAvailable(pc, now, first, last) {
        NothingBelowReady(pc, now, first, last);
      } else {
        assert PlanRanges(pc, now, first, last) == left + right;
      }
    }
  }

  predicate Within(ranges: seq<Span>, a: nat, b: nat) {
    forall i :: 0 <= i < |ranges| ==> a <= ranges[i].0 && ranges[i].1 <= b
  }

  lemma {:induction false} PlanWithin(pc: ProofCalculation, now: nat, a: nat, b: nat)
    ensures Within(PlanRanges(pc, now, a, b), a, b)
    decreases b - a
  {
    if a < b && !Present(pc, a, b) {
      PlanWithin(pc, now, a, Split(a, b) - 1);
      PlanWithin(pc, now, Split(a, b), b);
    }
  }

  lemma LeftToRightConcat(x: seq<Span>, y: seq<Span>, a: nat, m: nat, b: nat)
    requires a < m && LeftToRight(x) && LeftToRight(y) && Within(x, a, m - 1) && Within(y, m, b)
    ensures LeftToRight(x + y)
  {
  }

  lemma NothingBelowReady(pc: ProofCalculation, now: nat, first: nat, last: nat)
    requires first < last && HalvesAvailable(pc, now, first, last)
    ensures PlanRanges(pc, now, first, Split(first, last) - 1) == []
    ensures PlanRanges(pc, now, Split(first, last), last) == []
  {
    assert Present(pc, first, Split(first, last) - 1);
    assert Present(pc, Split(first, last), last);
  }

  // ---- known end: the source's recursion over a shared vector ----

  predicate HasMerge(opportunities: seq<MergeRequest>, sequences1: seq<nat>, sequences2: seq<nat>) {
    exists r :: r in opportunities && r.sequences1 == sequences1 && r.sequences2 == sequences2
  }

  /** Pushes the request for `x` unless its pair of sequences is already there. */
  function PushOne(opportunities: seq<MergeRequest>, x: Span): seq<MergeRequest> {
    var r := Request(x.0, x.1, false);
    if HasMerge(opportunities, r.sequences1, r.sequences2) then opportunities else opportunities + [r]
  }

  function Push(opportunities: seq<MergeRequest>, ranges: seq<Span>): seq<MergeRequest>
    decreases |ranges|
  {
    if ranges == [] then opportunities else Push(PushOne(opportunities, ranges[0]), ranges[1..])
  }

  lemma {:induction false} PushConcat(opportunities: seq<MergeRequest>, x: seq<Span>, y: seq<Span>)
    ensures Push(opportunities, x + y) == Push(Push(opportunities, x), y)
    decreases |x|
  {
    if x == [] {
      assert x + y == y;
    } else {
      assert (x + y)[1..] == x[1..] + y;
      PushConcat(PushOne(opportunities, x[0]), x[1..], y);
    }
  }

  function PushTop(opportunities: seq<MergeRequest>, pc: ProofCalculation, now: nat, a: nat, b: nat): seq<MergeRequest>
    requires a < b
  {
    if HalvesAvailable(pc, now, a, b) then PushOne(opportunities, (a, b)) else opportunities
  }

  /** Pushing the plan of an absent range is pushing its top, its left plan and its right plan in turn. */
  lemma PushPlan(opportunities: seq<MergeRequest>, pc: ProofCalculation, now: nat, first: nat, last: nat)
    requires first < last && !Present(pc, first, last)
    ensures
      Push(opportunities, PlanRanges(pc, now, first, last))
      == Push(
           Push(PushTop(opportunities, pc, now, first, last), PlanRanges(pc, now, first, Split(first, last) - 1)),
           PlanRanges(pc, now, Split(first, last), last))
  {
    var top := PlanTop(pc, now, first, last);
    var left := PlanRanges(pc, now, first, Split(first, last) - 1);
    var right := PlanRanges(pc, now, Split(first, last), last);
    PushConcat(opportunities, top, left + right);
    PushConcat(Push(opportunities, top), left, right);
    if HalvesAvailable(pc, now, first, last) {
      assert top[1..] == [];
    }
  }

  /** The source looks both halves up and asks whether both are free. */
  method CheckHalves(pc: ProofCalculation, now: nat, first: nat, m: nat, last: nat) returns (ready: bool)
    requires first < last && m == Split(first, last)
    ensures ready == HalvesAvailable(pc, now, first, last)
  {
    var left := Find(pc.proofs, Range(first, m - 1));
    var right := Find(pc.proofs, Range(m, last));
    ready := false;
    if left.Some? && right.Some? {
      if left.value.Available(now) && right.value.Available(now) {
        ready := true;
      }
    }
  }

  /** The merge of the range itself is pushed when it is ready and not there yet. */
  method PushReady(first: nat, m: nat, last: nat, pc: ProofCalculation, now: nat, opportunities: seq<MergeRequest>)
    returns (r: seq<MergeRequest>)
    requires first < last && m == Split(first, last)
    ensures r == PushTop(opportunities, pc, now, first, last)
  {
    r := opportunities;
    var ready := CheckHalves(pc, now, first, m, last);
    if ready && !HasMerge(r, Range(first, m - 1), Range(m, last)) {
      r := r + [MergeRequest(Range(first, m - 1), Range(m, last), false)];
    }
  }

  lemma PlanOfPresent(pc: ProofCalculation, now: nat, first: nat, last: nat)
    requires first >= last || Present(pc, first, last)
    ensures PlanRanges(pc, now, first, last) == []
  {
  }

  /** The recursion pushes exactly the planned requests that the vector does not hold yet. */
  method RecursiveFindMerges(first: nat, last: nat, pc: ProofCalculation, now: nat,
        opportunities: seq<MergeRequest>)
    returns (r: seq<MergeRequest>)
    requires last < U64_LIMIT && last + 1 <= first + MAX_VECTOR
    ensures r == Push(opportunities, PlanRanges(pc, now, first, last))
    decreases if first <= last then last - first + 1 else 0, 2
  {
    if first > last {
      PlanOfPresent(pc, now, first, last);
      return opportunities;
    }
    if Find(pc.proofs, Range(first, last)).Some? {
      PlanOfPresent(pc, now, first, last);
      return opportunities;
    }
    var split := FindBinarySplitPoint(first, last);
    if split.value.None? {
      PlanOfPresent(pc, now, first, last);
      return opportunities;
    }
    r := FindAtSplit(first, split.value.value, last, pc, now, opportunities);
  }

  /** The rest of it, for a range that is absent and can be split: its own merge, then the left half. */
  method FindInLeft(first: nat, m: nat, last: nat, pc: ProofCalculation, now: nat,
        opportunities: seq<MergeRequest>)
    returns (r: seq<MergeRequest>)
    requires last < U64_LIMIT && last + 1 <= first + MAX_VECTOR
    requires first < last && m == Split(first, last)
    ensures r == Push(PushTop(opportunities, pc, now, first, last), PlanRanges(pc, now, first, m - 1))
    decreases last - first + 1, 0
  {
    r := PushReady(first, m, last, pc, now, opportunities);
    if first < m && m > 0 {
      r := RecursiveFindMerges(first, m - 1, pc, now, r);
    }
  }

  /** And then the right half. */
  method FindAtSplit(first: nat, m: nat, last: nat, pc: ProofCalculation, now: nat,
        opportunities: seq<MergeRequest>)
    returns (r: seq<MergeRequest>)
    requires last < U64_LIMIT && last + 1 <= first + MAX_VECTOR
    requires first < last && !Present(pc, first, last) && m == Split(first, last)
    ensures r == Push(opportunities, PlanRanges(pc, now, first, last))
    decreases last - first + 1, 1
  {
    r := FindInLeft(first, m, last, pc, now, opportunities);
    if m <= last {
      r := RecursiveFindMerges(m, last, pc, now, r);
    }
    PushPlan(opportunities, pc, now, first, last);
  }

  /** The block's own merge is possible right now. */
  predicate BlockReady(pc: ProofCalculation, now: nat, first: nat, last: nat) {
    first < last && !Present(pc, first, last) && HalvesAvailable(pc, now, first, last)
  }

  /** With a known end: the top request first, flagged, then the recursion. */
  method FindAllKnownEnd(pc: ProofCalculation, now: nat) returns (r: seq<MergeRequest>)
    requires pc.endSequence.Some? && Collectable(pc)
    ensures r == Requests(PlanRanges(pc, now, pc.startSequence, pc.endSequence.value),
                          pc.startSequence, pc.endSequence.value)
  {
    var first, last := pc.startSequence, pc.endSequence.value;
    r := [];
    if Find(pc.proofs, Range(first, last)).None? {
      var split := FindBinarySplitPoint(first, last);
      if split.value.Some? {
        var m := split.value.value;
        var ready := CheckHalves(pc, now, first, m, last);
        if ready {
          r := r + [MergeRequest(Range(first, m - 1), Range(m, last), true)];
        }
      }
    }
    assert r == if BlockReady(pc, now, first, last) then [Request(first, last, true)] else [];
    KnownEndList(pc, now, first, last);
    r := RecursiveFindMerges(first, last, pc, now, r);
  }

  /** The two pushes together list every planned range once, with the flag on the whole block only. */
  lemma KnownEndList(pc: ProofCalculation, now: nat, first: nat, last: nat)
    ensures Requests(PlanRanges(pc, now, first, last), first, last)
         == Push(if BlockReady(pc, now, first, last) then [Request(first, last, true)] else [],
                 PlanRanges(pc, now, first, last))
  {
    var plan := PlanRanges(pc, now, first, last);
    if BlockReady(pc, now, first, last) {
      assert plan == [(first, last)] by { NothingBelowReady(pc, now, first, last); }
      PushAgain(first, last);
    } else {
      PlanLeftToRight(pc, now, first, last);
      assert (first, last) !in plan by {
        PlanExact(pc, now, first, last, first, last);
        assert first <= last ==> Node(first, last, first, last);
      }
      assert [] + plan == plan;
      PushLeftToRight([], plan, first, last);
    }
  }

  /** The unflagged request for the block is not added beside the flagged one. */
  lemma PushAgain(first: nat, last: nat)
    requires first < last
    ensures Push([Request(first, last, true)], [(first, last)]) == Requests([(first, last)], first, last)
  {
    var block: Span := (first, last);
    assert Request(first, last, true) in [Request(first, last, true)];
    assert [block][1..] == [];
  }

  /** Ranges from left to right are pushed one after the other: no pair is there already. */
  lemma {:induction false} PushLeftToRight(done: seq<Span>, rest: seq<Span>, first: nat, last: nat)
    requires LeftToRight(done + rest) && (first, last) !in rest
    ensures Push(Requests(done, first, last), rest) == Requests(done + rest, first, last)
    decreases |rest|
  {
    if rest == [] {
      assert done + rest == done;
    } else {
      var x := rest[0];
      forall i | 0 <= i < |done|
        ensures done[i].1 < x.0
      {
        assert (done + rest)[i] == done[i] && (done + rest)[|done|] == x;
      }
      RequestsHaveNo(done, x, first, last);
      assert Requests(done, first, last) + [Request(x.0, x.1, false)] == Requests(done + [x], first, last);
      assert (done + [x]) + rest[1..] == done + rest;
      PushLeftToRight(done + [x], rest[1..], first, last);
    }
  }

  lemma RequestsHaveNo(done: seq<Span>, x: Span, first: nat, last: nat)
    requires forall i :: 0 <= i < |done| ==> done[i].1 < x.0
    ensures
      var r := Request(x.0, x.1, false);
      !HasMerge(Requests(done, first, last), r.sequences1, r.sequences2)
  {
    forall q | q in Requests(done, first, last)
      ensures q.sequences1 != Request(x.0, x.1, false).sequences1
    {
      assert q.sequences1[0] < x.0;
      assert Request(x.0, x.1, false).sequences1[0] == x.0;
    }
  }
}
