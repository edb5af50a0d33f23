/**
  The bottom-up merge planner for a block whose end is not known yet (crates/coordinator/src/merge.rs,
  lines 765-848): aligned chunks of equal power-of-two size are paired, level by level.
*/
module BottomUpPlanner {
  import opened Wrappers
  import opened PowersOfTwo
  import opened SplitTree
  import opened Proofs
  import opened TopDownPlanner

  /** The highest level that is paired. */
  const MAX_LEVEL: nat := 256

  /** No proof starts before the block, which the contract checks for every proof it stores. */
  predicate StartsInBlock(pc: ProofCalculation) {
    forall p :: p in pc.proofs && p.sequences != [] ==> p.sequences[0] >= pc.startSequence
  }

  function AtLevel(proofs: seq<Proof>, level: nat): (r: seq<Proof>)
    ensures forall p :: p in r <==> p in proofs && |p.sequences| == level
  {
    if proofs == [] then []
    else
      assert forall p :: p in proofs <==> p == proofs[0] || p in proofs[1..];
      (if |proofs[0].sequences| == level then [proofs[0]] else []) + AtLevel(proofs[1..], level)
  }

  function Last(s: seq<nat>): nat
    requires s != []
  {
    s[|s| - 1]
  }

  /** The sequences right after those of `p`, as many as `p` has. */
  function NextSequences(p: Proof): seq<nat>
    requires p.sequences != []
  {
    Range(Last(p.sequences) + 1, Last(p.sequences) + |p.sequences|)
  }

  /** `p` is free, aligned for the next level, its right neighbour is free, their union not active. */
  predicate Pairs(pc: ProofCalculation, now: nat, p: Proof)
    requires p.sequences != [] && p.sequences[0] >= pc.startSequence
  {
    && p.Available(now)
    && (p.sequences[0] - pc.startSequence) % (2 * |p.sequences|) == 0
    && AvailableAt(pc, now, NextSequences(p))
    && !AnyActive(pc.proofs, p.sequences + NextSequences(p), now)
  }

  function PairRequest(p: Proof): MergeRequest
    requires p.sequences != []
  {
    MergeRequest(p.sequences, NextSequences(p), false)
  }

  /** Proofs that the level loops can look at. */
  predicate Pairable(pc: ProofCalculation, proofs: seq<Proof>) {
    forall p :: p in proofs ==> p.sequences != [] && p.sequences[0] >= pc.startSequence
  }

  /** The requests of the first `n` proofs of a level, in order. */
  function PairRequests(pc: ProofCalculation, now: nat, proofs: seq<Proof>, n: nat): seq<MergeRequest>
    requires Pairable(pc, proofs) && n <= |proofs|
  {
    if n == 0 then []
    else
      var p := proofs[n - 1];
      PairRequests(pc, now, proofs, n - 1) + (if Pairs(pc, now, p) then [PairRequest(p)] else [])
  }

  function LevelRequests(pc: ProofCalculation, now: nat, level: nat): seq<MergeRequest>
    requires StartsInBlock(pc) && level >= 1
  {
    var proofs := AtLevel(pc.proofs, level);
    PairRequests(pc, now, proofs, |proofs|)
  }

  /** All levels from `level` up. */
  function RequestsFrom(pc: ProofCalculation, now: nat, level: nat): seq<MergeRequest>
    requires StartsInBlock(pc) && level >= 1
    decreases 2 * MAX_LEVEL - level, pc
  {
    if level > MAX_LEVEL then [] else LevelRequests(pc, now, level) + RequestsFrom(pc, now, 2 * level)
  }

  function BottomUpRequests(pc: ProofCalculation, now: nat): seq<MergeRequest>
    requires StartsInBlock(pc)
  {
    RequestsFrom(pc, now, 1)
  }

  lemma {:induction false} PairRequestsPrefix(pc: ProofCalculation, now: nat, proofs: seq<Proof>, i: nat, n: nat)
    requires Pairable(pc, proofs) && i <= n <= |proofs|
    ensures PairRequests(pc, now, proofs, i) <= PairRequests(pc, now, proofs, n)
    decreases n
  {
    if i < n {
      PairRequestsPrefix(pc, now, proofs, i, n - 1);
    }
  }

  /** The tests the two loops make on one proof of the current level. */
  method TryPair(pc: ProofCalculation, now: nat, level: nat, proof1: Proof) returns (r: Option<MergeRequest>)
    requires |proof1.sequences| == level >= 1 && proof1.sequences[0] >= pc.startSequence
    ensures r == if Pairs(pc, now, proof1) then Some(PairRequest(proof1)) else None
  {
    if !proof1.Available(now) {
      return None;
    }
    var relativeStart := proof1.sequences[0] - pc.startSequence;
    if relativeStart % (level * 2) != 0 {
      return None;
    }
    var nextFirst := Last(proof1.sequences) + 1;
    var next := Range(nextFirst, nextFirst + level - 1);
    var proof2 := Find(pc.proofs, next);
    if proof2.None? || !proof2.value.Available(now) {
      return None;
    }
    if AnyActive(pc.proofs, proof1.sequences + proof2.value.sequences, now) {
      return None;
    }
    return Some(MergeRequest(proof1.sequences, proof2.value.sequences, false));
  }

  /** The inner loop: every request of one level. */
  method PushLevel(pc: ProofCalculation, now: nat, level: nat, opportunities: seq<MergeRequest>)
    returns (r: seq<MergeRequest>)
    requires StartsInBlock(pc) && level >= 1
    ensures r == opportunities + LevelRequests(pc, now, level)
  {
    var atLevel := AtLevel(pc.proofs, level);
    r := opportunities;
    for i := 0 to |atLevel|
      invariant r == opportunities + PairRequests(pc, now, atLevel, i)
    {
      var request := TryPair(pc, now, level, atLevel[i]);
      if request.Some? {
        r := r + [request.value];
      }
    }
  }

  lemma LevelStep(pc: ProofCalculation, now: nat, level: nat, before: seq<MergeRequest>)
    requires StartsInBlock(pc) && 1 <= level <= MAX_LEVEL
    ensures (before + LevelRequests(pc, now, level)) + RequestsFrom(pc, now, level * 2)
         == before + RequestsFrom(pc, now, level)
  {
  }

  /** The outer loop pushes exactly the requests of the levels 1, 2, 4, ..., 256. */
  method FindAllUnknownEnd(pc: ProofCalculation, now: nat) returns (r: seq<MergeRequest>)
    requires StartsInBlock(pc)
    ensures r == BottomUpRequests(pc, now)
  {
    r := [];
    var level := 1;
    while level <= MAX_LEVEL
      invariant 1 <= level
      invariant r + RequestsFrom(pc, now, level) == BottomUpRequests(pc, now)
      decreases 2 * MAX_LEVEL - level
    {
      LevelStep(pc, now, level, r);
      r := PushLevel(pc, now, level, r);
      level := level * 2;
    }
  }

  /** The first hit of the same search. */
  method FindFirstUnknownEnd(pc: ProofCalculation, now: nat) returns (r: Option<MergeRequest>)
    requires StartsInBlock(pc)
    ensures r == Head(BottomUpRequests(pc, now))
  {
    var level := 1;
    while level <= MAX_LEVEL
      invariant 1 <= level
      invariant RequestsFrom(pc, now, level) == BottomUpRequests(pc, now)
      decreases 2 * MAX_LEVEL - level
    {
      var atLevel := AtLevel(pc.proofs, level);
      for i := 0 to |atLevel|
        invariant PairRequests(pc, now, atLevel, i) == []
      {
        var request := TryPair(pc, now, level, atLevel[i]);
        if request.Some? {
          PairRequestsPrefix(pc, now, atLevel, i + 1, |atLevel|);
          assert LevelRequests(pc, now, level)[0] == request.value;
          return request;
        }
      }
      level := level * 2;
    }
    return None;
  }

  function Head(requests: seq<MergeRequest>): Option<MergeRequest> {
    if requests == [] then None else Some(requests[0])
  }

  // ---- what the list contains ----

  /** Proofs cover contiguous, distinct ranges inside the block, as the contract's map stores them. */
  predicate WellFormed(pc: ProofCalculation) {
    && Distinct(pc.proofs)
    && (forall p :: p in pc.proofs ==>
          && p.sequences != []
          && pc.startSequence <= p.sequences[0] <= Last(p.sequences)
          && p.sequences == Range(p.sequences[0], Last(p.sequences))
          && (pc.endSequence.Some? ==> Last(p.sequences) <= pc.endSequence.value))
  }

  /**
    What the bottom-up planner should propose: a chunk of at most 512 sequences with both halves stored
    and free, and no active proof of its own.
  */
  ghost predicate BottomUpWanted(pc: ProofCalculation, now: nat, a: nat, b: nat) {
    && a < b
    && Chunk(pc.startSequence, a, b)
    && b + 1 - a <= 2 * MAX_LEVEL
    && HalvesAvailable(pc, now, a, b)
    && !AnyActive(pc.proofs, Range(a, b), now)
  }

  lemma {:induction false} PairRequestsMembers(pc: ProofCalculation, now: nat, proofs: seq<Proof>, n: nat,
      r: MergeRequest)
    requires Pairable(pc, proofs) && n <= |proofs|
    ensures r in PairRequests(pc, now, proofs, n)
       <==> exists i :: 0 <= i < n && Pairs(pc, now, proofs[i]) && r == PairRequest(proofs[i])
  {
    if n > 0 {
      PairRequestsMembers(pc, now, proofs, n - 1, r);
    }
  }

  lemma LevelMembers(pc: ProofCalculation, now: nat, level: nat, r: MergeRequest)
    requires StartsInBlock(pc) && level >= 1
    ensures r in LevelRequests(pc, now, level)
       <==> exists p :: p in pc.proofs && |p.sequences| == level && Pairs(pc, now, p) && r == PairRequest(p)
  {
    var proofs := AtLevel(pc.proofs, level);
    PairRequestsMembers(pc, now, proofs, |proofs|, r);
    if i :| 0 <= i < |proofs| && Pairs(pc, now, proofs[i]) && r == PairRequest(proofs[i]) {
      assert proofs[i] in proofs;
    }
    if p :| p in pc.proofs && |p.sequences| == level && Pairs(pc, now, p) && r == PairRequest(p) {
      assert p in proofs;
    }
  }

  lemma {:induction false} RequestsFromMembers(pc: ProofCalculation, now: nat, k: nat, r: MergeRequest)
    requires StartsInBlock(pc)
    ensures r in RequestsFrom(pc, now, Pow2(k))
       <==> exists j: nat :: j >= k && Pow2(j) <= MAX_LEVEL && r in LevelRequests(pc, now, Pow2(j))
    decreases 2 * MAX_LEVEL - Pow2(k)
  {
    if Pow2(k) > MAX_LEVEL {
      forall j: nat | j >= k
        ensures Pow2(j) > MAX_LEVEL
      {
        Pow2Order(k, j);
      }
    } else {
      RequestsFromMembers(pc, now, k + 1, r);
    }
  }

  /** Two adjacent runs of 2^j sequences form a chunk exactly when the first is aligned. */
  lemma PairedChunk(first: nat, a: nat, j: nat)
    requires first <= a
    ensures
      var l := Pow2(j);
      && (Chunk(first, a, a + 2 * l - 1) <==> (a - first) % (2 * l) == 0)
      && Split(a, a + 2 * l - 1) == a + l
  {
    var l := Pow2(j);
    var b := a + 2 * l - 1;
    assert b + 1 - a == 2 * l == Pow2(j + 1);
    CeilPow2OfPow2(b + 1 - a);
  }

  /** A proof that pairs at level 2^j proposes a wanted chunk. */
  lemma PairIsWanted(pc: ProofCalculation, now: nat, p: Proof, j: nat)
    requires WellFormed(pc) && p in pc.proofs && |p.sequences| == Pow2(j) <= MAX_LEVEL && Pairs(pc, now, p)
    ensures
      var a, b := p.sequences[0], Last(p.sequences) + |p.sequences|;
      BottomUpWanted(pc, now, a, b) && PairRequest(p) == Request(a, b, false)
  {
    var a, l := p.sequences[0], Pow2(j);
    var b := a + 2 * l - 1;
    assert Last(p.sequences) == a + l - 1;
    assert p.sequences == Range(a, a + l - 1) && NextSequences(p) == Range(a + l, b);
    PairedChunk(pc.startSequence, a, j);
    assert AvailableAt(pc, now, p.sequences) by { FindDistinct(pc.proofs, p); }
    assert p.sequences + NextSequences(p) == Range(a, b) by { RangeConcat(a, a + l, b); }
  }

  /** A wanted chunk is proposed by the proof of its left half. */
  lemma WantedIsPair(pc: ProofCalculation, now: nat, a: nat, b: nat) returns (p: Proof, j: nat)
    requires WellFormed(pc) && BottomUpWanted(pc, now, a, b)
    ensures p in pc.proofs && |p.sequences| == Pow2(j) <= MAX_LEVEL && Pairs(pc, now, p)
    ensures PairRequest(p) == Request(a, b, false)
  {
    var k: nat :| b + 1 - a == Pow2(k);
    j := k - 1;
    var l := Pow2(j);
    PairedChunk(pc.startSequence, a, j);
    p := Find(pc.proofs, Range(a, a + l - 1)).value;
    FindStored(pc.proofs, Range(a, a + l - 1));
    assert |p.sequences| == l && p.sequences[0] == a && Last(p.sequences) == a + l - 1;
    RangeConcat(a, a + l, b);
  }

  /** The list is exactly the wanted chunks. */
  lemma BottomUpExact(pc: ProofCalculation, now: nat, r: MergeRequest)
    requires WellFormed(pc)
    ensures r in BottomUpRequests(pc, now)
       <==> exists a, b :: BottomUpWanted(pc, now, a, b) && r == Request(a, b, false)
  {
    assert Pow2(0) == 1;
    RequestsFromMembers(pc, now, 0, r);
    if r in BottomUpRequests(pc, now) {
      var j: nat :| Pow2(j) <= MAX_LEVEL && r in LevelRequests(pc, now, Pow2(j));
      LevelMembers(pc, now, Pow2(j), r);
      var p :| p in pc.proofs && |p.sequences| == Pow2(j) && Pairs(pc, now, p) && r == PairRequest(p);
      PairIsWanted(pc, now, p, j);
    }
    if a, b :| BottomUpWanted(pc, now, a, b) && r == Request(a, b, false) {
      var p, j := WantedIsPair(pc, now, a, b);
      LevelMembers(pc, now, Pow2(j), r);
    }
  }

  // ---- disjointness ----

  predicate Active(pc: ProofCalculation, now: nat, a: nat, b: nat) {
    AnyActive(pc.proofs, Range(a, b), now)
  }

  /** Every active merged proof has both halves active. */
  ghost predicate HalvesActive(pc: ProofCalculation, now: nat) {
    forall a: nat, b: nat :: HalvesActiveAt(pc, now, a, b)
  }

  predicate HalvesActiveAt(pc: ProofCalculation, now: nat, a: nat, b: nat) {
    a < b && Active(pc, now, a, b) ==>
      Active(pc, now, a, Split(a, b) - 1) && Active(pc, now, Split(a, b), b)
  }

  lemma {:induction false} ActiveBelow(pc: ProofCalculation, now: nat, a: nat, b: nat, c: nat, d: nat)
    requires HalvesActive(pc, now) && Active(pc, now, a, b) && Node(a, b, c, d)
    ensures Active(pc, now, c, d)
    decreases b - a
  {
    if !(a == c && b == d) {
      var m := Split(a, b);
      assert HalvesActiveAt(pc, now, a, b);
      if Node(a, m - 1, c, d) {
        ActiveBelow(pc, now, a, m - 1, c, d);
      } else {
        ActiveBelow(pc, now, m, b, c, d);
      }
    }
  }

  lemma AvailableIsActive(pc: ProofCalculation, now: nat, sequences: seq<nat>)
    requires AvailableAt(pc, now, sequences)
    ensures AnyActive(pc.proofs, sequences, now)
  {
    FindStored(pc.proofs, sequences);
    AnyActiveIff(pc.proofs, sequences, now);
    assert Find(pc.proofs, sequences).value.ActiveOrCompleted(now);
  }

  /** Two different wanted chunks share no sequence. */
  lemma BottomUpDisjoint(pc: ProofCalculation, now: nat, a: nat, b: nat, c: nat, d: nat)
    requires HalvesActive(pc, now)
    requires BottomUpWanted(pc, now, a, b) && BottomUpWanted(pc, now, c, d)
    ensures (a == c && b == d) || Disjoint(a, b, c, d)
  {
    var last := if b < d then d else b;
    ChunkIsNode(pc.startSequence, a, b, last);
    ChunkIsNode(pc.startSequence, c, d, last);
    Laminar(pc.startSequence, last, a, b, c, d);
    if Node(a, b, c, d) {
      NoWantedInside(pc, now, a, b, c, d);
    } else if Node(c, d, a, b) {
      NoWantedInside(pc, now, c, d, a, b);
    }
  }

  lemma NoWantedInside(pc: ProofCalculation, now: nat, a: nat, b: nat, c: nat, d: nat)
    requires HalvesActive(pc, now)
    requires BottomUpWanted(pc, now, a, b) && BottomUpWanted(pc, now, c, d) && Node(a, b, c, d)
    ensures a == c && b == d
  {
    if !(a == c && b == d) {
      ActiveBelowReady(pc, now, a, b, c, d);
    }
  }

  lemma ActiveBelowReady(pc: ProofCalculation, now: nat, a: nat, b: nat, c: nat, d: nat)
    requires HalvesActive(pc, now) && a < b && HalvesAvailable(pc, now, a, b)
    requires Node(a, b, c, d) && !(a == c && b == d)
    ensures Active(pc, now, c, d)
  {
    var m := Split(a, b);
    if Node(a, m - 1, c, d) {
      AvailableIsActive(pc, now, Range(a, m - 1));
      ActiveBelow(pc, now, a, m - 1, c, d);
    } else {
      AvailableIsActive(pc, now, Range(m, b));
      ActiveBelow(pc, now, m, b, c, d);
    }
  }

  // ---- no request is listed twice ----

  predicate NoDuplicates(requests: seq<MergeRequest>) {
    forall i, j :: 0 <= i < j < |requests| ==> requests[i] != requests[j]
  }

  lemma NoDuplicatesConcat(x: seq<MergeRequest>, y: seq<MergeRequest>)
    requires NoDuplicates(x) && NoDuplicates(y)
    requires forall r :: r in x ==> r !in y
    ensures NoDuplicates(x + y)
  {
    forall i, j | 0 <= i < j < |x + y|
      ensures (x + y)[i] != (x + y)[j]
    {
      if i < |x| <= j {
        assert x[i] in x && y[j - |x|] in y;
      }
    }
  }

  lemma {:induction false} AtLevelDistinct(proofs: seq<Proof>, level: nat)
    requires Distinct(proofs)
    ensures Distinct(AtLevel(proofs, level))
  {
    if proofs != [] {
      AtLevelDistinct(proofs[1..], level);
      assert forall p :: p in proofs[1..] ==> p.sequences != proofs[0].sequences;
      assert forall i :: 0 <= i < |AtLevel(proofs[1..], level)| ==> AtLevel(proofs[1..], level)[i] in proofs[1..];
    }
  }

  lemma {:induction false} PairRequestsOnce(pc: ProofCalculation, now: nat, proofs: seq<Proof>, n: nat)
    requires Pairable(pc, proofs) && Distinct(proofs) && n <= |proofs|
    ensures NoDuplicates(PairRequests(pc, now, proofs, n))
  {
    if n > 0 {
      var q := proofs[n - 1];
      PairRequestsOnce(pc, now, proofs, n - 1);
      PairRequestsMembers(pc, now, proofs, n - 1, PairRequest(q));
      if Pairs(pc, now, q) {
        NoDuplicatesConcat(PairRequests(pc, now, proofs, n - 1), [PairRequest(q)]);
      }
    }
  }

  lemma LevelSizes(pc: ProofCalculation, now: nat, level: nat)
    requires StartsInBlock(pc) && level >= 1
    ensures forall r :: r in LevelRequests(pc, now, level) ==> |r.sequences1| == level
  {
    forall r | r in LevelRequests(pc, now, level)
      ensures |r.sequences1| == level
    {
      LevelMembers(pc, now, level, r);
    }
  }

  lemma {:induction false} RequestsOnce(pc: ProofCalculation, now: nat, level: nat)
    requires StartsInBlock(pc) && Distinct(pc.proofs) && level >= 1
    ensures NoDuplicates(RequestsFrom(pc, now, level))
    ensures forall r :: r in RequestsFrom(pc, now, level) ==> |r.sequences1| >= level
    decreases 2 * MAX_LEVEL - level
  {
    if level <= MAX_LEVEL {
      RequestsOnce(pc, now, 2 * level);
      LevelSizes(pc, now, level);
      AtLevelDistinct(pc.proofs, level);
      PairRequestsOnce(pc, now, AtLevel(pc.proofs, level), |AtLevel(pc.proofs, level)|);
      NoDuplicatesConcat(LevelRequests(pc, now, level), RequestsFrom(pc, now, 2 * level));
    }
  }

  /** The sequences two requests cover do not meet. */
  predicate RequestsDisjoint(x: MergeRequest, y: MergeRequest)
    requires x.sequences1 != [] && x.sequences2 != [] && y.sequences1 != [] && y.sequences2 != []
  {
    Disjoint(x.sequences1[0], Last(x.sequences2), y.sequences1[0], Last(y.sequences2))
  }

  /** Across all levels, no two entries of the list cover a common sequence. */
  lemma BottomUpListDisjoint(pc: ProofCalculation, now: nat, i: nat, j: nat)
    requires WellFormed(pc) && HalvesActive(pc, now)
    requires i < j < |BottomUpRequests(pc, now)|
    ensures
      var r := BottomUpRequests(pc, now);
      && r[i].sequences1 != [] && r[i].sequences2 != [] && r[j].sequences1 != [] && r[j].sequences2 != []
      && RequestsDisjoint(r[i], r[j])
  {
    var r := BottomUpRequests(pc, now);
    assert r[i] != r[j] by { RequestsOnce(pc, now, 1); }
    var a, b := ListedIsWanted(pc, now, r[i]);
    var c, d := ListedIsWanted(pc, now, r[j]);
    BottomUpDisjoint(pc, now, a, b, c, d);
  }

  lemma ListedIsWanted(pc: ProofCalculation, now: nat, r: MergeRequest) returns (a: nat, b: nat)
    requires WellFormed(pc) && r in BottomUpRequests(pc, now)
    ensures BottomUpWanted(pc, now, a, b) && r == Request(a, b, false)
    ensures r.sequences1 != [] && r.sequences2 != [] && r.sequences1[0] == a && Last(r.sequences2) == b
  {
    BottomUpExact(pc, now, r);
    a, b :| BottomUpWanted(pc, now, a, b) && r == Request(a, b, false);
  }
}
