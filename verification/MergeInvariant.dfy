/**
  What a block's proofs look like while its merges run: the invariant, and the one shape that every
  contract call on a merged proof shares (the merged proof gets a status, both halves get another).
*/
module MergeInvariant {
  import opened Wrappers
  import opened PowersOfTwo
  import opened SplitTree
  import opened Proofs
  import opened TopDownPlanner
  import opened BottomUpPlanner
  import opened ProofContract

  function At(pc: ProofCalculation, a: nat, b: nat): Option<Proof> {
    Find(pc.proofs, Range(a, b))
  }

  predicate StatusAt(pc: ProofCalculation, a: nat, b: nat, status: ProofStatus) {
    At(pc, a, b).Some? && At(pc, a, b).value.status == status
  }

  predicate DoneAt(pc: ProofCalculation, a: nat, b: nat) {
    At(pc, a, b).Some? && At(pc, a, b).value.Done()
  }

  /** `a..b` belongs to the merge tree: a chunk while the end is unknown, a node of the block's tree after. */
  ghost predicate InTree(pc: ProofCalculation, a: nat, b: nat) {
    match pc.endSequence
    case None => Chunk(pc.startSequence, a, b)
    case Some(last) => Node(pc.startSequence, last, a, b)
  }

  function LeftHalf(a: nat, b: nat): seq<nat>
    requires a < b
  {
    Range(a, Split(a, b) - 1)
  }

  function RightHalf(a: nat, b: nat): seq<nat>
    requires a < b
  {
    Range(Split(a, b), b)
  }

  /** A proof covers a range of the tree and records the halves it was merged from. */
  ghost predicate Shaped(pc: ProofCalculation, p: Proof) {
    && p.sequences != []
    && var a, b := p.sequences[0], Last(p.sequences);
    && a <= b
    && p.sequences == Range(a, b)
    && InTree(pc, a, b)
    && (a == b ==> p.sequence1 == None && p.sequence2 == None)
    && (a < b ==> p.sequence1 == Some(LeftHalf(a, b)) && p.sequence2 == Some(RightHalf(a, b)))
  }

  ghost predicate ShapedAt(pc: ProofCalculation, sequences: seq<nat>) {
    var p := Find(pc.proofs, sequences);
    p.Some? ==> Shaped(pc, p.value)
  }

  /** A stored merged proof has both halves stored. */
  predicate HalvesKept(pc: ProofCalculation, a: nat, b: nat) {
    a < b && At(pc, a, b).Some? ==> At(pc, a, Split(a, b) - 1).Some? && At(pc, Split(a, b), b).Some?
  }

  /** A stored merge has `a..b` as a half. */
  ghost predicate Held(pc: ProofCalculation, a: nat, b: nat) {
    exists c, d :: IsHalf(c, d, a, b) && At(pc, c, d).Some?
  }

  /** What a proof looks like that no merge has ever touched. */
  predicate Untouched(p: Proof) {
    p.status == Started || p.status == Rejected || (p.status == Calculated && p.hasHash)
  }

  /** Only half of a stored merge is reserved, used or given back without ever having been submitted. */
  ghost predicate HeldForMerge(pc: ProofCalculation, a: nat, b: nat) {
    a <= b && At(pc, a, b).Some? && !Untouched(At(pc, a, b).value) ==> Held(pc, a, b)
  }

  /** A finished block has its own proof, and a calculated proof of the whole block has finished it. */
  predicate Ended(pc: ProofCalculation) {
    && (pc.isFinished ==> pc.endSequence.Some? && At(pc, pc.startSequence, pc.endSequence.value).Some?)
    && (pc.endSequence.Some? && StatusAt(pc, pc.startSequence, pc.endSequence.value, Calculated) ==> pc.isFinished)
  }

  /** Nothing here limits what may be rejected. */
  ghost predicate Inv(pc: ProofCalculation) {
    && Distinct(pc.proofs)
    && (pc.endSequence.Some? ==> pc.startSequence <= pc.endSequence.value)
    && (forall s :: ShapedAt(pc, s))
    && (forall a: nat, b: nat :: HalvesKept(pc, a, b))
    && (!pc.isFinished ==> forall a: nat, b: nat :: HeldForMerge(pc, a, b))
    && Ended(pc)
  }

  lemma ShapeOf(pc: ProofCalculation, a: nat, b: nat)
    requires Inv(pc) && a <= b && At(pc, a, b).Some?
    ensures InTree(pc, a, b) && pc.startSequence <= a
    ensures pc.endSequence.Some? ==> b <= pc.endSequence.value
    ensures a < b ==> At(pc, a, b).value.sequence1 == Some(LeftHalf(a, b))
    ensures a < b ==> At(pc, a, b).value.sequence2 == Some(RightHalf(a, b))
    ensures a == b ==> At(pc, a, b).value.sequence1 == None && At(pc, a, b).value.sequence2 == None
  {
    assert ShapedAt(pc, Range(a, b));
    if pc.endSequence.Some? {
      NodeBounds(pc.startSequence, pc.endSequence.value, a, b);
    }
  }

  lemma InvIsWellFormed(pc: ProofCalculation)
    requires Inv(pc)
    ensures WellFormed(pc) && StartsInBlock(pc)
  {
    forall p | p in pc.proofs
      ensures
        && p.sequences != []
        && pc.startSequence <= p.sequences[0] <= Last(p.sequences)
        && p.sequences == Range(p.sequences[0], Last(p.sequences))
        && (pc.endSequence.Some? ==> Last(p.sequences) <= pc.endSequence.value)
    {
      FindDistinct(pc.proofs, p);
      assert ShapedAt(pc, p.sequences);
      ShapeOf(pc, p.sequences[0], Last(p.sequences));
    }
  }

  // ---- the shared effect of the contract calls on a merge ----

  /** What a call does: the merged proof's new status and hash, and the new status of both halves. */
  datatype Change = Change(status: ProofStatus, hasHash: bool, half: ProofStatus)

  /** One proof before and after: the merged one and its halves change, the rest stay. */
  predicate EffectAt(pc: ProofCalculation, next: ProofCalculation, a: nat, b: nat, x: Change, s: seq<nat>)
    requires a < b
  {
    var p, q := Find(pc.proofs, s), Find(next.proofs, s);
    if s == Range(a, b) then
      && q.Some? && q.value.status == x.status && q.value.hasHash == x.hasHash
      && q.value.sequence1 == Some(LeftHalf(a, b)) && q.value.sequence2 == Some(RightHalf(a, b))
    else if s == LeftHalf(a, b) || s == RightHalf(a, b) then
      && p.Some? && q.Some?
      && q.value == p.value.(status := x.half, timestamp := q.value.timestamp)
    else q == p
  }

  ghost predicate Effect(pc: ProofCalculation, next: ProofCalculation, a: nat, b: nat, x: Change)
    requires a < b
  {
    && next.startSequence == pc.startSequence && next.endSequence == pc.endSequence
    && Distinct(next.proofs)
    && (forall s :: EffectAt(pc, next, a, b, x, s))
  }

  /** When an effect is one the contract calls of a run can have. */
  ghost predicate Legal(pc: ProofCalculation, next: ProofCalculation, a: nat, b: nat, x: Change) {
    && a < b && InTree(pc, a, b)
    && At(pc, a, Split(a, b) - 1).Some? && At(pc, Split(a, b), b).Some?
    && (x.status == Started || x.status == Rejected || (x.status == Calculated && x.hasHash))
    && Effect(pc, next, a, b, x)
    && next.isFinished == (pc.isFinished || (x.status == Calculated && CoversBlock(pc, Range(a, b))))
  }

  lemma EffectOutside(pc: ProofCalculation, next: ProofCalculation, a: nat, b: nat, x: Change, c: nat, d: nat)
    requires a < b && c <= d && Effect(pc, next, a, b, x)
    ensures !(c == a && d == b) && !IsHalf(a, b, c, d) ==> At(next, c, d) == At(pc, c, d)
    ensures c == a && d == b ==> StatusAt(next, c, d, x.status) && At(next, c, d).value.hasHash == x.hasHash
    ensures IsHalf(a, b, c, d) ==> At(pc, c, d).Some? && StatusAt(next, c, d, x.half)
    ensures IsHalf(a, b, c, d) ==> At(next, c, d).value.hasHash == At(pc, c, d).value.hasHash
    ensures At(pc, c, d).Some? ==> At(next, c, d).Some?
  {
    assert EffectAt(pc, next, a, b, x, Range(c, d));
    if Range(c, d) == Range(a, b) {
      RangeInjective(c, d, a, b);
    }
    if Range(c, d) == LeftHalf(a, b) {
      RangeInjective(c, d, a, Split(a, b) - 1);
    }
    if Range(c, d) == RightHalf(a, b) {
      RangeInjective(c, d, Split(a, b), b);
    }
    if IsHalf(a, b, c, d) && Range(c, d) == Range(a, b) {
      RangeInjective(c, d, a, b);
    }
  }

  lemma EffectKeepsShape(pc: ProofCalculation, next: ProofCalculation, a: nat, b: nat, x: Change, s: seq<nat>)
    requires Inv(pc) && Legal(pc, next, a, b, x)
    ensures ShapedAt(next, s)
  {
    assert EffectAt(pc, next, a, b, x, s);
    assert ShapedAt(pc, s);
    if s == Range(a, b) {
      assert s[0] == a && Last(s) == b;
    }
  }

  lemma EffectKeepsHalves(pc: ProofCalculation, next: ProofCalculation, a: nat, b: nat, x: Change, c: nat, d: nat)
    requires Inv(pc) && Legal(pc, next, a, b, x)
    ensures HalvesKept(next, c, d)
  {
    if c < d {
      EffectOutside(pc, next, a, b, x, c, d);
      EffectOutside(pc, next, a, b, x, c, Split(c, d) - 1);
      EffectOutside(pc, next, a, b, x, Split(c, d), d);
      assert HalvesKept(pc, c, d);
    }
  }

  lemma EffectKeepsHeld(pc: ProofCalculation, next: ProofCalculation, a: nat, b: nat, x: Change, c: nat, d: nat)
    requires Inv(pc) && Legal(pc, next, a, b, x) && !pc.isFinished
    ensures HeldForMerge(next, c, d)
  {
    if c <= d {
      EffectOutside(pc, next, a, b, x, c, d);
      EffectOutside(pc, next, a, b, x, a, b);
      assert HeldForMerge(pc, c, d);
      if !(c == a && d == b) && !IsHalf(a, b, c, d) && Held(pc, c, d) {
        var e, f :| IsHalf(e, f, c, d) && At(pc, e, f).Some?;
        EffectOutside(pc, next, a, b, x, e, f);
      }
    }
  }

  lemma EffectKeepsEnded(pc: ProofCalculation, next: ProofCalculation, a: nat, b: nat, x: Change)
    requires Inv(pc) && Legal(pc, next, a, b, x)
    ensures Ended(next)
  {
    if pc.endSequence.Some? {
      var first, last := pc.startSequence, pc.endSequence.value;
      NodeBounds(first, last, a, b);
      EffectOutside(pc, next, a, b, x, first, last);
      EffectOutside(pc, next, a, b, x, a, b);
    }
  }

  /** Every legal effect keeps the invariant. */
  lemma EffectKeepsInv(pc: ProofCalculation, next: ProofCalculation, a: nat, b: nat, x: Change)
    requires Inv(pc) && Legal(pc, next, a, b, x)
    ensures Inv(next)
  {
    forall s
      ensures ShapedAt(next, s)
    {
      EffectKeepsShape(pc, next, a, b, x, s);
    }
    forall c: nat, d: nat
      ensures HalvesKept(next, c, d)
    {
      EffectKeepsHalves(pc, next, a, b, x, c, d);
    }
    if !next.isFinished {
      forall c: nat, d: nat
        ensures HeldForMerge(next, c, d)
      {
        EffectKeepsHeld(pc, next, a, b, x, c, d);
      }
    }
    EffectKeepsEnded(pc, next, a, b, x);
  }
}
