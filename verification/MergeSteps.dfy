/**
  The contract calls of a run (move/coordination/sources/prover.move, lines 218-257 and 374-828), made from
  a state that satisfies the invariant: exactly when each is accepted, and that it keeps the invariant.
*/
module MergeSteps {
  import opened Wrappers
  import opened PowersOfTwo
  import opened SplitTree
  import opened Proofs
  import opened TopDownPlanner
  import opened BottomUpPlanner
  import opened ProofContract
  import opened MergeInvariant

  lemma HalvesDiffer(a: nat, b: nat)
    requires a < b
    ensures Range(a, b) != LeftHalf(a, b) && Range(a, b) != RightHalf(a, b) && LeftHalf(a, b) != RightHalf(a, b)
  {
    assert Range(a, b)[0] == LeftHalf(a, b)[0] == a && RightHalf(a, b)[0] == Split(a, b);
    assert |LeftHalf(a, b)| < |Range(a, b)|;
  }

  /** The range of a tree node and of its halves are valid for the contract. */
  lemma TreeIsValid(pc: ProofCalculation, a: nat, b: nat)
    requires InTree(pc, a, b) && a < b
    ensures Valid(pc, Range(a, b)) && Valid(pc, LeftHalf(a, b)) && Valid(pc, RightHalf(a, b))
  {
    if pc.endSequence.Some? {
      NodeBounds(pc.startSequence, pc.endSequence.value, a, b);
    }
  }

  function MergedProof(a: nat, b: nat, status: ProofStatus, timestamp: nat, hasHash: bool): Proof
    requires a < b
  {
    Proof(Range(a, b), status, timestamp, Some(LeftHalf(a, b)), Some(RightHalf(a, b)), hasHash)
  }

  lemma FindThree(proofs: seq<Proof>, x: Proof, y: Proof, z: Proof, s: seq<nat>)
    ensures Find(Put(Put(Put(proofs, x), y), z), s)
         == if s == z.sequences then Some(z) else if s == y.sequences then Some(y)
            else if s == x.sequences then Some(x) else Find(proofs, s)
  {
    FindPut(proofs, x, s);
    FindPut(Put(proofs, x), y, s);
    FindPut(Put(Put(proofs, x), y), z, s);
  }

  lemma ThreeDistinct(proofs: seq<Proof>, x: Proof, y: Proof, z: Proof)
    requires Distinct(proofs)
    ensures Distinct(Put(Put(Put(proofs, x), y), z))
  {
    PutDistinct(proofs, x);
    PutDistinct(Put(proofs, x), y);
    PutDistinct(Put(Put(proofs, x), y), z);
  }

  function HalfProof(pc: ProofCalculation, s: seq<nat>, status: ProofStatus, now: nat): Proof
    requires Find(pc.proofs, s).Some?
  {
    Find(pc.proofs, s).value.(status := status, timestamp := now)
  }

  predicate HalvesStored(pc: ProofCalculation, a: nat, b: nat)
    requires a < b
  {
    Find(pc.proofs, LeftHalf(a, b)).Some? && Find(pc.proofs, RightHalf(a, b)).Some?
  }

  /** Both halves were submitted at some time. */
  predicate HalvesHashed(pc: ProofCalculation, a: nat, b: nat)
    requires a < b
  {
    HalvesStored(pc, a, b)
    && Find(pc.proofs, LeftHalf(a, b)).value.hasHash && Find(pc.proofs, RightHalf(a, b)).value.hasHash
  }

  /** Both halves are finished, and were submitted at some time. */
  predicate HalvesUsable(pc: ProofCalculation, a: nat, b: nat)
    requires a < b
  {
    HalvesStored(pc, a, b)
    && Find(pc.proofs, LeftHalf(a, b)).value.Usable() && Find(pc.proofs, RightHalf(a, b)).value.Usable()
  }

  /** The proofs after the merged one is stored and then both halves are rewritten. */
  function MergePuts(pc: ProofCalculation, a: nat, b: nat, merged: Proof, half: ProofStatus, now: nat): seq<Proof>
    requires a < b && HalvesStored(pc, a, b)
  {
    Put(Put(Put(pc.proofs, merged),
            HalfProof(pc, LeftHalf(a, b), half, now)),
        HalfProof(pc, RightHalf(a, b), half, now))
  }

  /** Storing the merged proof and then rewriting its halves has the shared effect. */
  lemma MergePutsEffect(pc: ProofCalculation, next: ProofCalculation, a: nat, b: nat, merged: Proof,
      half: ProofStatus, now: nat)
    requires Distinct(pc.proofs) && a < b && HalvesStored(pc, a, b)
    requires merged == MergedProof(a, b, merged.status, merged.timestamp, merged.hasHash)
    requires next == pc.(proofs := MergePuts(pc, a, b, merged, half, now), isFinished := next.isFinished)
    ensures Effect(pc, next, a, b, Change(merged.status, merged.hasHash, half))
  {
    HalvesDiffer(a, b);
    var left, right := HalfProof(pc, LeftHalf(a, b), half, now), HalfProof(pc, RightHalf(a, b), half, now);
    forall s
      ensures EffectAt(pc, next, a, b, Change(merged.status, merged.hasHash, half), s)
    {
      FindThree(pc.proofs, merged, left, right, s);
    }
    ThreeDistinct(pc.proofs, merged, left, right);
  }

  lemma FindPutOther(proofs: seq<Proof>, p: Proof, sequences: seq<nat>)
    requires p.sequences != sequences
    ensures Find(Put(proofs, p), sequences) == Find(proofs, sequences)
  {
    FindPut(proofs, p, sequences);
  }

  /** After the merged proof and its left half are stored, the halves are found where they were. */
  lemma HalvesStay(proofs: seq<Proof>, a: nat, b: nat, merged: Proof, left: Proof)
    requires a < b && merged.sequences == Range(a, b) && left.sequences == LeftHalf(a, b)
    ensures Find(Put(proofs, merged), LeftHalf(a, b)) == Find(proofs, LeftHalf(a, b))
    ensures Find(Put(proofs, merged), RightHalf(a, b)) == Find(proofs, RightHalf(a, b))
    ensures Find(Put(Put(proofs, merged), left), RightHalf(a, b)) == Find(proofs, RightHalf(a, b))
  {
    HalvesDiffer(a, b);
    FindPutOther(proofs, merged, LeftHalf(a, b));
    FindPutOther(proofs, merged, RightHalf(a, b));
    FindPutOther(Put(proofs, merged), left, RightHalf(a, b));
  }

  predicate MergeIsValid(pc: ProofCalculation, a: nat, b: nat)
    requires a < b
  {
    Valid(pc, Range(a, b)) && Valid(pc, LeftHalf(a, b)) && Valid(pc, RightHalf(a, b))
  }

  // ---- starting a merge ----

  /** A tree merge whose halves are free and whose own proof is absent or rejected: what the planner asks for. */
  ghost predicate Proposable(pc: ProofCalculation, now: nat, a: nat, b: nat) {
    && a < b && InTree(pc, a, b)
    && HalvesAvailable(pc, now, a, b)
    && (At(pc, a, b).Some? ==> StatusAt(pc, a, b, Rejected))
  }

  /** Calculated, or older than five minutes in whatever status, or taken already and now wanted for the block. */
  predicate OnOffer(p: Proof, block: bool, now: nat) {
    p.status == Calculated || now > p.timestamp + 300000 || (block && (p.status == Reserved || p.status == Used))
  }

  /** Both halves are stored and can be reserved for the merge. */
  predicate HalvesReservable(pc: ProofCalculation, now: nat, a: nat, b: nat)
    requires a < b
  {
    var block := a == pc.startSequence && pc.endSequence == Some(b);
    && HalvesStored(pc, a, b)
    && OnOffer(Find(pc.proofs, LeftHalf(a, b)).value, block, now)
    && OnOffer(Find(pc.proofs, RightHalf(a, b)).value, block, now)
  }

  /** Stored, but rejected or older than five minutes, in whatever status. */
  predicate Restartable(pc: ProofCalculation, now: nat, a: nat, b: nat) {
    At(pc, a, b).Some? && (At(pc, a, b).value.status == Rejected || now > At(pc, a, b).value.timestamp + 300000)
  }

  function StartMerge(pc: ProofCalculation, now: nat, a: nat, b: nat): Option<ProofCalculation>
    requires a < b
  {
    StartProving(pc, Range(a, b), Some(LeftHalf(a, b)), Some(RightHalf(a, b)), now)
  }

  /** Reserving both halves one after the other. */
  function ReserveBoth(proofs: seq<Proof>, a: nat, b: nat, blockProof: bool, now: nat): Option<seq<Proof>>
    requires a < b
  {
    var one := ReserveProof(proofs, Some(LeftHalf(a, b)), blockProof, now);
    if one.None? then None else ReserveProof(one.value, Some(RightHalf(a, b)), blockProof, now)
  }

  /** Reservable halves are both reserved exactly when both have a hash. */
  lemma ReserveNeedsHash(proofs: seq<Proof>, a: nat, b: nat, blockProof: bool, now: nat)
    requires a < b && Find(proofs, LeftHalf(a, b)).Some? && Find(proofs, RightHalf(a, b)).Some?
    requires Reservable(Find(proofs, LeftHalf(a, b)).value, blockProof, now)
    requires Reservable(Find(proofs, RightHalf(a, b)).value, blockProof, now)
    ensures
      var left, right := Find(proofs, LeftHalf(a, b)).value, Find(proofs, RightHalf(a, b)).value;
      ReserveBoth(proofs, a, b, blockProof, now)
      == if left.hasHash && right.hasHash then
           Some(Put(Put(proofs, left.(status := Reserved, timestamp := now)),
                    right.(status := Reserved, timestamp := now)))
         else None
  {
    HalvesDiffer(a, b);
    var left := Find(proofs, LeftHalf(a, b)).value;
    FindPutOther(proofs, left.(status := Reserved, timestamp := now), RightHalf(a, b));
  }

  lemma StartNew(pc: ProofCalculation, now: nat, a: nat, b: nat)
    requires a < b && MergeIsValid(pc, a, b) && At(pc, a, b).None? && HalvesReservable(pc, now, a, b)
    ensures StartMerge(pc, now, a, b)
         == if HalvesHashed(pc, a, b) then
              Some(pc.(proofs := MergePuts(pc, a, b, MergedProof(a, b, Started, now, false), Reserved, now)))
            else None
  {
    var merged := MergedProof(a, b, Started, now, false);
    HalvesStay(pc.proofs, a, b, merged, HalfProof(pc, LeftHalf(a, b), Reserved, now));
    ReserveNeedsHash(Put(pc.proofs, merged), a, b, CoversBlock(pc, Range(a, b)), now);
  }

  /** The proofs after a stored merge is stored as started again and its halves are given back. */
  function GivenBack(pc: ProofCalculation, a: nat, b: nat, now: nat): seq<Proof>
    requires a < b && HalvesStored(pc, a, b)
  {
    MergePuts(pc, a, b, MergedProof(a, b, Started, now, false), Calculated, now)
  }

  lemma StartAgainReturns(pc: ProofCalculation, now: nat, a: nat, b: nat)
    requires a < b && HalvesStored(pc, a, b)
    ensures ReturnProof(ReturnProof(Put(pc.proofs, MergedProof(a, b, Started, now, false)),
                                    Some(LeftHalf(a, b)), now),
                        Some(RightHalf(a, b)), now)
         == GivenBack(pc, a, b, now)
  {
    HalvesStay(pc.proofs, a, b, MergedProof(a, b, Started, now, false),
               HalfProof(pc, LeftHalf(a, b), Calculated, now));
  }

  lemma GivenBackHalves(pc: ProofCalculation, now: nat, a: nat, b: nat)
    requires a < b && HalvesStored(pc, a, b)
    ensures Find(GivenBack(pc, a, b, now), LeftHalf(a, b)) == Some(HalfProof(pc, LeftHalf(a, b), Calculated, now))
    ensures Find(GivenBack(pc, a, b, now), RightHalf(a, b)) == Some(HalfProof(pc, RightHalf(a, b), Calculated, now))
  {
    HalvesDiffer(a, b);
    var left := HalfProof(pc, LeftHalf(a, b), Calculated, now);
    var right := HalfProof(pc, RightHalf(a, b), Calculated, now);
    FindThree(pc.proofs, MergedProof(a, b, Started, now, false), left, right, LeftHalf(a, b));
    FindThree(pc.proofs, MergedProof(a, b, Started, now, false), left, right, RightHalf(a, b));
  }

  /** The proofs after a stored merge is restarted: its halves are given back and reserved again. */
  function Restarted(pc: ProofCalculation, a: nat, b: nat, now: nat): seq<Proof>
    requires a < b && HalvesStored(pc, a, b)
  {
    Put(Put(GivenBack(pc, a, b, now), HalfProof(pc, LeftHalf(a, b), Reserved, now)),
        HalfProof(pc, RightHalf(a, b), Reserved, now))
  }

  lemma StartAgain(pc: ProofCalculation, now: nat, a: nat, b: nat)
    requires a < b && MergeIsValid(pc, a, b) && Restartable(pc, now, a, b) && HalvesStored(pc, a, b)
    requires At(pc, a, b).value.sequence1 == Some(LeftHalf(a, b))
    requires At(pc, a, b).value.sequence2 == Some(RightHalf(a, b))
    ensures StartMerge(pc, now, a, b)
         == if HalvesHashed(pc, a, b) then Some(pc.(proofs := Restarted(pc, a, b, now))) else None
  {
    StartAgainReturns(pc, now, a, b);
    GivenBackHalves(pc, now, a, b);
    ReserveNeedsHash(GivenBack(pc, a, b, now), a, b, CoversBlock(pc, Range(a, b)), now);
  }

  lemma StartAgainEffect(pc: ProofCalculation, next: ProofCalculation, now: nat, a: nat, b: nat)
    requires Distinct(pc.proofs) && a < b && HalvesStored(pc, a, b)
    requires next == pc.(proofs := Restarted(pc, a, b, now))
    ensures Effect(pc, next, a, b, Change(Started, false, Reserved))
  {
    HalvesDiffer(a, b);
    var back := GivenBack(pc, a, b, now);
    var merged := MergedProof(a, b, Started, now, false);
    var backLeft := HalfProof(pc, LeftHalf(a, b), Calculated, now);
    var backRight := HalfProof(pc, RightHalf(a, b), Calculated, now);
    var left, right := HalfProof(pc, LeftHalf(a, b), Reserved, now), HalfProof(pc, RightHalf(a, b), Reserved, now);
    forall s
      ensures EffectAt(pc, next, a, b, Change(Started, false, Reserved), s)
    {
      FindThree(pc.proofs, merged, backLeft, backRight, s);
      FindPut(back, left, s);
      FindPut(Put(back, left), right, s);
    }
    ThreeDistinct(pc.proofs, merged, backLeft, backRight);
    PutDistinct(back, left);
    PutDistinct(Put(back, left), right);
  }

  lemma AvailableIsDone(pc: ProofCalculation, now: nat, a: nat, b: nat)
    requires a < b && HalvesAvailable(pc, now, a, b)
    ensures DoneAt(pc, a, Split(a, b) - 1) && DoneAt(pc, Split(a, b), b) && HalvesStored(pc, a, b)
  {
  }

  /**
    The contract starts a merge of the tree exactly when both halves have a hash, and the merge is stored and
    rejected or timed out, or it is absent and both halves can be reserved.
  */
  lemma StartAcceptedIff(pc: ProofCalculation, now: nat, a: nat, b: nat)
    requires Inv(pc) && a < b && InTree(pc, a, b)
    ensures StartMerge(pc, now, a, b).Some?
       <==> HalvesHashed(pc, a, b)
            && (if At(pc, a, b).Some? then Restartable(pc, now, a, b) else HalvesReservable(pc, now, a, b))
  {
    TreeIsValid(pc, a, b);
    if At(pc, a, b).Some? {
      ShapeOf(pc, a, b);
      assert HalvesKept(pc, a, b);
      if Restartable(pc, now, a, b) {
        StartAgain(pc, now, a, b);
      }
    } else if HalvesReservable(pc, now, a, b) {
      StartNew(pc, now, a, b);
    }
  }

  /** Of what the planner asks for, the contract accepts exactly the merges whose halves have a hash. */
  lemma ProposedAcceptedIff(pc: ProofCalculation, now: nat, a: nat, b: nat)
    requires Inv(pc) && Proposable(pc, now, a, b)
    ensures StartMerge(pc, now, a, b).Some? <==> HalvesHashed(pc, a, b)
  {
    StartAcceptedIff(pc, now, a, b);
    AvailableIsDone(pc, now, a, b);
  }

  /** An accepted start, planned or not, stores the merge, reserves both halves and keeps the invariant. */
  lemma StartKeepsInv(pc: ProofCalculation, now: nat, a: nat, b: nat)
    requires Inv(pc) && a < b && InTree(pc, a, b) && StartMerge(pc, now, a, b).Some?
    ensures HalvesHashed(pc, a, b)
    ensures Legal(pc, StartMerge(pc, now, a, b).value, a, b, Change(Started, false, Reserved))
    ensures Inv(StartMerge(pc, now, a, b).value)
  {
    StartAcceptedIff(pc, now, a, b);
    TreeIsValid(pc, a, b);
    var next := StartMerge(pc, now, a, b).value;
    if At(pc, a, b).None? {
      StartNew(pc, now, a, b);
      MergePutsEffect(pc, next, a, b, MergedProof(a, b, Started, now, false), Reserved, now);
    } else {
      ShapeOf(pc, a, b);
      StartAgain(pc, now, a, b);
      StartAgainEffect(pc, next, now, a, b);
    }
    EffectKeepsInv(pc, next, a, b, Change(Started, false, Reserved));
  }

  /** What an accepted start writes: the new proof, and both halves, all with the time of the start. */
  lemma StartWrites(pc: ProofCalculation, now: nat, a: nat, b: nat)
    requires Inv(pc) && a < b && InTree(pc, a, b) && StartMerge(pc, now, a, b).Some?
    ensures HalvesStored(pc, a, b)
    ensures
      var next := StartMerge(pc, now, a, b).value;
      && At(next, a, b) == Some(Proof(Range(a, b), Started, now, Some(LeftHalf(a, b)), Some(RightHalf(a, b)), false))
      && Find(next.proofs, LeftHalf(a, b)) == Some(HalfProof(pc, LeftHalf(a, b), Reserved, now))
      && Find(next.proofs, RightHalf(a, b)) == Some(HalfProof(pc, RightHalf(a, b), Reserved, now))
  {
    StartKeepsInv(pc, now, a, b);
    StartAcceptedIff(pc, now, a, b);
    TreeIsValid(pc, a, b);
    var merged := MergedProof(a, b, Started, now, false);
    if At(pc, a, b).None? {
      StartNew(pc, now, a, b);
      MergePutsWrite(pc, a, b, merged, Reserved, now);
    } else {
      ShapeOf(pc, a, b);
      StartAgain(pc, now, a, b);
      RestartWrites(pc, a, b, now);
    }
  }

  lemma MergePutsWrite(pc: ProofCalculation, a: nat, b: nat, merged: Proof, half: ProofStatus, now: nat)
    requires a < b && HalvesStored(pc, a, b) && merged.sequences == Range(a, b)
    ensures
      var proofs := MergePuts(pc, a, b, merged, half, now);
      && Find(proofs, Range(a, b)) == Some(merged)
      && Find(proofs, LeftHalf(a, b)) == Some(HalfProof(pc, LeftHalf(a, b), half, now))
      && Find(proofs, RightHalf(a, b)) == Some(HalfProof(pc, RightHalf(a, b), half, now))
  {
    HalvesDiffer(a, b);
    var left, right := HalfProof(pc, LeftHalf(a, b), half, now), HalfProof(pc, RightHalf(a, b), half, now);
    FindThree(pc.proofs, merged, left, right, Range(a, b));
    FindThree(pc.proofs, merged, left, right, LeftHalf(a, b));
    FindThree(pc.proofs, merged, left, right, RightHalf(a, b));
  }

  lemma RestartWrites(pc: ProofCalculation, a: nat, b: nat, now: nat)
    requires a < b && HalvesStored(pc, a, b)
    ensures
      var proofs := Restarted(pc, a, b, now);
      && Find(proofs, Range(a, b)) == Some(MergedProof(a, b, Started, now, false))
      && Find(proofs, LeftHalf(a, b)) == Some(HalfProof(pc, LeftHalf(a, b), Reserved, now))
      && Find(proofs, RightHalf(a, b)) == Some(HalfProof(pc, RightHalf(a, b), Reserved, now))
  {
    HalvesDiffer(a, b);
    var back := GivenBack(pc, a, b, now);
    var left, right := HalfProof(pc, LeftHalf(a, b), Reserved, now), HalfProof(pc, RightHalf(a, b), Reserved, now);
    MergePutsWrite(pc, a, b, MergedProof(a, b, Started, now, false), Calculated, now);
    FindPutOther(back, left, Range(a, b));
    FindPutOther(Put(back, left), right, Range(a, b));
    FindPut(back, left, LeftHalf(a, b));
    FindPutOther(Put(back, left), right, LeftHalf(a, b));
    FindPut(Put(back, left), right, RightHalf(a, b));
  }

  // ---- submitting a merge ----

  function SubmitMerge(pc: ProofCalculation, now: nat, a: nat, b: nat): Option<ProofCalculation>
    requires a < b
  {
    SubmitProof(pc, Range(a, b), Some(LeftHalf(a, b)), Some(RightHalf(a, b)), now)
  }

  lemma SubmitComputes(pc: ProofCalculation, now: nat, a: nat, b: nat)
    requires a < b && MergeIsValid(pc, a, b) && HalvesStored(pc, a, b)
    ensures SubmitMerge(pc, now, a, b)
         == if HalvesUsable(pc, a, b) then
              Some(pc.(proofs := MergePuts(pc, a, b, MergedProof(a, b, Calculated, now, true), Used, now),
                       isFinished := pc.isFinished || CoversBlock(pc, Range(a, b))))
            else None
  {
    HalvesStay(pc.proofs, a, b, MergedProof(a, b, Calculated, now, true), HalfProof(pc, LeftHalf(a, b), Used, now));
  }

  /** The contract accepts the result of a stored merge exactly when both its halves are still usable. */
  lemma SubmitAcceptedIff(pc: ProofCalculation, now: nat, a: nat, b: nat)
    requires Inv(pc) && a < b && At(pc, a, b).Some?
    ensures SubmitMerge(pc, now, a, b).Some? <==> HalvesUsable(pc, a, b)
  {
    ShapeOf(pc, a, b);
    assert HalvesKept(pc, a, b);
    TreeIsValid(pc, a, b);
    SubmitComputes(pc, now, a, b);
  }

  /** An accepted result is stored, uses both halves and keeps the invariant. */
  lemma SubmitKeepsInv(pc: ProofCalculation, now: nat, a: nat, b: nat)
    requires Inv(pc) && a < b && At(pc, a, b).Some? && HalvesUsable(pc, a, b)
    ensures SubmitMerge(pc, now, a, b).Some?
    ensures Legal(pc, SubmitMerge(pc, now, a, b).value, a, b, Change(Calculated, true, Used))
    ensures Inv(SubmitMerge(pc, now, a, b).value)
  {
    ShapeOf(pc, a, b);
    TreeIsValid(pc, a, b);
    SubmitComputes(pc, now, a, b);
    var next := SubmitMerge(pc, now, a, b).value;
    MergePutsEffect(pc, next, a, b, MergedProof(a, b, Calculated, now, true), Used, now);
    EffectKeepsInv(pc, next, a, b, Change(Calculated, true, Used));
  }

  /** What an accepted result writes, all with the time of the result. */
  lemma SubmitWrites(pc: ProofCalculation, now: nat, a: nat, b: nat)
    requires Inv(pc) && a < b && At(pc, a, b).Some? && SubmitMerge(pc, now, a, b).Some?
    ensures HalvesStored(pc, a, b)
    ensures
      var next := SubmitMerge(pc, now, a, b).value;
      && At(next, a, b) == Some(Proof(Range(a, b), Calculated, now, Some(LeftHalf(a, b)), Some(RightHalf(a, b)), true))
      && Find(next.proofs, LeftHalf(a, b)) == Some(HalfProof(pc, LeftHalf(a, b), Used, now))
      && Find(next.proofs, RightHalf(a, b)) == Some(HalfProof(pc, RightHalf(a, b), Used, now))
  {
    SubmitAcceptedIff(pc, now, a, b);
    ShapeOf(pc, a, b);
    TreeIsValid(pc, a, b);
    SubmitComputes(pc, now, a, b);
    MergePutsWrite(pc, a, b, MergedProof(a, b, Calculated, now, true), Used, now);
  }

  // ---- rejecting any proof ----

  function RejectAt(pc: ProofCalculation, now: nat, a: nat, b: nat): Option<ProofCalculation> {
    RejectProof(pc, Range(a, b), now)
  }

  lemma RejectComputes(pc: ProofCalculation, now: nat, a: nat, b: nat)
    requires a < b && MergeIsValid(pc, a, b) && At(pc, a, b).Some? && HalvesStored(pc, a, b)
    requires At(pc, a, b).value.sequence1 == Some(LeftHalf(a, b))
    requires At(pc, a, b).value.sequence2 == Some(RightHalf(a, b))
    ensures RejectAt(pc, now, a, b)
         == Some(pc.(proofs := MergePuts(pc, a, b, At(pc, a, b).value.(status := Rejected), Calculated, now)))
  {
    HalvesStay(pc.proofs, a, b, At(pc, a, b).value.(status := Rejected),
               HalfProof(pc, LeftHalf(a, b), Calculated, now));
  }

  /** A stored merge in any status can be rejected; both halves are given back, whatever they were. */
  lemma RejectKeepsInv(pc: ProofCalculation, now: nat, a: nat, b: nat)
    requires Inv(pc) && a < b && At(pc, a, b).Some?
    ensures RejectAt(pc, now, a, b).Some?
    ensures Legal(pc, RejectAt(pc, now, a, b).value, a, b,
                  Change(Rejected, At(pc, a, b).value.hasHash, Calculated))
    ensures Inv(RejectAt(pc, now, a, b).value)
  {
    ShapeOf(pc, a, b);
    assert HalvesKept(pc, a, b);
    TreeIsValid(pc, a, b);
    RejectComputes(pc, now, a, b);
    var p, next := At(pc, a, b).value, RejectAt(pc, now, a, b).value;
    MergePutsEffect(pc, next, a, b, p.(status := Rejected), Calculated, now);
    EffectKeepsInv(pc, next, a, b, Change(Rejected, p.hasHash, Calculated));
  }

  /** What a rejection writes: the rejected proof keeps its time, the halves get the time of the rejection. */
  lemma RejectWrites(pc: ProofCalculation, now: nat, a: nat, b: nat)
    requires Inv(pc) && a < b && At(pc, a, b).Some?
    ensures HalvesStored(pc, a, b) && RejectAt(pc, now, a, b).Some?
    ensures
      var next := RejectAt(pc, now, a, b).value;
      && At(next, a, b) == Some(At(pc, a, b).value.(status := Rejected))
      && Find(next.proofs, LeftHalf(a, b)) == Some(HalfProof(pc, LeftHalf(a, b), Calculated, now))
      && Find(next.proofs, RightHalf(a, b)) == Some(HalfProof(pc, RightHalf(a, b), Calculated, now))
  {
    ShapeOf(pc, a, b);
    assert HalvesKept(pc, a, b);
    TreeIsValid(pc, a, b);
    RejectComputes(pc, now, a, b);
    MergePutsWrite(pc, a, b, At(pc, a, b).value.(status := Rejected), Calculated, now);
  }

  // ---- singles ----

  function SubmitSingle(pc: ProofCalculation, now: nat, i: nat): Option<ProofCalculation> {
    SubmitProof(pc, Range(i, i), None, None, now)
  }

  lemma SingleInTree(pc: ProofCalculation, i: nat)
    requires pc.startSequence <= i && (pc.endSequence.Some? ==> i <= pc.endSequence.value)
    ensures InTree(pc, i, i)
  {
    assert Pow2(0) == 1;
    if pc.endSequence.Some? {
      NodeIffAligned(pc.startSequence, pc.endSequence.value, i, i);
    }
  }

  /** One single is written, as calculated or as rejected; everything else is unchanged. */
  ghost predicate SingleWritten(pc: ProofCalculation, next: ProofCalculation, i: nat, p: Proof) {
    && pc.startSequence <= i && (pc.endSequence.Some? ==> i <= pc.endSequence.value)
    && p.sequences == Range(i, i) && p.sequence1 == None && p.sequence2 == None
    && (p.status == Rejected || (p.status == Calculated && p.hasHash))
    && next == pc.(proofs := Put(pc.proofs, p), isFinished := next.isFinished)
    && next.isFinished == (pc.isFinished || (p.status == Calculated && CoversBlock(pc, Range(i, i))))
  }

  lemma SingleOutside(pc: ProofCalculation, next: ProofCalculation, i: nat, p: Proof, a: nat, b: nat)
    requires SingleWritten(pc, next, i, p)
    ensures a <= b ==> At(next, a, b) == if a == i && b == i then Some(p) else At(pc, a, b)
    ensures a > b ==> At(next, a, b) == At(pc, a, b)
  {
    FindPut(pc.proofs, p, Range(a, b));
    if a <= b && Range(a, b) == Range(i, i) {
      RangeInjective(a, b, i, i);
    }
  }

  lemma SingleKeepsHeld(pc: ProofCalculation, next: ProofCalculation, i: nat, p: Proof, a: nat, b: nat)
    requires Inv(pc) && !pc.isFinished && SingleWritten(pc, next, i, p)
    ensures HeldForMerge(next, a, b)
  {
    SingleOutside(pc, next, i, p, a, b);
    assert HeldForMerge(pc, a, b);
    if a <= b && Held(pc, a, b) {
      var c, d :| IsHalf(c, d, a, b) && At(pc, c, d).Some?;
      SingleOutside(pc, next, i, p, c, d);
    }
  }

  lemma WrittenKeepsShape(pc: ProofCalculation, next: ProofCalculation, i: nat, p: Proof, s: seq<nat>)
    requires Inv(pc) && SingleWritten(pc, next, i, p)
    ensures ShapedAt(next, s)
  {
    SingleInTree(pc, i);
    FindPut(pc.proofs, p, s);
    assert ShapedAt(pc, s);
  }

  lemma WrittenKeepsHalves(pc: ProofCalculation, next: ProofCalculation, i: nat, p: Proof, a: nat, b: nat)
    requires Inv(pc) && SingleWritten(pc, next, i, p)
    ensures HalvesKept(next, a, b)
  {
    SingleOutside(pc, next, i, p, a, b);
    assert HalvesKept(pc, a, b);
    if a < b {
      SingleOutside(pc, next, i, p, a, Split(a, b) - 1);
      SingleOutside(pc, next, i, p, Split(a, b), b);
    }
  }

  lemma WrittenKeepsEnded(pc: ProofCalculation, next: ProofCalculation, i: nat, p: Proof)
    requires Inv(pc) && SingleWritten(pc, next, i, p)
    ensures Ended(next)
  {
    if pc.endSequence.Some? {
      SingleOutside(pc, next, i, p, pc.startSequence, pc.endSequence.value);
    }
  }

  lemma WrittenKeepsInv(pc: ProofCalculation, next: ProofCalculation, i: nat, p: Proof)
    requires Inv(pc) && SingleWritten(pc, next, i, p)
    ensures Inv(next)
  {
    PutDistinct(pc.proofs, p);
    forall s
      ensures ShapedAt(next, s)
    {
      WrittenKeepsShape(pc, next, i, p, s);
    }
    forall a: nat, b: nat
      ensures HalvesKept(next, a, b)
    {
      WrittenKeepsHalves(pc, next, i, p, a, b);
    }
    if !next.isFinished {
      forall a: nat, b: nat
        ensures HeldForMerge(next, a, b)
      {
        SingleKeepsHeld(pc, next, i, p, a, b);
      }
    }
    WrittenKeepsEnded(pc, next, i, p);
  }

  /** Proofs of single sequences may arrive at any time. */
  lemma SingleKeepsInv(pc: ProofCalculation, now: nat, i: nat)
    requires Inv(pc) && pc.startSequence <= i && (pc.endSequence.Some? ==> i <= pc.endSequence.value)
    ensures SubmitSingle(pc, now, i).Some?
    ensures SingleWritten(pc, SubmitSingle(pc, now, i).value, i, Proof(Range(i, i), Calculated, now, None, None, true))
    ensures Inv(SubmitSingle(pc, now, i).value)
  {
    WrittenKeepsInv(pc, SubmitSingle(pc, now, i).value, i, Proof(Range(i, i), Calculated, now, None, None, true));
  }

  /** A stored single in any status can be rejected. */
  lemma RejectSingleKeepsInv(pc: ProofCalculation, now: nat, i: nat)
    requires Inv(pc) && At(pc, i, i).Some?
    ensures RejectAt(pc, now, i, i).Some?
    ensures SingleWritten(pc, RejectAt(pc, now, i, i).value, i, At(pc, i, i).value.(status := Rejected))
    ensures Inv(RejectAt(pc, now, i, i).value)
  {
    ShapeOf(pc, i, i);
    WrittenKeepsInv(pc, RejectAt(pc, now, i, i).value, i, At(pc, i, i).value.(status := Rejected));
  }

  /** The end may be fixed at or past everything stored. */
  predicate EndFits(pc: ProofCalculation, last: nat) {
    && pc.endSequence.None?
    && pc.startSequence <= last
    && (forall p :: p in pc.proofs && p.sequences != [] ==> Last(p.sequences) <= last)
  }

  /** A calculated proof of exactly `first..last` waits when the end is fixed at `last`. */
  predicate Complete(pc: ProofCalculation, last: nat) {
    StatusAt(pc, pc.startSequence, last, Calculated) && At(pc, pc.startSequence, last).value.hasHash
  }

  lemma EndEffect(pc: ProofCalculation, last: nat, now: nat)
    requires Inv(pc)
    ensures
      var next := SetEndSequence(pc, last, now);
      && next.startSequence == pc.startSequence && next.endSequence == Some(last)
      && next.isFinished == (pc.isFinished || Complete(pc, last))
      && Distinct(next.proofs)
      && (forall s :: EndEffectAt(pc, next, last, now, s))
  {
    var p := At(pc, pc.startSequence, last);
    if p.Some? {
      var used := p.value.(status := Used, timestamp := now);
      PutDistinct(pc.proofs, used);
      forall s
        ensures Find(Put(pc.proofs, used), s) == if s == used.sequences then Some(used) else Find(pc.proofs, s)
      {
        FindPut(pc.proofs, used, s);
      }
    }
  }

  /** Only a calculated proof of the whole block changes: it becomes used. */
  predicate EndEffectAt(pc: ProofCalculation, next: ProofCalculation, last: nat, now: nat, s: seq<nat>) {
    var p, q := Find(pc.proofs, s), Find(next.proofs, s);
    if s == Range(pc.startSequence, last) && Complete(pc, last) then
      p.Some? && q == Some(p.value.(status := Used, timestamp := now))
    else q == p
  }

  lemma ShapeAfterEnd(pc: ProofCalculation, next: ProofCalculation, last: nat, p: Proof)
    requires Inv(pc) && EndFits(pc, last) && p in pc.proofs && Shaped(pc, p)
    requires next.startSequence == pc.startSequence && next.endSequence == Some(last)
    ensures Shaped(next, p)
  {
    ChunkIsNode(pc.startSequence, p.sequences[0], Last(p.sequences), last);
  }

  /** Every chunk merged before the end was known is a node of the block's tree once it is. */
  lemma EndKeepsInv(pc: ProofCalculation, last: nat, now: nat)
    requires Inv(pc) && !pc.isFinished && EndFits(pc, last)
    ensures Inv(SetEndSequence(pc, last, now))
    ensures forall a: nat, b: nat :: At(SetEndSequence(pc, last, now), a, b).Some? <==> At(pc, a, b).Some?
  {
    var next := SetEndSequence(pc, last, now);
    EndEffect(pc, last, now);
    forall a: nat, b: nat
      ensures At(next, a, b).Some? <==> At(pc, a, b).Some?
    {
      assert EndEffectAt(pc, next, last, now, Range(a, b));
    }
    forall s
      ensures ShapedAt(next, s)
    {
      assert ShapedAt(pc, s) && EndEffectAt(pc, next, last, now, s);
      FindStored(pc.proofs, s);
      if Find(pc.proofs, s).Some? {
        ShapeAfterEnd(pc, next, last, Find(pc.proofs, s).value);
      }
    }
    forall a: nat, b: nat
      ensures HalvesKept(next, a, b)
    {
      assert HalvesKept(pc, a, b);
    }
    if !next.isFinished {
      forall a: nat, b: nat
        ensures HeldForMerge(next, a, b)
      {
        assert HeldForMerge(pc, a, b);
        assert EndEffectAt(pc, next, last, now, Range(a, b));
      }
      RootNotHeld(pc, last);
    }
    assert EndEffectAt(pc, next, last, now, Range(pc.startSequence, last));
  }

  /** Nothing stored reaches past the end, so the proof of the whole block is half of nothing. */
  lemma RootNotHeld(pc: ProofCalculation, last: nat)
    requires Inv(pc) && EndFits(pc, last)
    ensures !Held(pc, pc.startSequence, last)
    ensures StatusAt(pc, pc.startSequence, last, Calculated) && !pc.isFinished ==> Complete(pc, last)
  {
    forall c, d | IsHalf(c, d, pc.startSequence, last) && At(pc, c, d).Some?
      ensures false
    {
      ShapeOf(pc, c, d);
      FindStored(pc.proofs, Range(c, d));
    }
    assert HeldForMerge(pc, pc.startSequence, last);
  }
}
