/**
  Which merges are listed and queued (crates/coordinator/src/merge.rs, lines 697-986 and 989-1313), in terms
  of what is stored alone: the status and the age of a merge and of its two halves. With that: what a merge
  that was started, submitted or rejected does to later plans, and to plans made before.
*/
module MergeListing {
  import opened Wrappers
  import opened PowersOfTwo
  import opened SplitTree
  import opened Proofs
  import opened TopDownPlanner
  import opened BottomUpPlanner
  import opened MergePlanner
  import opened MergeJob
  import opened ProofContract
  import opened MergeInvariant
  import opened MergeSteps
  import opened MergeRun

  /** Calculated, or taken for another merge more than five minutes ago. */
  predicate FreeAt(pc: ProofCalculation, a: nat, b: nat, now: nat) {
    var p := At(pc, a, b);
    && p.Some?
    && (p.value.status == Calculated
        || ((p.value.status == Reserved || p.value.status == Used) && now > p.value.timestamp + 300000))
  }

  predicate HalvesFreeAt(pc: ProofCalculation, a: nat, b: nat, now: nat)
    requires a < b
  {
    FreeAt(pc, a, Split(a, b) - 1, now) && FreeAt(pc, Split(a, b), b, now)
  }

  /** Absent or rejected, or its prover has not answered for more than five minutes. */
  predicate NotUnderWay(pc: ProofCalculation, a: nat, b: nat, now: nat) {
    var p := At(pc, a, b);
    p.Some? ==>
      p.value.status == Rejected || (p.value.status == Started && now > p.value.timestamp + 300000)
  }

  lemma AvailableIsFree(pc: ProofCalculation, now: nat, a: nat, b: nat)
    ensures AvailableAt(pc, now, Range(a, b)) <==> FreeAt(pc, a, b, now)
  {
  }

  lemma InactiveIsNotUnderWay(pc: ProofCalculation, now: nat, a: nat, b: nat)
    requires Distinct(pc.proofs)
    ensures !AnyActive(pc.proofs, Range(a, b), now) <==> NotUnderWay(pc, a, b, now)
  {
    FindStored(pc.proofs, Range(a, b));
    AnyActiveIff(pc.proofs, Range(a, b), now);
    if AnyActive(pc.proofs, Range(a, b), now) {
      var p :| p in pc.proofs && p.sequences == Range(a, b) && p.ActiveOrCompleted(now);
      FindDistinct(pc.proofs, p);
    }
  }

  // ---- what is listed ----

  /**
    With an unknown end a merge is listed if and only if it is an aligned chunk of at most 512 sequences, its
    halves are calculated or were taken more than five minutes ago, and it is absent, rejected, or was
    started more than five minutes ago.
  */
  lemma UnknownEndListedIff(pc: ProofCalculation, now: nat, a: nat, b: nat)
    requires Inv(pc) && pc.endSequence.None? && a < b
    ensures StartsInBlock(pc)
    ensures Request(a, b, false) in AllMerges(pc, now)
       <==> Chunk(pc.startSequence, a, b) && b + 1 - a <= 512
            && HalvesFreeAt(pc, a, b, now) && NotUnderWay(pc, a, b, now)
  {
    var r := Request(a, b, false);
    InvIsWellFormed(pc);
    BottomUpExact(pc, now, r);
    if c: nat, d: nat :| BottomUpWanted(pc, now, c, d) && r == Request(c, d, false) {
      RequestInjective(a, b, false, c, d, false);
    }
    AvailableIsFree(pc, now, a, Split(a, b) - 1);
    AvailableIsFree(pc, now, Split(a, b), b);
    InactiveIsNotUnderWay(pc, now, a, b);
  }

  /**
    With a known end, in an unfinished block, it is listed if and only if it is a node of the block's tree
    and absent, and its halves are calculated or were taken more than five minutes ago.
  */
  lemma KnownEndListedIff(pc: ProofCalculation, now: nat, a: nat, b: nat)
    requires Inv(pc) && pc.endSequence.Some? && !pc.isFinished && a < b
    ensures StartsInBlock(pc)
    ensures Request(a, b, a == pc.startSequence && b == pc.endSequence.value) in AllMerges(pc, now)
       <==> Node(pc.startSequence, pc.endSequence.value, a, b)
            && At(pc, a, b).None? && HalvesFreeAt(pc, a, b, now)
  {
    var first, last := pc.startSequence, pc.endSequence.value;
    InvIsWellFormed(pc);
    ListedIffWanted(pc, now, a, b);
    AvailableIsFree(pc, now, a, Split(a, b) - 1);
    AvailableIsFree(pc, now, Split(a, b), b);
    if Wanted(pc, now, first, last, a, b) {
      assert Node(a, b, a, b);
    }
    if Node(first, last, a, b) && At(pc, a, b).None? && HalvesFreeAt(pc, a, b, now) {
      AbsentIsWanted(pc, now, a, b);
    }
  }

  lemma ListedIffWanted(pc: ProofCalculation, now: nat, a: nat, b: nat)
    requires StartsInBlock(pc) && pc.endSequence.Some? && !pc.isFinished && a < b
    ensures
      var first, last := pc.startSequence, pc.endSequence.value;
      Request(a, b, a == first && b == last) in AllMerges(pc, now) <==> Wanted(pc, now, first, last, a, b)
  {
    var first, last := pc.startSequence, pc.endSequence.value;
    var r := Request(a, b, a == first && b == last);
    AllMergesKnownEnd(pc, now, r);
    if c: nat, d: nat :| Wanted(pc, now, first, last, c, d) && r == Request(c, d, c == first && d == last) {
      RequestInjective(a, b, a == first && b == last, c, d, c == first && d == last);
    }
  }

  lemma AbsentIsWanted(pc: ProofCalculation, now: nat, a: nat, b: nat)
    requires Inv(pc) && pc.endSequence.Some? && a < b && Node(pc.startSequence, pc.endSequence.value, a, b)
    requires At(pc, a, b).None? && HalvesAvailable(pc, now, a, b)
    ensures Wanted(pc, now, pc.startSequence, pc.endSequence.value, a, b)
  {
    forall c, d | Node(pc.startSequence, pc.endSequence.value, c, d) && Node(c, d, a, b)
      ensures !Present(pc, c, d)
    {
      NothingAbove(pc, a, b, c, d);
    }
  }

  // ---- when a merge is listed again ----

  lemma ReservedAge(pc: ProofCalculation, t: nat, a: nat, b: nat, now: nat)
    requires a < b && At(pc, a, b).Some? && HalvesStored(pc, a, b)
    requires At(pc, a, b).value.status == Started && At(pc, a, b).value.timestamp == t
    requires
      var left, right := Find(pc.proofs, LeftHalf(a, b)).value, Find(pc.proofs, RightHalf(a, b)).value;
      left.status == right.status == Reserved && left.timestamp == right.timestamp == t
    ensures HalvesFreeAt(pc, a, b, now) && NotUnderWay(pc, a, b, now) <==> now > t + 300000
  {
  }

  lemma StartedAge(pc: ProofCalculation, t: nat, a: nat, b: nat, now: nat)
    requires Inv(pc) && a < b && InTree(pc, a, b) && StartMerge(pc, t, a, b).Some?
    ensures
      var next := StartMerge(pc, t, a, b).value;
      HalvesFreeAt(next, a, b, now) && NotUnderWay(next, a, b, now) <==> now > t + 300000
  {
    StartWrites(pc, t, a, b);
    ReservedAge(StartMerge(pc, t, a, b).value, t, a, b, now);
  }

  /** A merge whose prover never answers is listed again after five minutes and not before. */
  lemma StartedListedIff(pc: ProofCalculation, t: nat, a: nat, b: nat, now: nat)
    requires Inv(pc) && pc.endSequence.None? && a < b && Chunk(pc.startSequence, a, b) && b + 1 - a <= 512
    requires StartMerge(pc, t, a, b).Some?
    ensures
      var next := StartMerge(pc, t, a, b).value;
      StartsInBlock(next) && (Request(a, b, false) in AllMerges(next, now) <==> now > t + 300000)
  {
    StartKeepsInv(pc, t, a, b);
    StartedAge(pc, t, a, b, now);
    UnknownEndListedIff(StartMerge(pc, t, a, b).value, now, a, b);
  }

  /** With a known end it is never listed again: not while it is started, and not once it is submitted. */
  lemma StartedNeverListed(pc: ProofCalculation, t: nat, a: nat, b: nat, now: nat, blockProof: bool)
    requires Inv(pc) && pc.endSequence.Some? && a < b && InTree(pc, a, b) && StartMerge(pc, t, a, b).Some?
    ensures
      var next := StartMerge(pc, t, a, b).value;
      StartsInBlock(next) && Request(a, b, blockProof) !in AllMerges(next, now)
  {
    StartKeepsInv(pc, t, a, b);
    StartWrites(pc, t, a, b);
    StoredNotListed(StartMerge(pc, t, a, b).value, now, a, b, blockProof);
  }

  lemma StoredNotListed(pc: ProofCalculation, now: nat, a: nat, b: nat, blockProof: bool)
    requires Inv(pc) && pc.endSequence.Some? && a < b && At(pc, a, b).Some?
    ensures StartsInBlock(pc) && Request(a, b, blockProof) !in AllMerges(pc, now)
  {
    var first, last := pc.startSequence, pc.endSequence.value;
    InvIsWellFormed(pc);
    if !pc.isFinished {
      AllMergesKnownEnd(pc, now, Request(a, b, blockProof));
      if c: nat, d: nat :| Wanted(pc, now, first, last, c, d)
                           && Request(a, b, blockProof) == Request(c, d, c == first && d == last) {
        RequestInjective(a, b, blockProof, c, d, c == first && d == last);
      }
    }
  }

  /** A submitted merge is never listed again, whether the end is known or not. */
  lemma SubmittedNeverListed(pc: ProofCalculation, t: nat, a: nat, b: nat, now: nat, blockProof: bool)
    requires Inv(pc) && a < b && At(pc, a, b).Some? && SubmitMerge(pc, t, a, b).Some?
    ensures
      var next := SubmitMerge(pc, t, a, b).value;
      StartsInBlock(next) && Request(a, b, blockProof) !in AllMerges(next, now)
  {
    SubmitAcceptedIff(pc, t, a, b);
    SubmitKeepsInv(pc, t, a, b);
    SubmitWrites(pc, t, a, b);
    var next := SubmitMerge(pc, t, a, b).value;
    if next.endSequence.Some? {
      StoredNotListed(next, now, a, b, blockProof);
    } else {
      InvIsWellFormed(next);
      if Request(a, b, blockProof) in AllMerges(next, now) {
        var c, d := ListedIsWanted(next, now, Request(a, b, blockProof));
        RequestInjective(a, b, blockProof, c, d, false);
        UnknownEndListedIff(next, now, a, b);
      }
    }
  }

  // ---- what is queued, over two snapshots ----

  /** The planning snapshot shows the merge as started less than five minutes ago. */
  predicate UnderProof(pc: ProofCalculation, a: nat, b: nat, now: nat) {
    var p := At(pc, a, b);
    p.Some? && p.value.status == Started && now <= p.value.timestamp + 300000
  }

  /** A half that can be taken: calculated, or taken by another merge, when it is old or the block's proof. */
  predicate Takeable(pc: ProofCalculation, a: nat, b: nat, block: bool, now: nat) {
    var p := At(pc, a, b);
    && p.Some?
    && (p.value.status == Calculated
        || ((p.value.status == Reserved || p.value.status == Used) && (block || now > p.value.timestamp + 300000)))
  }

  /** The range lies in the block and both ends fit 64 bits. */
  predicate Inside(pc: ProofCalculation, a: nat, b: nat) {
    && pc.startSequence <= a < b < U64_LIMIT && b + 1 - a < U64_LIMIT
    && (pc.endSequence.Some? ==> b <= pc.endSequence.value < U64_LIMIT)
  }

  lemma WrappedLength(pc: ProofCalculation, a: nat, b: nat)
    requires Inside(pc, a, b)
    ensures b + 1 - a == BlockLength(pc) <==> a == pc.startSequence && pc.endSequence == Some(b)
  {
    if pc.endSequence.Some? {
      KnownEndLength(pc, a, b);
    } else {
      UnknownEndIsNoBlock(pc, b + 1 - a);
    }
  }

  /**
    A merge planned from one snapshot is queued on a later one if and only if the first does not show it under
    proof, the second has it neither under way nor done (absent or rejected), and can still give both halves.
  */
  lemma QueuedIff(snapshot: ProofCalculation, current: ProofCalculation, a: nat, b: nat, blockProof: bool, now: nat)
    requires Inside(current, a, b)
    ensures
      var job, block := CreateMergeJob(snapshot, current, Request(a, b, blockProof), now),
                        a == current.startSequence && current.endSequence == Some(b);
      && (job.Queued? <==>
            && !UnderProof(snapshot, a, b, now)
            && (At(current, a, b).Some? ==> At(current, a, b).value.status == Rejected)
            && Takeable(current, a, Split(a, b) - 1, block, now) && Takeable(current, Split(a, b), b, block, now))
      && (job.Queued? ==> job.sequences == Range(a, b) && job.blockProof == block)
  {
    CombinedIsRange(a, b, blockProof);
    WrappedLength(current, a, b);
  }

  /** Why one is refused: under proof at first, then done or started since, and only then for its halves. */
  lemma RefusedAs(snapshot: ProofCalculation, current: ProofCalculation, a: nat, b: nat, blockProof: bool, now: nat)
    requires a < b
    ensures
      var job := CreateMergeJob(snapshot, current, Request(a, b, blockProof), now);
      && (UnderProof(snapshot, a, b, now) ==> job == Refused(CombinedStarted))
      && (!UnderProof(snapshot, a, b, now) && At(current, a, b).Some? && At(current, a, b).value.status != Rejected ==>
            job == Refused(CombinedExists(At(current, a, b).value.status)))
  {
    CombinedIsRange(a, b, blockProof);
  }

  /** Once another coordinator's start was accepted, a job for the same merge is refused, however it was planned. */
  lemma StartedIsRefused(snapshot: ProofCalculation, pc: ProofCalculation, t: nat, a: nat, b: nat, blockProof: bool,
      now: nat)
    requires Inv(pc) && a < b && InTree(pc, a, b) && StartMerge(pc, t, a, b).Some?
    ensures CreateMergeJob(snapshot, StartMerge(pc, t, a, b).value, Request(a, b, blockProof), now)
         == Refused(if UnderProof(snapshot, a, b, now) then CombinedStarted else CombinedExists(Started))
  {
    StartWrites(pc, t, a, b);
    RefusedAs(snapshot, StartMerge(pc, t, a, b).value, a, b, blockProof, now);
  }

  /** Once its result was accepted, it is refused as done: a plan from before is not carried out a second time. */
  lemma SubmittedIsRefused(snapshot: ProofCalculation, pc: ProofCalculation, t: nat, a: nat, b: nat, blockProof: bool,
      now: nat)
    requires Inv(pc) && a < b && At(pc, a, b).Some? && SubmitMerge(pc, t, a, b).Some?
    ensures CreateMergeJob(snapshot, SubmitMerge(pc, t, a, b).value, Request(a, b, blockProof), now)
         == Refused(if UnderProof(snapshot, a, b, now) then CombinedStarted else CombinedExists(Calculated))
  {
    SubmitWrites(pc, t, a, b);
    RefusedAs(snapshot, SubmitMerge(pc, t, a, b).value, a, b, blockProof, now);
  }

  /** After a rejection it is queued again, unless the plan was made while it was under proof. */
  lemma RejectedIsQueued(snapshot: ProofCalculation, pc: ProofCalculation, t: nat, a: nat, b: nat, blockProof: bool,
      now: nat)
    requires Inv(pc) && At(pc, a, b).Some? && Inside(pc, a, b)
    ensures RejectAt(pc, t, a, b).Some?
    ensures CreateMergeJob(snapshot, RejectAt(pc, t, a, b).value, Request(a, b, blockProof), now).Queued?
       <==> !UnderProof(snapshot, a, b, now)
  {
    RejectWrites(pc, t, a, b);
    RejectKeepsInv(pc, t, a, b);
    QueuedIff(snapshot, RejectAt(pc, t, a, b).value, a, b, blockProof, now);
  }
}
