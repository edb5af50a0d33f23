/**
  What rejections and restarts can do to the halves of a merge (move/coordination/sources/prover.move, lines
  324-338 and 374-659). The contract takes the results of active merges as long as every active merged proof
  has usable halves; this module says exactly which calls end that.
*/
module MergeHalves {
  import opened Wrappers
  import opened PowersOfTwo
  import opened SplitTree
  import opened Proofs
  import opened TopDownPlanner
  import opened BottomUpPlanner
  import opened MergePlanner
  import opened ProofContract
  import opened MergeInvariant
  import opened MergeSteps
  import opened MergeRun

  /** Stored and active at this time. */
  predicate ActiveAt(pc: ProofCalculation, now: nat, a: nat, b: nat) {
    At(pc, a, b).Some? && At(pc, a, b).value.ActiveOrCompleted(now)
  }

  lemma ActiveIsActiveAt(pc: ProofCalculation, now: nat, a: nat, b: nat)
    requires Distinct(pc.proofs)
    ensures Active(pc, now, a, b) <==> ActiveAt(pc, now, a, b)
  {
    FindStored(pc.proofs, Range(a, b));
    AnyActiveIff(pc.proofs, Range(a, b), now);
    if Active(pc, now, a, b) {
      var p :| p in pc.proofs && p.sequences == Range(a, b) && p.ActiveOrCompleted(now);
      FindDistinct(pc.proofs, p);
    }
  }

  predicate UsableAt(pc: ProofCalculation, a: nat, b: nat) {
    At(pc, a, b).Some? && At(pc, a, b).value.Usable()
  }

  /** If it is an active merge, the contract takes its result. */
  predicate ReadyAt(pc: ProofCalculation, now: nat, a: nat, b: nat) {
    a < b && ActiveAt(pc, now, a, b) ==> UsableAt(pc, a, Split(a, b) - 1) && UsableAt(pc, Split(a, b), b)
  }

  /** Every active merged proof has usable halves. */
  ghost predicate HalvesReady(pc: ProofCalculation, now: nat) {
    forall a: nat, b: nat :: ReadyAt(pc, now, a, b)
  }

  /** Then active merged proofs have active halves, which is what keeps the bottom-up list disjoint. */
  lemma ReadyIsActive(pc: ProofCalculation, now: nat)
    requires Inv(pc) && HalvesReady(pc, now)
    ensures HalvesActive(pc, now)
  {
    forall a: nat, b: nat
      ensures HalvesActiveAt(pc, now, a, b)
    {
      assert ReadyAt(pc, now, a, b);
      ActiveIsActiveAt(pc, now, a, b);
      if a < b {
        ActiveIsActiveAt(pc, now, a, Split(a, b) - 1);
        ActiveIsActiveAt(pc, now, Split(a, b), b);
      }
    }
  }

  /** Stored, but rejected or waiting for a prover for too long. */
  predicate Dead(pc: ProofCalculation, now: nat, a: nat, b: nat) {
    At(pc, a, b).Some? && (At(pc, a, b).value.status == Rejected
                           || (At(pc, a, b).value.status == Started && At(pc, a, b).value.TimedOut(now)))
  }

  predicate HalvesAlive(pc: ProofCalculation, now: nat, a: nat, b: nat) {
    a < b && ActiveAt(pc, now, a, b) ==> !Dead(pc, now, a, Split(a, b) - 1) && !Dead(pc, now, Split(a, b), b)
  }

  /** Active merged proofs have active halves if and only if no half of one is rejected or has timed out. */
  lemma HalvesActiveIff(pc: ProofCalculation, now: nat)
    requires Inv(pc)
    ensures HalvesActive(pc, now) <==> forall a: nat, b: nat :: HalvesAlive(pc, now, a, b)
  {
    forall a: nat, b: nat
      ensures HalvesActiveAt(pc, now, a, b) <==> HalvesAlive(pc, now, a, b)
    {
      assert HalvesKept(pc, a, b);
      ActiveIsActiveAt(pc, now, a, b);
      if a < b {
        ActiveIsActiveAt(pc, now, a, Split(a, b) - 1);
        ActiveIsActiveAt(pc, now, Split(a, b), b);
      }
    }
  }

  // ---- the calls that matter ----

  ghost predicate ActiveParent(pc: ProofCalculation, now: nat, a: nat, b: nat) {
    exists c, d :: IsHalf(c, d, a, b) && ActiveAt(pc, now, c, d)
  }

  /** Its own halves, if it is a merge, are usable. */
  predicate Whole(pc: ProofCalculation, a: nat, b: nat) {
    a < b ==> UsableAt(pc, a, Split(a, b) - 1) && UsableAt(pc, Split(a, b), b)
  }

  /**
    Rejecting `a..b`, or starting it, takes a half away from an active merge, or makes a half active that has
    itself lost a half.
  */
  ghost predicate Breaks(pc: ProofCalculation, now: nat, a: nat, b: nat) {
    || ActiveParent(pc, now, a, b)
    || (a < b && !(Whole(pc, a, Split(a, b) - 1) && Whole(pc, Split(a, b), b)))
  }

  // ---- every other call keeps the halves ready ----

  /** What the halves of `c..d` become when `a..b` changes, if neither of them is the rejected one. */
  lemma UsableStays(pc: ProofCalculation, next: ProofCalculation, a: nat, b: nat, x: Change, c: nat, d: nat)
    requires Inv(pc) && Legal(pc, next, a, b, x) && c <= d && UsableAt(pc, c, d)
    requires x.half == Calculated || x.half == Reserved || x.half == Used
    requires (c, d) != (a, b) || x.status == Calculated
    ensures UsableAt(next, c, d)
  {
    EffectOutside(pc, next, a, b, x, c, d);
  }

  /** A change of a merge that takes no half away from an active one and leaves usable halves behind. */
  ghost predicate Careful(pc: ProofCalculation, next: ProofCalculation, now: nat, a: nat, b: nat, x: Change) {
    && Legal(pc, next, a, b, x)
    && (x.half == Calculated || x.half == Reserved || x.half == Used)
    && (x.status != Rejected ==> UsableAt(next, a, Split(a, b) - 1) && UsableAt(next, Split(a, b), b))
    && (x.status != Calculated ==> !ActiveParent(pc, now, a, b))
    && Whole(pc, a, Split(a, b) - 1) && Whole(pc, Split(a, b), b)
  }

  lemma CarefulReadyAt(pc: ProofCalculation, next: ProofCalculation, now: nat, a: nat, b: nat, x: Change,
      c: nat, d: nat)
    requires Inv(pc) && HalvesReady(pc, now) && Careful(pc, next, now, a, b, x)
    ensures ReadyAt(next, now, c, d)
  {
    if c < d && ActiveAt(next, now, c, d) {
      EffectOutside(pc, next, a, b, x, c, d);
      assert ReadyAt(pc, now, c, d);
      if c == a && d == b {
        EffectOutside(pc, next, a, b, x, a, Split(a, b) - 1);
        EffectOutside(pc, next, a, b, x, Split(a, b), b);
      } else {
        assert Whole(pc, c, d);
        assert IsHalf(c, d, c, Split(c, d) - 1) && IsHalf(c, d, Split(c, d), d);
        if !IsHalf(a, b, c, d) {
          assert ActiveAt(pc, now, c, d);
        } else {
          assert (c, Split(c, d) - 1) != (a, b) && (Split(c, d), d) != (a, b);
        }
        UsableStays(pc, next, a, b, x, c, Split(c, d) - 1);
        UsableStays(pc, next, a, b, x, Split(c, d), d);
      }
    }
  }

  lemma SubmitReady(pc: ProofCalculation, now: nat, a: nat, b: nat)
    requires Inv(pc) && HalvesReady(pc, now) && a < b && At(pc, a, b).Some? && HalvesUsable(pc, a, b)
    ensures SubmitMerge(pc, now, a, b).Some? && HalvesReady(SubmitMerge(pc, now, a, b).value, now)
  {
    SubmitKeepsInv(pc, now, a, b);
    var next := SubmitMerge(pc, now, a, b).value;
    var x := Change(Calculated, true, Used);
    EffectOutside(pc, next, a, b, x, a, Split(a, b) - 1);
    EffectOutside(pc, next, a, b, x, Split(a, b), b);
    assert ReadyAt(pc, now, a, Split(a, b) - 1) && ReadyAt(pc, now, Split(a, b), b);
    forall c: nat, d: nat
      ensures ReadyAt(next, now, c, d)
    {
      CarefulReadyAt(pc, next, now, a, b, x, c, d);
    }
  }

  lemma WrittenReady(pc: ProofCalculation, next: ProofCalculation, now: nat, i: nat, p: Proof)
    requires Inv(pc) && HalvesReady(pc, now) && SingleWritten(pc, next, i, p)
    requires p.status == Calculated || !ActiveParent(pc, now, i, i)
    ensures HalvesReady(next, now)
  {
    forall c: nat, d: nat
      ensures ReadyAt(next, now, c, d)
    {
      SingleOutside(pc, next, i, p, c, d);
      assert ReadyAt(pc, now, c, d);
      if c < d {
        assert IsHalf(c, d, c, Split(c, d) - 1) && IsHalf(c, d, Split(c, d), d);
        SingleOutside(pc, next, i, p, c, Split(c, d) - 1);
        SingleOutside(pc, next, i, p, Split(c, d), d);
      }
    }
  }

  lemma EndReady(pc: ProofCalculation, now: nat, last: nat)
    requires Inv(pc) && HalvesReady(pc, now) && EndFits(pc, last)
    ensures HalvesReady(SetEndSequence(pc, last, now), now)
  {
    var next := SetEndSequence(pc, last, now);
    EndEffect(pc, last, now);
    forall c: nat, d: nat
      ensures ReadyAt(next, now, c, d)
    {
      assert ReadyAt(pc, now, c, d) && EndEffectAt(pc, next, last, now, Range(c, d));
      if c < d {
        assert EndEffectAt(pc, next, last, now, LeftHalf(c, d)) && EndEffectAt(pc, next, last, now, RightHalf(c, d));
      }
    }
  }

  lemma TickReady(pc: ProofCalculation, now: nat, later: nat)
    requires HalvesReady(pc, now) && now <= later
    ensures HalvesReady(pc, later)
  {
    forall c: nat, d: nat
      ensures ReadyAt(pc, later, c, d)
    {
      assert ReadyAt(pc, now, c, d);
    }
  }

  // ---- exactly which rejections and starts keep them ready ----

  /** What a rejection or a start does to a merge: it is finished no longer, and its halves become active. */
  ghost predicate Unfinishes(pc: ProofCalculation, next: ProofCalculation, a: nat, b: nat, x: Change) {
    && Legal(pc, next, a, b, x)
    && ((x.status == Rejected && x.half == Calculated)
        || (x.status == Started && x.half == Reserved && HalvesHashed(pc, a, b)))
  }

  lemma UnfinishedReady(pc: ProofCalculation, next: ProofCalculation, now: nat, a: nat, b: nat, x: Change)
    requires Inv(pc) && HalvesReady(pc, now) && Unfinishes(pc, next, a, b, x) && !Breaks(pc, now, a, b)
    ensures HalvesReady(next, now)
  {
    EffectOutside(pc, next, a, b, x, a, Split(a, b) - 1);
    EffectOutside(pc, next, a, b, x, Split(a, b), b);
    forall c: nat, d: nat
      ensures ReadyAt(next, now, c, d)
    {
      CarefulReadyAt(pc, next, now, a, b, x, c, d);
    }
  }

  lemma ParentBroken(pc: ProofCalculation, next: ProofCalculation, now: nat, a: nat, b: nat, x: Change)
    requires Inv(pc) && Unfinishes(pc, next, a, b, x) && ActiveParent(pc, now, a, b)
    ensures !HalvesReady(next, now)
  {
    var c, d :| IsHalf(c, d, a, b) && ActiveAt(pc, now, c, d);
    EffectOutside(pc, next, a, b, x, a, b);
    EffectOutside(pc, next, a, b, x, c, d);
    assert !ReadyAt(next, now, c, d);
  }

  /** A half `c..d` that is not whole becomes active without usable halves. */
  lemma HalfBroken(pc: ProofCalculation, next: ProofCalculation, now: nat, a: nat, b: nat, x: Change,
      c: nat, d: nat)
    requires Inv(pc) && Unfinishes(pc, next, a, b, x) && IsHalf(a, b, c, d) && c < d && !Whole(pc, c, d)
    ensures !HalvesReady(next, now)
  {
    EffectOutside(pc, next, a, b, x, c, d);
    EffectOutside(pc, next, a, b, x, c, Split(c, d) - 1);
    EffectOutside(pc, next, a, b, x, Split(c, d), d);
    assert !ReadyAt(next, now, c, d);
  }

  lemma UnfinishedReadyIff(pc: ProofCalculation, next: ProofCalculation, now: nat, a: nat, b: nat, x: Change)
    requires Inv(pc) && HalvesReady(pc, now) && Unfinishes(pc, next, a, b, x)
    ensures HalvesReady(next, now) <==> !Breaks(pc, now, a, b)
  {
    if !Breaks(pc, now, a, b) {
      UnfinishedReady(pc, next, now, a, b, x);
    } else if ActiveParent(pc, now, a, b) {
      ParentBroken(pc, next, now, a, b, x);
    } else if !Whole(pc, a, Split(a, b) - 1) {
      HalfBroken(pc, next, now, a, b, x, a, Split(a, b) - 1);
    } else {
      HalfBroken(pc, next, now, a, b, x, Split(a, b), b);
    }
  }

  /** An accepted start keeps every active merge supplied if and only if it does not break a half away. */
  lemma StartReadyIff(pc: ProofCalculation, now: nat, a: nat, b: nat)
    requires Inv(pc) && HalvesReady(pc, now) && a < b && InTree(pc, a, b) && StartMerge(pc, now, a, b).Some?
    ensures HalvesReady(StartMerge(pc, now, a, b).value, now) <==> !Breaks(pc, now, a, b)
  {
    StartKeepsInv(pc, now, a, b);
    UnfinishedReadyIff(pc, StartMerge(pc, now, a, b).value, now, a, b, Change(Started, false, Reserved));
  }

  /** What the planner asks for is half of no active merge, and its own halves are whole. */
  lemma ProposableBreaksNothing(pc: ProofCalculation, now: nat, a: nat, b: nat)
    requires Inv(pc) && HalvesReady(pc, now) && Proposable(pc, now, a, b)
    ensures !Breaks(pc, now, a, b)
  {
    AvailableIsDone(pc, now, a, b);
    assert ReadyAt(pc, now, a, Split(a, b) - 1) && ReadyAt(pc, now, Split(a, b), b);
    forall c, d | IsHalf(c, d, a, b)
      ensures !ActiveAt(pc, now, c, d)
    {
      assert ReadyAt(pc, now, c, d);
    }
  }

  /** A start of something the planner lists at the time never breaks a half away. */
  lemma ListedStartBreaksNothing(pc: ProofCalculation, now: nat, a: nat, b: nat)
    requires Inv(pc) && HalvesReady(pc, now) && Planned(pc, now, a, b)
    ensures !Breaks(pc, now, a, b)
  {
    PlannedIsProposable(pc, now, a, b);
    ProposableBreaksNothing(pc, now, a, b);
  }

  /** Any stored proof can be rejected. */
  lemma RejectAny(pc: ProofCalculation, now: nat, a: nat, b: nat)
    requires Inv(pc) && a <= b && At(pc, a, b).Some?
    ensures RejectAt(pc, now, a, b).Some? && Inv(RejectAt(pc, now, a, b).value)
  {
    if a < b {
      RejectKeepsInv(pc, now, a, b);
    } else {
      RejectSingleKeepsInv(pc, now, a);
    }
  }

  /** A proof around `a..b` is not changed when `a..b` is rejected. */
  lemma RejectBelow(pc: ProofCalculation, now: nat, a: nat, b: nat, c: nat, d: nat)
    requires Inv(pc) && a <= b && At(pc, a, b).Some? && IsHalf(c, d, a, b)
    ensures RejectAt(pc, now, a, b).Some?
    ensures At(RejectAt(pc, now, a, b).value, c, d) == At(pc, c, d)
    ensures StatusAt(RejectAt(pc, now, a, b).value, a, b, Rejected)
  {
    if a < b {
      RejectKeepsInv(pc, now, a, b);
      var x := Change(Rejected, At(pc, a, b).value.hasHash, Calculated);
      EffectOutside(pc, RejectAt(pc, now, a, b).value, a, b, x, c, d);
      EffectOutside(pc, RejectAt(pc, now, a, b).value, a, b, x, a, b);
    } else {
      RejectSingleKeepsInv(pc, now, a);
      var p, next := At(pc, a, a).value.(status := Rejected), RejectAt(pc, now, a, a).value;
      SingleOutside(pc, next, a, p, c, d);
      SingleOutside(pc, next, a, p, a, a);
    }
  }

  lemma InactiveHalf(pc: ProofCalculation, now: nat, a: nat, b: nat, c: nat, d: nat)
    requires Distinct(pc.proofs) && IsHalf(c, d, a, b) && ActiveAt(pc, now, c, d) && StatusAt(pc, a, b, Rejected)
    ensures !HalvesActive(pc, now)
  {
    ActiveIsActiveAt(pc, now, c, d);
    ActiveIsActiveAt(pc, now, a, b);
    assert !HalvesActiveAt(pc, now, c, d);
  }

  /** Taking a half away from a stored merge: the contract no longer takes the result of that merge. */
  lemma RejectedHalfAborts(pc: ProofCalculation, now: nat, a: nat, b: nat, c: nat, d: nat)
    requires Inv(pc) && a <= b && At(pc, a, b).Some? && IsHalf(c, d, a, b) && At(pc, c, d).Some?
    ensures RejectAt(pc, now, a, b).Some?
    ensures SubmitMerge(RejectAt(pc, now, a, b).value, now, c, d) == None
    ensures ActiveAt(pc, now, c, d) ==> !HalvesActive(RejectAt(pc, now, a, b).value, now)
  {
    RejectBelow(pc, now, a, b, c, d);
    RejectAny(pc, now, a, b);
    SubmitAcceptedIff(RejectAt(pc, now, a, b).value, now, c, d);
    if ActiveAt(pc, now, c, d) {
      InactiveHalf(RejectAt(pc, now, a, b).value, now, a, b, c, d);
    }
  }

  /** A rejection keeps every active merge supplied if and only if it does not break a half away. */
  lemma RejectReadyIff(pc: ProofCalculation, now: nat, a: nat, b: nat)
    requires Inv(pc) && HalvesReady(pc, now) && a <= b && At(pc, a, b).Some?
    ensures RejectAt(pc, now, a, b).Some?
    ensures HalvesReady(RejectAt(pc, now, a, b).value, now) <==> !Breaks(pc, now, a, b)
  {
    if a < b {
      RejectKeepsInv(pc, now, a, b);
      var x := Change(Rejected, At(pc, a, b).value.hasHash, Calculated);
      UnfinishedReadyIff(pc, RejectAt(pc, now, a, b).value, now, a, b, x);
    } else {
      RejectSingleReadyIff(pc, now, a);
    }
  }

  lemma RejectSingleReadyIff(pc: ProofCalculation, now: nat, i: nat)
    requires Inv(pc) && HalvesReady(pc, now) && At(pc, i, i).Some?
    ensures RejectAt(pc, now, i, i).Some?
    ensures HalvesReady(RejectAt(pc, now, i, i).value, now) <==> !Breaks(pc, now, i, i)
  {
    RejectSingleKeepsInv(pc, now, i);
    var next := RejectAt(pc, now, i, i).value;
    if ActiveParent(pc, now, i, i) {
      var c, d :| IsHalf(c, d, i, i) && ActiveAt(pc, now, c, d);
      RejectBelow(pc, now, i, i, c, d);
      assert !ReadyAt(next, now, c, d);
    } else {
      WrittenReady(pc, next, now, i, At(pc, i, i).value.(status := Rejected));
    }
  }

  // ---- whole runs ----

  /** The action rejects a proof, or starts a merge, and thereby breaks a half away. */
  ghost predicate BreaksHalf(w: World, act: Action) {
    match act
    case ProofRejected(a, b) => Breaks(w.pc, w.now, a, b)
    case MergeRequested(a, b) => a < b && StartMerge(w.pc, w.now, a, b).Some? && Breaks(w.pc, w.now, a, b)
    case _ => false
  }

  lemma StepReadyIff(w: World, act: Action)
    requires RunInv(w) && Enabled(w, act) && HalvesReady(w.pc, w.now)
    ensures HalvesReady(Next(w, act).pc, Next(w, act).now) <==> !BreaksHalf(w, act)
  {
    match act {
      case Tick(elapsed) => TickReady(w.pc, w.now, w.now + elapsed);
      case SingleProved(i) =>
        SingleKeepsInv(w.pc, w.now, i);
        WrittenReady(w.pc, Next(w, act).pc, w.now, i, Proof(Range(i, i), Calculated, w.now, None, None, true));
      case EndFixed(last) => EndReady(w.pc, w.now, last);
      case MergeRequested(a, b) =>
        if StartMerge(w.pc, w.now, a, b).Some? {
          StartReadyIff(w.pc, w.now, a, b);
        }
      case MergeProved(a, b) =>
        SubmitAcceptedIff(w.pc, w.now, a, b);
        if HalvesUsable(w.pc, a, b) {
          SubmitReady(w.pc, w.now, a, b);
        }
      case ProofRejected(a, b) => RejectReadyIff(w.pc, w.now, a, b);
    }
  }

  /** In all states of the run every active merged proof has usable halves. */
  ghost predicate AlwaysReady(w: World, acts: seq<Action>)
    requires Runs(w, acts)
    decreases |acts|
  {
    HalvesReady(w.pc, w.now) && (acts != [] ==> AlwaysReady(Next(w, acts[0]), acts[1..]))
  }

  ghost predicate NothingBroken(w: World, acts: seq<Action>)
    requires Runs(w, acts)
    decreases |acts|
  {
    acts != [] ==> !BreaksHalf(w, acts[0]) && NothingBroken(Next(w, acts[0]), acts[1..])
  }

  lemma {:induction false} ReadyIffFrom(w: World, acts: seq<Action>)
    requires RunInv(w) && Runs(w, acts) && HalvesReady(w.pc, w.now)
    ensures AlwaysReady(w, acts) <==> NothingBroken(w, acts)
    ensures NothingBroken(w, acts) ==> HalvesReady(After(w, acts).pc, After(w, acts).now)
    decreases |acts|
  {
    if acts != [] {
      StepKeeps(w, acts[0]);
      StepReadyIff(w, acts[0]);
      if !BreaksHalf(w, acts[0]) {
        ReadyIffFrom(Next(w, acts[0]), acts[1..]);
      } else {
        NotReadyNow(Next(w, acts[0]), acts[1..]);
      }
    }
  }

  lemma NotReadyNow(w: World, acts: seq<Action>)
    requires Runs(w, acts) && !HalvesReady(w.pc, w.now)
    ensures !AlwaysReady(w, acts)
  {
  }

  /**
    In a run of a new block every active merged proof has usable halves at all times, so that the contract
    takes its result, if and only if no rejection and no start breaks a half away.
  */
  lemma RunReadyIff(w: World, acts: seq<Action>)
    requires Initial(w) && Runs(w, acts)
    ensures AlwaysReady(w, acts) <==> NothingBroken(w, acts)
  {
    InitialInv(w);
    ReadyIffFrom(w, acts);
  }

  /**
    Rejecting a merge gives back even a half that was never submitted. The planner takes it for calculated
    and proposes the merge again, and the contract refuses it for want of a hash.
  */
  lemma GivenBackWithoutHash(pc: ProofCalculation, now: nat, a: nat, b: nat, c: nat, d: nat)
    requires Inv(pc) && At(pc, a, b).Some? && IsHalf(a, b, c, d)
    requires At(pc, c, d).Some? && !At(pc, c, d).value.hasHash
    ensures RejectAt(pc, now, a, b).Some?
    ensures Proposable(RejectAt(pc, now, a, b).value, now, a, b)
    ensures StartMerge(RejectAt(pc, now, a, b).value, now, a, b) == None
  {
    RejectKeepsInv(pc, now, a, b);
    ShapeOf(pc, a, b);
    var x, next := Change(Rejected, At(pc, a, b).value.hasHash, Calculated), RejectAt(pc, now, a, b).value;
    EffectOutside(pc, next, a, b, x, a, b);
    EffectOutside(pc, next, a, b, x, a, Split(a, b) - 1);
    EffectOutside(pc, next, a, b, x, Split(a, b), b);
    ProposedAcceptedIff(next, now, a, b);
  }
}
