/**
  Rounds of merging: all singles of a block are proved and its end is known; each round executes the
  whole list the top-down planner returns. Round r merges exactly the nodes of height r, so the block's
  own proof appears in round ceil(log2 n) and not before.
*/
module MergeRounds {
  import opened Wrappers
  import opened PowersOfTwo
  import opened SplitTree
  import opened Proofs
  import opened TopDownPlanner
  import opened BottomUpPlanner
  import opened ProofContract
  import opened MergeInvariant
  import opened MergeSteps
  import opened MergeRun

  /** One merge from request to result. */
  function Execute(pc: ProofCalculation, now: nat, x: Span): ProofCalculation {
    var started := StartMerge(pc, now, x.0, x.1);
    if started.None? then pc
    else
      var proved := SubmitMerge(started.value, now, x.0, x.1);
      if proved.None? then pc else proved.value
  }

  function ExecuteAll(pc: ProofCalculation, now: nat, plan: seq<Span>): ProofCalculation
    decreases |plan|
  {
    if plan == [] then pc else ExecuteAll(Execute(pc, now, plan[0]), now, plan[1..])
  }

  /** One round: plan on the current state, then execute the whole list. A finished block plans nothing. */
  function Round(pc: ProofCalculation, now: nat): ProofCalculation
    requires pc.endSequence.Some?
  {
    if pc.isFinished then pc
    else ExecuteAll(pc, now, PlanRanges(pc, now, pc.startSequence, pc.endSequence.value))
  }

  predicate RoundLeads(pc: ProofCalculation, now: nat, next: ProofCalculation) {
    pc.endSequence.Some? && next == Round(pc, now)
  }

  /** The states of a block over rounds of merging, the i-th round at the i-th clock reading. */
  predicate Rounds(states: seq<ProofCalculation>, times: seq<nat>) {
    |states| == |times| + 1 && forall i :: 0 <= i < |times| ==> RoundLeads(states[i], times[i], states[i + 1])
  }

  predicate Idle(pc: ProofCalculation) {
    forall p :: p in pc.proofs ==> p.status != Started
  }

  predicate NoneRejected(pc: ProofCalculation) {
    forall p :: p in pc.proofs ==> p.status != Rejected
  }

  /** Nothing is in progress or rejected. */
  predicate Calm(pc: ProofCalculation) {
    Idle(pc) && NoneRejected(pc)
  }

  lemma CalmNotBlocked(pc: ProofCalculation, a: nat, b: nat)
    requires Calm(pc)
    ensures !Blocked(pc, a, b)
  {
    FindStored(pc.proofs, Range(a, b));
  }

  /** Everything up to height `r` is stored and nothing above; what no merge has taken is calculated. */
  ghost predicate Level(pc: ProofCalculation, r: nat) {
    && Inv(pc) && pc.endSequence.Some? && Idle(pc) && NoneRejected(pc)
    && (forall a: nat, b: nat :: LevelAt(pc, r, a, b))
  }

  predicate LevelAt(pc: ProofCalculation, r: nat, a: nat, b: nat) {
    pc.endSequence.Some? && Node(pc.startSequence, pc.endSequence.value, a, b) && a <= b ==>
      (At(pc, a, b).Some? <==> NodeHeight(a, b) <= r)
  }

  /** The span of a request of round `r + 1`. */
  predicate InRound(pc: ProofCalculation, r: nat, a: nat, b: nat) {
    && pc.endSequence.Some?
    && a < b && Node(pc.startSequence, pc.endSequence.value, a, b) && NodeHeight(a, b) == r + 1
  }

  lemma PlannedHasHeight(pc: ProofCalculation, now: nat, r: nat, a: nat, b: nat)
    requires Level(pc, r) && Wanted(pc, now, pc.startSequence, pc.endSequence.value, a, b)
    ensures InRound(pc, r, a, b)
  {
    var first, last := pc.startSequence, pc.endSequence.value;
    NodeChildren(first, last, a, b);
    HeightStep(a, b);
    assert Node(a, b, a, b);
    assert LevelAt(pc, r, a, b) && LevelAt(pc, r, a, Split(a, b) - 1);
  }

  lemma NoneAbove(pc: ProofCalculation, r: nat, a: nat, b: nat, c: nat, d: nat)
    requires Level(pc, r) && InRound(pc, r, a, b)
    requires Node(pc.startSequence, pc.endSequence.value, c, d) && Node(c, d, a, b)
    ensures !Present(pc, c, d)
  {
    NodeBounds(c, d, a, b);
    CeilPow2Monotone(b + 1 - a, d + 1 - c);
    assert LevelAt(pc, r, c, d);
  }

  lemma HalvesFree(pc: ProofCalculation, now: nat, r: nat, a: nat, b: nat)
    requires Level(pc, r) && !pc.isFinished && InRound(pc, r, a, b)
    ensures HalvesAvailable(pc, now, a, b) && HalvesHashed(pc, a, b)
  {
    NodeChildren(pc.startSequence, pc.endSequence.value, a, b);
    HeightStep(a, b);
    CalmNotBlocked(pc, a, Split(a, b) - 1);
    CalmNotBlocked(pc, Split(a, b), b);
    assert LevelAt(pc, r, a, b) && LevelAt(pc, r, a, Split(a, b) - 1) && LevelAt(pc, r, Split(a, b), b);
    FreeHalf(pc, a, Split(a, b) - 1, a, b);
    FreeHalf(pc, Split(a, b), b, a, b);
  }

  lemma HeightIsPlanned(pc: ProofCalculation, now: nat, r: nat, a: nat, b: nat)
    requires Level(pc, r) && !pc.isFinished && InRound(pc, r, a, b)
    ensures Wanted(pc, now, pc.startSequence, pc.endSequence.value, a, b)
  {
    HalvesFree(pc, now, r, a, b);
    forall c: nat, d: nat | Node(pc.startSequence, pc.endSequence.value, c, d) && Node(c, d, a, b)
      ensures !Present(pc, c, d)
    {
      NoneAbove(pc, r, a, b, c, d);
    }
  }

  /** At level `r` the planner lists exactly the nodes of height `r + 1`. */
  lemma RoundPlansHeight(pc: ProofCalculation, now: nat, r: nat, a: nat, b: nat)
    requires Level(pc, r) && !pc.isFinished
    ensures (a, b) in PlanRanges(pc, now, pc.startSequence, pc.endSequence.value) <==> InRound(pc, r, a, b)
  {
    PlanExact(pc, now, pc.startSequence, pc.endSequence.value, a, b);
    if Wanted(pc, now, pc.startSequence, pc.endSequence.value, a, b) {
      PlannedHasHeight(pc, now, r, a, b);
    }
    if InRound(pc, r, a, b) {
      HeightIsPlanned(pc, now, r, a, b);
    }
  }

  // ---- executing one merge ----

  /** Startable in a block whose end is known. */
  predicate Mergeable(pc: ProofCalculation, now: nat, x: Span) {
    && pc.endSequence.Some? && Node(pc.startSequence, pc.endSequence.value, x.0, x.1)
    && HalvesAvailable(pc, now, x.0, x.1) && HalvesHashed(pc, x.0, x.1)
    && (At(pc, x.0, x.1).Some? ==> StatusAt(pc, x.0, x.1, Rejected))
  }

  lemma ExecuteKeepsInv(pc: ProofCalculation, now: nat, x: Span) returns (started: ProofCalculation)
    requires Inv(pc) && Mergeable(pc, now, x)
    ensures Inv(Execute(pc, now, x))
    ensures Legal(pc, started, x.0, x.1, Change(Started, false, Reserved))
    ensures Legal(started, Execute(pc, now, x), x.0, x.1, Change(Calculated, true, Used))
  {
    ProposedAcceptedIff(pc, now, x.0, x.1);
    StartKeepsInv(pc, now, x.0, x.1);
    started := StartMerge(pc, now, x.0, x.1).value;
    ReservedIsUsable(pc, started, x.0, x.1);
    SubmitKeepsInv(started, now, x.0, x.1);
  }

  lemma ReservedIsUsable(pc: ProofCalculation, started: ProofCalculation, a: nat, b: nat)
    requires Legal(pc, started, a, b, Change(Started, false, Reserved)) && HalvesHashed(pc, a, b)
    ensures At(started, a, b).Some? && HalvesUsable(started, a, b)
  {
    EffectOutside(pc, started, a, b, Change(Started, false, Reserved), a, b);
    EffectOutside(pc, started, a, b, Change(Started, false, Reserved), a, Split(a, b) - 1);
    EffectOutside(pc, started, a, b, Change(Started, false, Reserved), Split(a, b), b);
  }

  /** One executed merge adds its own range, uses the halves and leaves every other proof alone. */
  lemma ExecuteAt(pc: ProofCalculation, now: nat, x: Span, a: nat, b: nat)
    requires Inv(pc) && Mergeable(pc, now, x) && a <= b
    ensures (a, b) == (x.0, x.1) ==> StatusAt(Execute(pc, now, x), a, b, Calculated)
    ensures IsHalf(x.0, x.1, a, b) ==> StatusAt(Execute(pc, now, x), a, b, Used) && At(pc, a, b).Some?
    ensures (a, b) != (x.0, x.1) && !IsHalf(x.0, x.1, a, b) ==> At(Execute(pc, now, x), a, b) == At(pc, a, b)
  {
    var started := ExecuteKeepsInv(pc, now, x);
    EffectOutside(pc, started, x.0, x.1, Change(Started, false, Reserved), a, b);
    EffectOutside(started, Execute(pc, now, x), x.0, x.1, Change(Calculated, true, Used), a, b);
  }

  lemma ExecuteEffect(pc: ProofCalculation, now: nat, x: Span)
    requires Inv(pc) && Mergeable(pc, now, x)
    ensures
      var next := Execute(pc, now, x);
      Inv(next) && next.startSequence == pc.startSequence && next.endSequence == pc.endSequence
  {
    var started := ExecuteKeepsInv(pc, now, x);
  }

  lemma ExecuteStores(pc: ProofCalculation, now: nat, x: Span, a: nat, b: nat)
    requires Inv(pc) && Mergeable(pc, now, x) && a <= b
    ensures At(Execute(pc, now, x), a, b).Some? <==> At(pc, a, b).Some? || (a, b) == (x.0, x.1)
  {
    ExecuteAt(pc, now, x, a, b);
  }

  lemma ExecuteCalmAt(pc: ProofCalculation, now: nat, x: Span, a: nat, b: nat)
    requires Inv(pc) && Calm(pc) && Mergeable(pc, now, x)
    requires a <= b && At(Execute(pc, now, x), a, b).Some?
    ensures !StatusAt(Execute(pc, now, x), a, b, Started) && !StatusAt(Execute(pc, now, x), a, b, Rejected)
  {
    ExecuteAt(pc, now, x, a, b);
    if (a, b) != (x.0, x.1) && !IsHalf(x.0, x.1, a, b) {
      FindStored(pc.proofs, Range(a, b));
    }
  }

  lemma ExecuteCalm(pc: ProofCalculation, now: nat, x: Span)
    requires Inv(pc) && Calm(pc) && Mergeable(pc, now, x)
    ensures Inv(Execute(pc, now, x)) && Calm(Execute(pc, now, x))
  {
    ExecuteEffect(pc, now, x);
    var next := Execute(pc, now, x);
    InvIsWellFormed(next);
    forall p | p in next.proofs
      ensures p.status != Started && p.status != Rejected
    {
      FindDistinct(next.proofs, p);
      ExecuteCalmAt(pc, now, x, p.sequences[0], Last(p.sequences));
    }
  }

  /** A merge elsewhere in the block stays startable. */
  lemma ElsewhereUntouched(pc: ProofCalculation, now: nat, x: Span, a: nat, b: nat)
    requires Inv(pc) && Mergeable(pc, now, x) && a <= b && Disjoint(x.0, x.1, a, b)
    ensures At(Execute(pc, now, x), a, b) == At(pc, a, b)
  {
    ExecuteAt(pc, now, x, a, b);
  }

  lemma BesideUntouched(pc: ProofCalculation, now: nat, x: Span, y: Span)
    requires Inv(pc) && Mergeable(pc, now, x) && Disjoint(x.0, x.1, y.0, y.1)
    ensures At(Execute(pc, now, x), y.0, y.1) == At(pc, y.0, y.1)
    ensures At(Execute(pc, now, x), y.0, Split(y.0, y.1) - 1) == At(pc, y.0, Split(y.0, y.1) - 1)
    ensures At(Execute(pc, now, x), Split(y.0, y.1), y.1) == At(pc, Split(y.0, y.1), y.1)
  {
    var m := Split(y.0, y.1);
    ElsewhereUntouched(pc, now, x, y.0, y.1);
    ElsewhereUntouched(pc, now, x, y.0, m - 1);
    ElsewhereUntouched(pc, now, x, m, y.1);
  }

  lemma StaysMergeable(pc: ProofCalculation, now: nat, x: Span, y: Span)
    requires Inv(pc) && Mergeable(pc, now, x) && Mergeable(pc, now, y)
    requires Disjoint(x.0, x.1, y.0, y.1)
    ensures Mergeable(Execute(pc, now, x), now, y)
  {
    ExecuteEffect(pc, now, x);
    BesideUntouched(pc, now, x, y);
    SameMergeable(pc, Execute(pc, now, x), now, y);
  }

  lemma SameMergeable(pc: ProofCalculation, next: ProofCalculation, now: nat, y: Span)
    requires Mergeable(pc, now, y) && next.startSequence == pc.startSequence && next.endSequence == pc.endSequence
    requires At(next, y.0, y.1) == At(pc, y.0, y.1)
    requires At(next, y.0, Split(y.0, y.1) - 1) == At(pc, y.0, Split(y.0, y.1) - 1)
    requires At(next, Split(y.0, y.1), y.1) == At(pc, Split(y.0, y.1), y.1)
    ensures Mergeable(next, now, y)
  {
  }

  // ---- executing a whole list ----

  ghost predicate AllMergeable(pc: ProofCalculation, now: nat, plan: seq<Span>) {
    forall i :: 0 <= i < |plan| ==> Mergeable(pc, now, plan[i])
  }

  /** Executing a list of disjoint merges stores exactly their ranges; none gets in another's way. */
  lemma {:induction false} ExecuteAllEffect(pc: ProofCalculation, now: nat, plan: seq<Span>)
    requires Inv(pc) && Calm(pc) && LeftToRight(plan) && AllMergeable(pc, now, plan)
    ensures
      var next := ExecuteAll(pc, now, plan);
      && Inv(next) && Calm(next)
      && next.startSequence == pc.startSequence && next.endSequence == pc.endSequence
      && (forall a: nat, b: nat :: StoredAfter(pc, next, plan, a, b))
    decreases |plan|
  {
    if plan != [] {
      var x, rest := plan[0], plan[1..];
      var mid := Execute(pc, now, x);
      ExecuteEffect(pc, now, x);
      ExecuteCalm(pc, now, x);
      forall i | 0 <= i < |rest|
        ensures Mergeable(mid, now, rest[i])
      {
        assert rest[i] == plan[i + 1];
        StaysMergeable(pc, now, x, rest[i]);
      }
      ExecuteAllEffect(mid, now, rest);
      var next := ExecuteAll(pc, now, plan);
      forall a: nat, b: nat
        ensures StoredAfter(pc, next, plan, a, b)
      {
        if a <= b {
          ExecuteStores(pc, now, x, a, b);
          assert StoredAfter(mid, next, rest, a, b);
          assert forall y :: y in plan <==> y == x || y in rest;
        }
      }
    }
  }

  predicate StoredAfter(pc: ProofCalculation, next: ProofCalculation, plan: seq<Span>, a: nat, b: nat) {
    a <= b ==> (At(next, a, b).Some? <==> At(pc, a, b).Some? || (a, b) in plan)
  }

  // ---- rounds ----

  lemma PlanIsMergeable(pc: ProofCalculation, now: nat, r: nat)
    requires Level(pc, r) && !pc.isFinished
    ensures AllMergeable(pc, now, PlanRanges(pc, now, pc.startSequence, pc.endSequence.value))
  {
    var first, last := pc.startSequence, pc.endSequence.value;
    var plan := PlanRanges(pc, now, first, last);
    forall i | 0 <= i < |plan|
      ensures Mergeable(pc, now, plan[i])
    {
      assert plan[i] in plan;
      RoundPlansHeight(pc, now, r, plan[i].0, plan[i].1);
      HalvesFree(pc, now, r, plan[i].0, plan[i].1);
      PlanExact(pc, now, first, last, plan[i].0, plan[i].1);
      assert Node(plan[i].0, plan[i].1, plan[i].0, plan[i].1);
    }
  }

  lemma RoundRaisesLevel(pc: ProofCalculation, now: nat, r: nat)
    requires Level(pc, r) && !pc.isFinished
    ensures Level(Round(pc, now), r + 1)
    ensures Round(pc, now).startSequence == pc.startSequence && Round(pc, now).endSequence == pc.endSequence
  {
    var first, last := pc.startSequence, pc.endSequence.value;
    var plan := PlanRanges(pc, now, first, last);
    var next := Round(pc, now);
    PlanIsMergeable(pc, now, r);
    PlanLeftToRight(pc, now, first, last);
    ExecuteAllEffect(pc, now, plan);
    var higher := r + 1;
    forall a: nat, b: nat
      ensures LevelAt(next, higher, a, b)
    {
      assert LevelAt(pc, r, a, b);
      assert StoredAfter(pc, next, plan, a, b);
      RoundPlansHeight(pc, now, r, a, b);
    }
  }

  /** A calm block is finished exactly when its own proof is stored. */
  lemma CalmFinished(pc: ProofCalculation)
    requires Inv(pc) && Calm(pc) && pc.endSequence.Some?
    ensures pc.isFinished <==> At(pc, pc.startSequence, pc.endSequence.value).Some?
  {
    if !pc.isFinished {
      forall a: nat, b: nat
        ensures !Blocked(pc, a, b)
      {
        CalmNotBlocked(pc, a, b);
      }
      RootAbsent(pc);
    }
  }

  lemma FinishedLevel(pc: ProofCalculation, r: nat)
    requires Level(pc, r) && pc.isFinished
    ensures Level(pc, r + 1)
  {
    var first, last := pc.startSequence, pc.endSequence.value;
    assert Node(first, last, first, last);
    assert LevelAt(pc, r, first, last);
    var higher := r + 1;
    forall a: nat, b: nat
      ensures LevelAt(pc, higher, a, b)
    {
      assert LevelAt(pc, r, a, b);
      if Node(first, last, a, b) && a <= b {
        NodeBounds(first, last, a, b);
        CeilPow2Monotone(b + 1 - a, last + 1 - first);
      }
    }
  }

  /** A block with a known end, all its singles calculated, and no merge begun. */
  ghost predicate Unmerged(pc: ProofCalculation) {
    && Inv(pc) && AllSingles(pc) && MergedSpans(pc) == {}
    && (forall p :: p in pc.proofs ==> p.status == Calculated)
  }

  lemma UnmergedLevel(pc: ProofCalculation)
    requires Unmerged(pc)
    ensures Level(pc, 0)
  {
    forall a: nat, b: nat
      ensures LevelAt(pc, 0, a, b)
    {
      SpansExact(pc, (a, b));
      if Node(pc.startSequence, pc.endSequence.value, a, b) {
        NodeBounds(pc.startSequence, pc.endSequence.value, a, b);
      }
    }
  }

  lemma LevelFinished(pc: ProofCalculation, r: nat)
    requires Level(pc, r)
    ensures pc.isFinished <==> r >= Height(pc.endSequence.value + 1 - pc.startSequence)
  {
    var first, last := pc.startSequence, pc.endSequence.value;
    CalmFinished(pc);
    assert Node(first, last, first, last);
    assert LevelAt(pc, r, first, last);
  }

  lemma RoundStep(pc: ProofCalculation, now: nat, r: nat)
    requires Level(pc, r)
    ensures Level(Round(pc, now), r + 1)
    ensures Round(pc, now).startSequence == pc.startSequence && Round(pc, now).endSequence == pc.endSequence
  {
    if pc.isFinished {
      FinishedLevel(pc, r);
    } else {
      RoundRaisesLevel(pc, now, r);
    }
  }

  lemma {:induction false} RoundsLevel(states: seq<ProofCalculation>, times: seq<nat>, r: nat)
    requires Rounds(states, times) && Unmerged(states[0]) && r <= |times|
    ensures Level(states[r], r)
    ensures states[r].startSequence == states[0].startSequence && states[r].endSequence == states[0].endSequence
    decreases r
  {
    if r == 0 {
      UnmergedLevel(states[0]);
    } else {
      RoundsLevel(states, times, r - 1);
      assert RoundLeads(states[r - 1], times[r - 1], states[r - 1 + 1]);
      RoundStep(states[r - 1], times[r - 1], r - 1);
    }
  }

  /**
    Executing the whole list in every round, at whatever times, finishes a block of n singles after
    ceil(log2 n) rounds and not one round earlier.
  */
  lemma RoundsFinish(states: seq<ProofCalculation>, times: seq<nat>, r: nat)
    requires Rounds(states, times) && Unmerged(states[0]) && r <= |times|
    ensures states[r].isFinished <==> r >= Height(states[0].endSequence.value + 1 - states[0].startSequence)
  {
    RoundsLevel(states, times, r);
    LevelFinished(states[r], r);
  }
}
