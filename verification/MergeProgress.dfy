/**
  What a run can do (crates/coordinator/src/merge.rs, lines 697-856; move/coordination/sources/prover.move,
  lines 218-257 and 374-828): every call the contract accepts is a step, and a block that nothing holds up
  can always be finished with what the planner lists.
*/
module MergeProgress {
  import opened Wrappers
  import opened PowersOfTwo
  import opened SplitTree
  import opened Proofs
  import opened TopDownPlanner
  import opened BottomUpPlanner
  import opened MergePlanner
  import opened ProofContract
  import opened MergeInvariant
  import opened MergeSteps
  import opened MergeRun
  import opened MergeOverlap

  // ---- the steps are the calls ----

  /** Every call on a range of the tree that the contract accepts is a step, with the contract's result. */
  lemma AcceptedCallsAreSteps(w: World, a: nat, b: nat)
    ensures SubmitSingle(w.pc, w.now, a).Some? ==>
              Enabled(w, SingleProved(a)) && Next(w, SingleProved(a)).pc == SubmitSingle(w.pc, w.now, a).value
    ensures a < b && InTree(w.pc, a, b) && StartMerge(w.pc, w.now, a, b).Some? ==>
              && Enabled(w, MergeRequested(a, b))
              && Next(w, MergeRequested(a, b)).pc == StartMerge(w.pc, w.now, a, b).value
    ensures a < b && At(w.pc, a, b).Some? && SubmitMerge(w.pc, w.now, a, b).Some? ==>
              Enabled(w, MergeProved(a, b)) && Next(w, MergeProved(a, b)).pc == SubmitMerge(w.pc, w.now, a, b).value
    ensures RejectAt(w.pc, w.now, a, b).Some? ==>
              Enabled(w, ProofRejected(a, b)) && Next(w, ProofRejected(a, b)).pc == RejectAt(w.pc, w.now, a, b).value
  {
    assert Range(a, a)[0] == a;
  }

  /** Time passes by any amount, and the end can be fixed at or past everything stored. */
  lemma ClockAndEndAreSteps(w: World, later: nat, last: nat)
    requires w.now <= later
    ensures Enabled(w, Tick(later - w.now)) && Next(w, Tick(later - w.now)) == w.(now := later)
    ensures w.pc.endSequence.None? && w.pc.startSequence <= last
            && (forall p :: p in w.pc.proofs && p.sequences != [] ==> p.sequences[|p.sequences| - 1] <= last) ==>
              Enabled(w, EndFixed(last)) && Next(w, EndFixed(last)).pc == SetEndSequence(w.pc, last, w.now)
  {
  }

  // ---- an unfinished block that nothing holds up can be finished ----

  lemma StartOne(w: World, a: nat, b: nat) returns (u: World)
    requires RunInv(w) && !w.pc.isFinished && w.pc.endSequence.Some?
    requires Wanted(w.pc, w.now, w.pc.startSequence, w.pc.endSequence.value, a, b)
    ensures Leads(w, [MergeRequested(a, b)], u) && RunInv(u)
    ensures Legal(w.pc, u.pc, a, b, Change(Started, false, Reserved)) && HalvesHashed(w.pc, a, b)
    ensures u.starts == w.starts + 1 && u.rejections == w.rejections && u.restarts == w.restarts
  {
    assert Node(a, b, a, b);
    u := Next(w, MergeRequested(a, b));
    WantedIsPlanned(w.pc, w.now, a, b);
    WantedIsAccepted(w.pc, w.now, a, b);
    StartKeepsInv(w.pc, w.now, a, b);
    LeadsOne(w, MergeRequested(a, b));
    StepKeeps(w, MergeRequested(a, b));
  }

  /** A merge of the plan is started and its result submitted. */
  lemma MergeOne(w: World, a: nat, b: nat) returns (u: World, v: World)
    requires RunInv(w) && !w.pc.isFinished && w.pc.endSequence.Some?
    requires Wanted(w.pc, w.now, w.pc.startSequence, w.pc.endSequence.value, a, b)
    ensures Leads(w, [MergeRequested(a, b)] + [MergeProved(a, b)], v) && RunInv(v)
    ensures Legal(w.pc, u.pc, a, b, Change(Started, false, Reserved)) && Inv(u.pc)
    ensures Legal(u.pc, v.pc, a, b, Change(Calculated, true, Used))
    ensures v.starts == w.starts + 1 && v.rejections == w.rejections && v.restarts == w.restarts
  {
    u := StartOne(w, a, b);
    StartedUsable(w.pc, u.pc, a, b);
    v := BuildResult(u, a, b);
    LeadsConcat(w, [MergeRequested(a, b)], u, [MergeProved(a, b)], v);
  }

  /** What such a merge leaves of the rest of the block. */
  lemma MergeOneAt(pc: ProofCalculation, mid: ProofCalculation, next: ProofCalculation, a: nat, b: nat, c: nat, d: nat)
    requires Legal(pc, mid, a, b, Change(Started, false, Reserved)) && c <= d
    requires Legal(mid, next, a, b, Change(Calculated, true, Used))
    ensures (c, d) == (a, b) ==> StatusAt(next, c, d, Calculated)
    ensures (c, d) != (a, b) && !IsHalf(a, b, c, d) ==> At(next, c, d) == At(pc, c, d)
    ensures At(pc, c, d).Some? ==> At(next, c, d).Some?
  {
    EffectOutside(pc, mid, a, b, Change(Started, false, Reserved), c, d);
    EffectOutside(mid, next, a, b, Change(Calculated, true, Used), c, d);
  }

  lemma SinglesStay(pc: ProofCalculation, mid: ProofCalculation, next: ProofCalculation, a: nat, b: nat)
    requires Legal(pc, mid, a, b, Change(Started, false, Reserved))
    requires Legal(mid, next, a, b, Change(Calculated, true, Used))
    requires AllSingles(pc)
    ensures AllSingles(next)
  {
    forall i: nat | pc.startSequence <= i <= pc.endSequence.value
      ensures At(next, i, i).Some?
    {
      MergeOneAt(pc, mid, next, a, b, i, i);
    }
  }

  lemma TopsStayReady(pc: ProofCalculation, mid: ProofCalculation, next: ProofCalculation, a: nat, b: nat)
    requires Legal(pc, mid, a, b, Change(Started, false, Reserved))
    requires Legal(mid, next, a, b, Change(Calculated, true, Used))
    requires pc.endSequence.Some? && TopsReady(pc)
    ensures TopsReady(next)
  {
    forall c: nat, d: nat | Node(pc.startSequence, pc.endSequence.value, c, d) && Top(next, c, d)
      ensures !Blocked(next, c, d)
    {
      MergeOneAt(pc, mid, next, a, b, c, d);
      MergeOneAt(pc, mid, next, a, b, a, b);
      if (c, d) != (a, b) && !IsHalf(a, b, c, d) {
        TopStays(pc, mid, next, a, b, c, d);
      }
    }
  }

  lemma TopStays(pc: ProofCalculation, mid: ProofCalculation, next: ProofCalculation, a: nat, b: nat, c: nat, d: nat)
    requires Legal(pc, mid, a, b, Change(Started, false, Reserved))
    requires Legal(mid, next, a, b, Change(Calculated, true, Used))
    requires Top(next, c, d) && At(next, c, d) == At(pc, c, d)
    ensures Top(pc, c, d)
  {
    if e, f :| IsHalf(e, f, c, d) && At(pc, e, f).Some? {
      MergeOneAt(pc, mid, next, a, b, e, f);
    }
  }

  /** The merges of the tree that are not there yet. */
  function Missing(pc: ProofCalculation): int
    requires pc.endSequence.Some?
  {
    |InnerNodes(pc.startSequence, pc.endSequence.value)| - |MergedSpans(pc)|
  }

  lemma MergedAreInner(pc: ProofCalculation)
    requires Inv(pc) && pc.endSequence.Some?
    ensures MergedSpans(pc) <= InnerNodes(pc.startSequence, pc.endSequence.value) && Missing(pc) >= 0
  {
    forall x: (nat, nat) | x in MergedSpans(pc)
      ensures x in InnerNodes(pc.startSequence, pc.endSequence.value)
    {
      SpansExact(pc, x);
      ShapeOf(pc, x.0, x.1);
      InnerNodesExact(pc.startSequence, pc.endSequence.value, x);
    }
    SubsetSize(MergedSpans(pc), InnerNodes(pc.startSequence, pc.endSequence.value));
  }

  lemma OneLess(w: World, u: World, v: World, a: nat, b: nat)
    requires Inv(w.pc) && Inv(u.pc) && Inv(v.pc) && w.pc.endSequence.Some?
    requires Legal(w.pc, u.pc, a, b, Change(Started, false, Reserved)) && At(w.pc, a, b).None?
    requires Legal(u.pc, v.pc, a, b, Change(Calculated, true, Used))
    ensures Missing(v.pc) == Missing(w.pc) - 1
  {
    LegalSpans(w.pc, u.pc, a, b, Change(Started, false, Reserved));
    LegalSpans(u.pc, v.pc, a, b, Change(Calculated, true, Used));
    SpansExact(w.pc, (a, b));
    assert MergedSpans(v.pc) == MergedSpans(w.pc) + {(a, b)};
  }

  /** A block that can go on to be finished. */
  ghost predicate Unhindered(w: World) {
    RunInv(w) && AllSingles(w.pc) && (w.pc.isFinished || TopsReady(w.pc))
  }

  lemma {:induction false} FinishFrom(w: World) returns (acts: seq<Action>, v: World)
    requires Unhindered(w)
    ensures Leads(w, acts, v) && v.pc.isFinished
    ensures v.rejections == w.rejections && v.restarts == w.restarts
    ensures v.starts == w.starts + if w.pc.isFinished then 0 else Missing(w.pc)
    ensures v.pc.endSequence == w.pc.endSequence
    decreases !w.pc.isFinished, Missing(w.pc)
  {
    if w.pc.isFinished {
      acts, v := [], w;
    } else {
      var x, u := FinishStep(w);
      if u.pc.isFinished {
        acts, v := x, u;
        NoneMissing(u.pc);
      } else {
        MergedAreInner(u.pc);
        var y, t := FinishFrom(u);
        LeadsConcat(w, x, u, y, t);
        acts, v := x + y, t;
      }
    }
  }

  lemma NoneMissing(pc: ProofCalculation)
    requires Inv(pc) && pc.isFinished
    ensures Missing(pc) == 0
  {
    StoredRootIsWholeTree(pc);
  }

  lemma FinishStep(w: World) returns (acts: seq<Action>, v: World)
    requires Unhindered(w) && !w.pc.isFinished
    ensures Leads(w, acts, v) && Unhindered(v) && v.pc.endSequence == w.pc.endSequence
    ensures Missing(v.pc) == Missing(w.pc) - 1
    ensures v.starts == w.starts + 1 && v.rejections == w.rejections && v.restarts == w.restarts
  {
    var first, last := w.pc.startSequence, w.pc.endSequence.value;
    RootAbsent(w.pc);
    assert Node(first, last, first, last);
    var a, b := PlanNotEmpty(w.pc, w.now, first, last);
    assert Node(a, b, a, b);
    var u;
    u, v := MergeOne(w, a, b);
    acts := [MergeRequested(a, b)] + [MergeProved(a, b)];
    SinglesStay(w.pc, u.pc, v.pc, a, b);
    TopsStayReady(w.pc, u.pc, v.pc, a, b);
    OneLess(w, u, v, a, b);
  }

  /**
    Every reachable block with all its singles, in which no top proof waits for a prover or is rejected, can be
    finished by listed merges alone, one for each merge of the tree that is still missing.
  */
  lemma CanFinish(w: World, before: seq<Action>) returns (acts: seq<Action>)
    requires Initial(w) && Runs(w, before)
    requires
      var v := After(w, before);
      !v.pc.isFinished && AllSingles(v.pc) && TopsReady(v.pc)
    ensures
      var v := After(w, before);
      && Runs(v, acts) && AllListed(v, acts)
      && After(v, acts).pc.isFinished && After(v, acts).starts == v.starts + Missing(v.pc)
  {
    RunKeepsInv(w, before);
    var u;
    acts, u := FinishFrom(After(w, before));
  }

  // ---- every block can be finished ----

  /** The singles of `a..b`, one after the other. */
  lemma {:induction false} ProveSingles(w: World, a: nat, b: nat) returns (acts: seq<Action>, v: World)
    requires RunInv(w) && w.pc.endSequence.None? && w.pc.startSequence <= a <= b + 1
    requires forall c: nat, d: nat :: c <= d && At(w.pc, c, d).Some? ==> c == d < a && Ready(w.pc, c, d)
    requires forall i: nat :: w.pc.startSequence <= i < a ==> At(w.pc, i, i).Some?
    ensures Leads(w, acts, v) && RunInv(v) && v.pc.endSequence.None? && v.pc.startSequence == w.pc.startSequence
    ensures v.starts == w.starts && v.rejections == w.rejections && v.restarts == w.restarts
    ensures forall c: nat, d: nat :: c <= d && At(v.pc, c, d).Some? ==> c == d <= b && Ready(v.pc, c, d)
    ensures forall i: nat :: v.pc.startSequence <= i <= b ==> At(v.pc, i, i).Some?
    decreases b + 1 - a
  {
    if a == b + 1 {
      acts, v := [], w;
    } else {
      var u := Next(w, SingleProved(a));
      LeadsOne(w, SingleProved(a));
      StepKeeps(w, SingleProved(a));
      SingleKeepsInv(w.pc, w.now, a);
      var p := Proof(Range(a, a), Calculated, w.now, None, None, true);
      forall c: nat, d: nat | c <= d
        ensures At(u.pc, c, d) == if c == a && d == a then Some(p) else At(w.pc, c, d)
      {
        SingleOutside(w.pc, u.pc, a, p, c, d);
      }
      var y, t := ProveSingles(u, a + 1, b);
      LeadsConcat(w, [SingleProved(a)], u, y, t);
      acts, v := [SingleProved(a)] + y, t;
    }
  }

  /** With all its singles proved and nothing merged, a block can be given its end, and is unhindered then. */
  lemma FixEnd(w: World, last: nat) returns (v: World)
    requires RunInv(w) && w.pc.endSequence.None? && w.pc.startSequence <= last && w.starts == 0
    requires forall c: nat, d: nat :: c <= d && At(w.pc, c, d).Some? ==> c == d <= last && Ready(w.pc, c, d)
    requires forall i: nat :: w.pc.startSequence <= i <= last ==> At(w.pc, i, i).Some?
    ensures Leads(w, [EndFixed(last)], v) && Unhindered(v)
    ensures v.starts == 0 && v.rejections == w.rejections && v.restarts == w.restarts
    ensures v.pc.startSequence == w.pc.startSequence && v.pc.endSequence == Some(last)
    ensures if v.pc.isFinished then last == v.pc.startSequence else Missing(v.pc) == last - v.pc.startSequence
  {
    EndFitsSingles(w.pc, last);
    v := Next(w, EndFixed(last));
    LeadsOne(w, EndFixed(last));
    StepKeeps(w, EndFixed(last));
    EndEffect(w.pc, last, w.now);
    forall i: nat | w.pc.startSequence <= i <= last
      ensures At(v.pc, i, i).Some?
    {
      assert At(w.pc, i, i).Some? && EndEffectAt(w.pc, v.pc, last, w.now, Range(i, i));
    }
    forall c: nat, d: nat | Node(w.pc.startSequence, last, c, d) && Top(v.pc, c, d)
      ensures !Blocked(v.pc, c, d)
    {
      assert EndEffectAt(w.pc, v.pc, last, w.now, Range(c, d));
      assert At(w.pc, c, d).Some? ==> Ready(w.pc, c, d);
    }
    InnerNodesCount(w.pc.startSequence, last);
    SubsetSize(MergedSpans(v.pc), {});
  }

  lemma EndFitsSingles(pc: ProofCalculation, last: nat)
    requires Inv(pc) && pc.endSequence.None? && pc.startSequence <= last
    requires forall c: nat, d: nat :: c <= d && At(pc, c, d).Some? ==> c == d <= last
    ensures EndFits(pc, last)
  {
    forall p | p in pc.proofs && p.sequences != []
      ensures Last(p.sequences) <= last
    {
      InvIsWellFormed(pc);
      FindDistinct(pc.proofs, p);
      assert At(pc, p.sequences[0], Last(p.sequences)).Some?;
    }
  }

  /** A new block of n sequences, for every n, has a run of listed merges that finishes it with n - 1 starts. */
  lemma EveryBlockCanFinish(w: World, n: nat) returns (acts: seq<Action>)
    requires Initial(w) && n > 0
    ensures Runs(w, acts) && AllListed(w, acts)
    ensures
      var v := After(w, acts);
      && v.pc.isFinished && v.pc.endSequence == Some(w.pc.startSequence + n - 1)
      && v.starts == n - 1 && v.rejections == 0 && v.restarts == 0
  {
    InitialInv(w);
    var last := w.pc.startSequence + n - 1;
    var x, u := ProveSingles(w, w.pc.startSequence, last);
    var t := FixEnd(u, last);
    var y, v := FinishFrom(t);
    LeadsConcat(w, x, u, [EndFixed(last)], t);
    LeadsConcat(w, x + [EndFixed(last)], t, y, v);
    acts := x + [EndFixed(last)] + y;
  }
}
