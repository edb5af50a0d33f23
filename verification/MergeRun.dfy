/**
  Whole runs of a block: single proofs arrive, merges are started that the planner listed now or at any
  earlier time, results are submitted, any stored proof is rejected at any time, time passes, and at some
  point the end of the block is fixed. The planner switches from bottom-up to top-down when that happens.
*/
module MergeRun {
  import opened Wrappers
  import opened PowersOfTwo
  import opened SplitTree
  import opened Proofs
  import opened TopDownPlanner
  import opened BottomUpPlanner
  import opened MergePlanner
  import opened MergeJob
  import opened ProofContract
  import opened MergeInvariant
  import opened MergeSteps

  /**
    A block with its clock, and its history: the merges started, the proofs rejected, the merges among the
    started that were stored and not rejected (they had timed out), and whether the block's own proof was
    rejected or started again after it had finished the block.
  */
  datatype World = World(pc: ProofCalculation, now: nat, starts: nat, rejections: nat, restarts: nat, undone: bool)

  datatype Action =
    | Tick(elapsed: nat)
    | SingleProved(i: nat)
    | MergeRequested(a: nat, b: nat)
    | MergeProved(a: nat, b: nat)
    | ProofRejected(a: nat, b: nat)
    | EndFixed(last: nat)

  /** The planner lists the merge of `a..b` and the coordinator's checks let it through. */
  predicate Planned(pc: ProofCalculation, now: nat, a: nat, b: nat) {
    && a < b && StartsInBlock(pc)
    && (Lists(pc, now, a, b, false) || Lists(pc, now, a, b, true))
  }

  predicate Lists(pc: ProofCalculation, now: nat, a: nat, b: nat, blockProof: bool)
    requires a < b && StartsInBlock(pc)
  {
    Request(a, b, blockProof) in AllMerges(pc, now)
    && CreateMergeJob(pc, pc, Request(a, b, blockProof), now).Queued?
  }

  /**
    A merge may be requested long after it was planned, so any range of the tree can be requested:
    `PlannedStaysEnabled` shows that this covers every request planned earlier in the run.
  */
  ghost predicate Enabled(w: World, act: Action) {
    match act
    case Tick(_) => true
    case SingleProved(i) => w.pc.startSequence <= i && (w.pc.endSequence.Some? ==> i <= w.pc.endSequence.value)
    case MergeRequested(a, b) => a < b && InTree(w.pc, a, b)
    case MergeProved(a, b) => a < b && At(w.pc, a, b).Some?
    case ProofRejected(a, b) => a <= b && At(w.pc, a, b).Some?
    case EndFixed(last) => EndFits(w.pc, last)
  }

  /** Writing another status over the proof of `a..b` takes away what has finished the block. */
  predicate Undoes(pc: ProofCalculation, a: nat, b: nat) {
    pc.isFinished && CoversBlock(pc, Range(a, b))
  }

  /** What the contract makes of an action; a call it refuses changes nothing. */
  function Next(w: World, act: Action): World {
    match act
    case Tick(elapsed) => w.(now := w.now + elapsed)
    case SingleProved(i) =>
      var next := SubmitSingle(w.pc, w.now, i);
      if next.None? then w else w.(pc := next.value)
    case MergeRequested(a, b) =>
      if a >= b then w
      else
        var next := StartMerge(w.pc, w.now, a, b);
        if next.None? then w else WithStart(w, next.value, a, b)
    case MergeProved(a, b) =>
      if a >= b then w
      else
        var next := SubmitMerge(w.pc, w.now, a, b);
        if next.None? then w else w.(pc := next.value)
    case ProofRejected(a, b) =>
      var next := RejectAt(w.pc, w.now, a, b);
      if next.None? then w
      else
        w.(pc := next.value, rejections := w.rejections + 1, undone := w.undone || Undoes(w.pc, a, b))
    case EndFixed(last) => w.(pc := SetEndSequence(w.pc, last, w.now))
  }

  function WithStart(w: World, next: ProofCalculation, a: nat, b: nat): World {
    w.(pc := next, starts := w.starts + 1,
       restarts := w.restarts + if At(w.pc, a, b).Some? && !StatusAt(w.pc, a, b, Rejected) then 1 else 0,
       undone := w.undone || Undoes(w.pc, a, b))
  }

  function After(w: World, acts: seq<Action>): World
    decreases |acts|
  {
    if acts == [] then w else After(Next(w, acts[0]), acts[1..])
  }

  /** Every action is enabled when it is taken. */
  ghost predicate Runs(w: World, acts: seq<Action>)
    decreases |acts|
  {
    acts == [] || (Enabled(w, acts[0]) && Runs(Next(w, acts[0]), acts[1..]))
  }

  /** A block just created: nothing proved, no end. */
  predicate Initial(w: World) {
    && w.pc.proofs == [] && w.pc.endSequence.None? && !w.pc.isFinished
    && w.starts == 0 && w.rejections == 0 && w.restarts == 0 && !w.undone
  }

  // ---- counting merged proofs ----

  function MergedSpans(pc: ProofCalculation): set<(nat, nat)> {
    set p | p in pc.proofs && |p.sequences| >= 2 :: (p.sequences[0], Last(p.sequences))
  }

  function RejectedSpans(pc: ProofCalculation): set<(nat, nat)> {
    set p | p in pc.proofs && |p.sequences| >= 2 && p.status == Rejected :: (p.sequences[0], Last(p.sequences))
  }

  lemma SpansExact(pc: ProofCalculation, x: (nat, nat))
    requires Inv(pc)
    ensures x in MergedSpans(pc) <==> x.0 < x.1 && At(pc, x.0, x.1).Some?
    ensures x in RejectedSpans(pc) <==> x.0 < x.1 && StatusAt(pc, x.0, x.1, Rejected)
  {
    InvIsWellFormed(pc);
    if x in MergedSpans(pc) {
      var p :| p in pc.proofs && |p.sequences| >= 2 && x == (p.sequences[0], Last(p.sequences));
      FindDistinct(pc.proofs, p);
    }
    if x in RejectedSpans(pc) {
      var p :| p in pc.proofs && |p.sequences| >= 2 && p.status == Rejected && x == (p.sequences[0], Last(p.sequences));
      FindDistinct(pc.proofs, p);
    }
    if x.0 < x.1 && At(pc, x.0, x.1).Some? {
      FindStored(pc.proofs, Range(x.0, x.1));
      var p := At(pc, x.0, x.1).value;
      assert p in pc.proofs && |p.sequences| >= 2 && x == (p.sequences[0], Last(p.sequences));
    }
  }

  /** Starts make merged proofs, one each, except that one rejected or timed out can be started again. */
  predicate Counted(w: World) {
    && |MergedSpans(w.pc)| <= w.starts
    && w.starts + |RejectedSpans(w.pc)| <= |MergedSpans(w.pc)| + w.rejections + w.restarts
  }

  lemma LegalSpans(pc: ProofCalculation, next: ProofCalculation, a: nat, b: nat, x: Change)
    requires Inv(pc) && Inv(next) && Legal(pc, next, a, b, x) && x.half != Rejected
    ensures MergedSpans(next) == MergedSpans(pc) + {(a, b)}
    ensures RejectedSpans(next)
         <= if x.status == Rejected then RejectedSpans(pc) + {(a, b)} else RejectedSpans(pc) - {(a, b)}
  {
    forall s: (nat, nat)
      ensures s in MergedSpans(next) <==> s in MergedSpans(pc) + {(a, b)}
      ensures s in RejectedSpans(next) ==>
                s in if x.status == Rejected then RejectedSpans(pc) + {(a, b)} else RejectedSpans(pc) - {(a, b)}
    {
      SpansExact(pc, s);
      SpansExact(next, s);
      if s.0 < s.1 {
        EffectOutside(pc, next, a, b, x, s.0, s.1);
      }
    }
  }

  lemma {:induction false} SubsetSize(s: set<(nat, nat)>, t: set<(nat, nat)>)
    requires s <= t
    ensures |s| <= |t|
  {
    assert s + (t - s) == t;
  }

  lemma SameSpans(pc: ProofCalculation, next: ProofCalculation)
    requires Inv(pc) && Inv(next)
    requires forall a: nat, b: nat :: SameMerged(pc, next, a, b)
    ensures MergedSpans(next) == MergedSpans(pc) && RejectedSpans(next) == RejectedSpans(pc)
  {
    forall x: (nat, nat)
      ensures x in MergedSpans(next) <==> x in MergedSpans(pc)
      ensures x in RejectedSpans(next) <==> x in RejectedSpans(pc)
    {
      SpansExact(pc, x);
      SpansExact(next, x);
      assert SameMerged(pc, next, x.0, x.1);
    }
  }

  predicate SameMerged(pc: ProofCalculation, next: ProofCalculation, a: nat, b: nat) {
    a < b ==>
      && (At(next, a, b).Some? <==> At(pc, a, b).Some?)
      && (StatusAt(next, a, b, Rejected) <==> StatusAt(pc, a, b, Rejected))
  }

  // ---- planned merges are what the contract is asked for ----

  lemma RequestInjective(a: nat, b: nat, x: bool, c: nat, d: nat, y: bool)
    requires a < b && c < d && Request(a, b, x) == Request(c, d, y)
    ensures a == c && b == d
  {
    RangeInjective(a, Split(a, b) - 1, c, Split(c, d) - 1);
    RangeInjective(Split(a, b), b, Split(c, d), d);
  }

  lemma ListedIsProposable(pc: ProofCalculation, now: nat, a: nat, b: nat, blockProof: bool)
    requires Inv(pc) && a < b && StartsInBlock(pc) && Lists(pc, now, a, b, blockProof)
    ensures Proposable(pc, now, a, b) && !pc.isFinished
    ensures pc.endSequence.Some? ==> Wanted(pc, now, pc.startSequence, pc.endSequence.value, a, b)
  {
    var r := Request(a, b, blockProof);
    InvIsWellFormed(pc);
    if pc.endSequence.Some? {
      var first, last := pc.startSequence, pc.endSequence.value;
      AllMergesKnownEnd(pc, now, r);
      var c, d :| Wanted(pc, now, first, last, c, d) && r == Request(c, d, c == first && d == last);
      RequestInjective(a, b, blockProof, c, d, c == first && d == last);
      assert Node(a, b, a, b);
    } else {
      var c, d := ListedIsWanted(pc, now, r);
      RequestInjective(a, b, blockProof, c, d, false);
      CombinedIsRange(a, b, blockProof);
    }
  }

  lemma PlannedIsProposable(pc: ProofCalculation, now: nat, a: nat, b: nat)
    requires Inv(pc) && Planned(pc, now, a, b)
    ensures Proposable(pc, now, a, b) && !pc.isFinished
  {
    if Lists(pc, now, a, b, false) {
      ListedIsProposable(pc, now, a, b, false);
    } else {
      ListedIsProposable(pc, now, a, b, true);
    }
  }

  // ---- every action keeps the invariant and the count ----

  /** A finished block keeps a finished proof, unless that very proof is rejected or started again. */
  predicate Settled(w: World) {
    && (w.undone ==> w.pc.isFinished)
    && (w.pc.isFinished && !w.undone && w.pc.endSequence.Some? ==>
          DoneAt(w.pc, w.pc.startSequence, w.pc.endSequence.value))
  }

  ghost predicate RunInv(w: World) {
    Inv(w.pc) && Counted(w) && Settled(w)
  }

  /** A written single changes no merged proof. */
  lemma WrittenStep(pc: ProofCalculation, next: ProofCalculation, i: nat, p: Proof)
    requires Inv(pc) && Inv(next) && SingleWritten(pc, next, i, p)
    ensures MergedSpans(next) == MergedSpans(pc) && RejectedSpans(next) == RejectedSpans(pc)
  {
    forall a: nat, b: nat
      ensures SameMerged(pc, next, a, b)
    {
      SingleOutside(pc, next, i, p, a, b);
    }
    SameSpans(pc, next);
  }

  lemma SingleStep(w: World, i: nat)
    requires RunInv(w) && Enabled(w, SingleProved(i))
    ensures RunInv(Next(w, SingleProved(i)))
  {
    var p := Proof(Range(i, i), Calculated, w.now, None, None, true);
    var next := Next(w, SingleProved(i)).pc;
    SingleKeepsInv(w.pc, w.now, i);
    WrittenStep(w.pc, next, i, p);
    if w.pc.endSequence.Some? {
      SingleOutside(w.pc, next, i, p, w.pc.startSequence, w.pc.endSequence.value);
    }
  }

  lemma EndStep(w: World, last: nat)
    requires RunInv(w) && Enabled(w, EndFixed(last))
    ensures RunInv(Next(w, EndFixed(last)))
  {
    EndKeepsInv(w.pc, last, w.now);
    EndEffect(w.pc, last, w.now);
    var next := SetEndSequence(w.pc, last, w.now);
    forall a: nat, b: nat
      ensures SameMerged(w.pc, next, a, b)
    {
      assert EndEffectAt(w.pc, next, last, w.now, Range(a, b));
    }
    SameSpans(w.pc, next);
    assert EndEffectAt(w.pc, next, last, w.now, Range(w.pc.startSequence, last));
  }

  /** Only a rejection or another start of the block's own proof undoes a finished block. */
  lemma LegalSettled(w: World, next: World, a: nat, b: nat, x: Change)
    requires RunInv(w) && Legal(w.pc, next.pc, a, b, x) && Inv(next.pc)
    requires next.undone == (w.undone || (x.status != Calculated && Undoes(w.pc, a, b)))
    ensures Settled(next)
  {
    if w.pc.endSequence.Some? {
      var first, last := w.pc.startSequence, w.pc.endSequence.value;
      NodeBounds(first, last, a, b);
      EffectOutside(w.pc, next.pc, a, b, x, first, last);
      EffectOutside(w.pc, next.pc, a, b, x, a, b);
    }
  }

  /** An accepted start makes a new merged proof, or one rejected proof less, or is a restart. */
  lemma StartCounted(w: World, next: ProofCalculation, a: nat, b: nat)
    requires RunInv(w) && Inv(next) && Legal(w.pc, next, a, b, Change(Started, false, Reserved))
    ensures Counted(WithStart(w, next, a, b))
  {
    LegalSpans(w.pc, next, a, b, Change(Started, false, Reserved));
    SpansExact(w.pc, (a, b));
    SubsetSize(RejectedSpans(next), RejectedSpans(w.pc) - {(a, b)});
    if At(w.pc, a, b).Some? {
      assert MergedSpans(w.pc) + {(a, b)} == MergedSpans(w.pc);
    }
  }

  lemma RequestStep(w: World, a: nat, b: nat)
    requires RunInv(w) && Enabled(w, MergeRequested(a, b))
    ensures RunInv(Next(w, MergeRequested(a, b)))
  {
    if StartMerge(w.pc, w.now, a, b).Some? {
      StartKeepsInv(w.pc, w.now, a, b);
      var next := StartMerge(w.pc, w.now, a, b).value;
      StartCounted(w, next, a, b);
      LegalSettled(w, WithStart(w, next, a, b), a, b, Change(Started, false, Reserved));
    }
  }

  lemma ProvedStep(w: World, a: nat, b: nat)
    requires RunInv(w) && Enabled(w, MergeProved(a, b))
    ensures RunInv(Next(w, MergeProved(a, b)))
  {
    SubmitAcceptedIff(w.pc, w.now, a, b);
    if HalvesUsable(w.pc, a, b) {
      SubmitKeepsInv(w.pc, w.now, a, b);
      var next := Next(w, MergeProved(a, b));
      LegalSpans(w.pc, next.pc, a, b, Change(Calculated, true, Used));
      LegalSettled(w, next, a, b, Change(Calculated, true, Used));
      SpansExact(w.pc, (a, b));
      SubsetSize(RejectedSpans(next.pc), RejectedSpans(w.pc));
      assert MergedSpans(w.pc) + {(a, b)} == MergedSpans(w.pc);
    }
  }

  lemma RejectMergeStep(w: World, a: nat, b: nat)
    requires RunInv(w) && Enabled(w, ProofRejected(a, b)) && a < b
    ensures RunInv(Next(w, ProofRejected(a, b)))
  {
    RejectKeepsInv(w.pc, w.now, a, b);
    var x := Change(Rejected, At(w.pc, a, b).value.hasHash, Calculated);
    var next := Next(w, ProofRejected(a, b));
    LegalSpans(w.pc, next.pc, a, b, x);
    LegalSettled(w, next, a, b, x);
    SpansExact(w.pc, (a, b));
    SubsetSize(RejectedSpans(next.pc), RejectedSpans(w.pc) + {(a, b)});
    assert MergedSpans(w.pc) + {(a, b)} == MergedSpans(w.pc);
  }

  lemma RejectSingleStep(w: World, i: nat)
    requires RunInv(w) && Enabled(w, ProofRejected(i, i))
    ensures RunInv(Next(w, ProofRejected(i, i)))
  {
    RejectSingleKeepsInv(w.pc, w.now, i);
    var p := At(w.pc, i, i).value.(status := Rejected);
    var next := Next(w, ProofRejected(i, i)).pc;
    WrittenStep(w.pc, next, i, p);
    if w.pc.endSequence.Some? {
      SingleOutside(w.pc, next, i, p, w.pc.startSequence, w.pc.endSequence.value);
    }
  }

  lemma StepKeeps(w: World, act: Action)
    requires RunInv(w) && Enabled(w, act)
    ensures RunInv(Next(w, act))
  {
    match act {
      case Tick(_) =>
      case SingleProved(i) => SingleStep(w, i);
      case EndFixed(last) => EndStep(w, last);
      case MergeRequested(a, b) => RequestStep(w, a, b);
      case MergeProved(a, b) => ProvedStep(w, a, b);
      case ProofRejected(a, b) =>
        if a < b {
          RejectMergeStep(w, a, b);
        } else {
          RejectSingleStep(w, a);
        }
    }
  }

  lemma InitialInv(w: World)
    requires Initial(w)
    ensures RunInv(w)
  {
    assert MergedSpans(w.pc) == {} && RejectedSpans(w.pc) == {};
  }

  lemma {:induction false} RunFrom(w: World, acts: seq<Action>)
    requires RunInv(w) && Runs(w, acts)
    ensures RunInv(After(w, acts))
    decreases |acts|
  {
    if acts != [] {
      StepKeeps(w, acts[0]);
      RunFrom(Next(w, acts[0]), acts[1..]);
    }
  }

  /** The invariant holds after every run of a new block, whatever was rejected in it. */
  lemma RunKeepsInv(w: World, acts: seq<Action>)
    requires Initial(w) && Runs(w, acts)
    ensures RunInv(After(w, acts))
  {
    InitialInv(w);
    RunFrom(w, acts);
  }

  // ---- a request is still for a range of the tree however late it comes ----

  /** A merge of the tree with both halves stored. */
  ghost predicate Requestable(pc: ProofCalculation, a: nat, b: nat) {
    a < b && InTree(pc, a, b) && At(pc, a, Split(a, b) - 1).Some? && At(pc, Split(a, b), b).Some?
  }

  lemma StoredStays(w: World, act: Action, a: nat, b: nat)
    requires RunInv(w) && Enabled(w, act) && a <= b && At(w.pc, a, b).Some?
    ensures At(Next(w, act).pc, a, b).Some?
  {
    var next := Next(w, act).pc;
    match act {
      case Tick(_) =>
      case SingleProved(i) =>
        SingleKeepsInv(w.pc, w.now, i);
        SingleOutside(w.pc, next, i, Proof(Range(i, i), Calculated, w.now, None, None, true), a, b);
      case EndFixed(last) =>
        EndEffect(w.pc, last, w.now);
        assert EndEffectAt(w.pc, next, last, w.now, Range(a, b));
      case MergeRequested(c, d) =>
        if StartMerge(w.pc, w.now, c, d).Some? {
          StartKeepsInv(w.pc, w.now, c, d);
          EffectOutside(w.pc, next, c, d, Change(Started, false, Reserved), a, b);
        }
      case MergeProved(c, d) =>
        SubmitAcceptedIff(w.pc, w.now, c, d);
        if HalvesUsable(w.pc, c, d) {
          SubmitKeepsInv(w.pc, w.now, c, d);
          EffectOutside(w.pc, next, c, d, Change(Calculated, true, Used), a, b);
        }
      case ProofRejected(c, d) => RejectedStays(w.pc, w.now, c, d, a, b);
    }
  }

  lemma RejectedStays(pc: ProofCalculation, now: nat, c: nat, d: nat, a: nat, b: nat)
    requires Inv(pc) && c <= d && At(pc, c, d).Some? && a <= b && At(pc, a, b).Some?
    ensures RejectAt(pc, now, c, d).Some? && At(RejectAt(pc, now, c, d).value, a, b).Some?
  {
    if c < d {
      RejectKeepsInv(pc, now, c, d);
      var x := Change(Rejected, At(pc, c, d).value.hasHash, Calculated);
      EffectOutside(pc, RejectAt(pc, now, c, d).value, c, d, x, a, b);
    } else {
      RejectSingleKeepsInv(pc, now, c);
      var p := At(pc, c, c).value.(status := Rejected);
      SingleOutside(pc, RejectAt(pc, now, c, c).value, c, p, a, b);
    }
  }

  /** No action moves the block, and fixing the end turns its chunks into nodes. */
  lemma TreeStays(w: World, act: Action, a: nat, b: nat)
    requires RunInv(w) && Enabled(w, act) && Requestable(w.pc, a, b)
    ensures InTree(Next(w, act).pc, a, b)
  {
    if act.EndFixed? {
      FindStored(w.pc.proofs, Range(Split(a, b), b));
      ChunkIsNode(w.pc.startSequence, a, b, act.last);
    }
  }

  lemma RequestableStep(w: World, act: Action, a: nat, b: nat)
    requires RunInv(w) && Enabled(w, act) && Requestable(w.pc, a, b)
    ensures Requestable(Next(w, act).pc, a, b)
  {
    TreeStays(w, act, a, b);
    StoredStays(w, act, a, Split(a, b) - 1);
    StoredStays(w, act, Split(a, b), b);
  }

  lemma {:induction false} RequestableStays(w: World, acts: seq<Action>, a: nat, b: nat)
    requires RunInv(w) && Runs(w, acts) && Requestable(w.pc, a, b)
    ensures Requestable(After(w, acts).pc, a, b)
    decreases |acts|
  {
    if acts != [] {
      StepKeeps(w, acts[0]);
      RequestableStep(w, acts[0], a, b);
      RequestableStays(Next(w, acts[0]), acts[1..], a, b);
    }
  }

  /** Whatever the planner lists at some time can be requested at any later time of the run. */
  lemma PlannedStaysEnabled(w: World, acts: seq<Action>, a: nat, b: nat)
    requires RunInv(w) && Runs(w, acts) && Planned(w.pc, w.now, a, b)
    ensures Enabled(After(w, acts), MergeRequested(a, b))
  {
    PlannedIsProposable(w.pc, w.now, a, b);
    AvailableIsDone(w.pc, w.now, a, b);
    RequestableStays(w, acts, a, b);
  }

  // ---- what a finished block looks like ----

  lemma {:induction false} StoredBelow(pc: ProofCalculation, a: nat, b: nat, c: nat, d: nat)
    requires Inv(pc) && a <= b && At(pc, a, b).Some? && Node(a, b, c, d)
    ensures At(pc, c, d).Some?
    ensures !(a == c && b == d) ==> Held(pc, c, d)
    decreases b - a
  {
    if !(a == c && b == d) {
      var m := Split(a, b);
      assert HalvesKept(pc, a, b);
      assert IsHalf(a, b, a, m - 1) && IsHalf(a, b, m, b);
      if Node(a, m - 1, c, d) {
        StoredBelow(pc, a, m - 1, c, d);
      } else {
        StoredBelow(pc, m, b, c, d);
      }
    }
  }

  /** Once the block's own proof is stored, the merged proofs are exactly the inner nodes of its tree. */
  lemma StoredRootIsWholeTree(pc: ProofCalculation)
    requires Inv(pc) && pc.endSequence.Some? && At(pc, pc.startSequence, pc.endSequence.value).Some?
    ensures MergedSpans(pc) == InnerNodes(pc.startSequence, pc.endSequence.value)
    ensures |MergedSpans(pc)| == pc.endSequence.value - pc.startSequence
  {
    var first, last := pc.startSequence, pc.endSequence.value;
    forall x: (nat, nat)
      ensures x in MergedSpans(pc) <==> x in InnerNodes(first, last)
    {
      SpansExact(pc, x);
      InnerNodesExact(first, last, x);
      if x in MergedSpans(pc) {
        ShapeOf(pc, x.0, x.1);
      }
      if x in InnerNodes(first, last) {
        StoredBelow(pc, first, last, x.0, x.1);
      }
    }
    InnerNodesCount(first, last);
  }

  /**
    A block of n sequences finishes with exactly n - 1 merged proofs, the inner nodes of its split tree,
    whatever was merged before its end was known and whenever the merges were planned. Without rejections
    and restarts of timed-out merges that took exactly n - 1 starts.
  */
  lemma FinishedBlock(w: World, acts: seq<Action>)
    requires Initial(w) && Runs(w, acts) && After(w, acts).pc.isFinished
    ensures
      var v := After(w, acts);
      && v.pc.endSequence.Some?
      && MergedSpans(v.pc) == InnerNodes(v.pc.startSequence, v.pc.endSequence.value)
      && |MergedSpans(v.pc)| == v.pc.endSequence.value - v.pc.startSequence
      && (v.rejections == 0 && v.restarts == 0 ==> v.starts == v.pc.endSequence.value - v.pc.startSequence)
  {
    RunKeepsInv(w, acts);
    StoredRootIsWholeTree(After(w, acts).pc);
  }

  /** Once the end is known, every merged proof there is, made before or after, belongs to the block's tree. */
  lemma NoMergeWasted(w: World, acts: seq<Action>)
    requires Initial(w) && Runs(w, acts) && After(w, acts).pc.endSequence.Some?
    ensures
      var v := After(w, acts);
      MergedSpans(v.pc) <= InnerNodes(v.pc.startSequence, v.pc.endSequence.value)
  {
    RunKeepsInv(w, acts);
    var pc := After(w, acts).pc;
    forall x: (nat, nat) | x in MergedSpans(pc)
      ensures x in InnerNodes(pc.startSequence, pc.endSequence.value)
    {
      SpansExact(pc, x);
      ShapeOf(pc, x.0, x.1);
      InnerNodesExact(pc.startSequence, pc.endSequence.value, x);
    }
  }

  // ---- progress ----

  predicate SinglesOf(pc: ProofCalculation, a: nat, b: nat) {
    forall i: nat :: a <= i <= b ==> At(pc, i, i).Some?
  }

  predicate AllSingles(pc: ProofCalculation) {
    pc.endSequence.Some? && SinglesOf(pc, pc.startSequence, pc.endSequence.value)
  }

  /** A stored proof that no stored merge has as a half. */
  ghost predicate Top(pc: ProofCalculation, a: nat, b: nat) {
    a <= b && At(pc, a, b).Some? && !Held(pc, a, b)
  }

  /** Waiting for a prover, or rejected. */
  predicate Blocked(pc: ProofCalculation, a: nat, b: nat) {
    StatusAt(pc, a, b, Started) || StatusAt(pc, a, b, Rejected)
  }

  /** No top proof inside `a..b` is waiting for a prover or rejected. */
  ghost predicate TopsReadyIn(pc: ProofCalculation, a: nat, b: nat) {
    forall c: nat, d: nat :: Node(a, b, c, d) && Top(pc, c, d) ==> !Blocked(pc, c, d)
  }

  /** No top proof of the block is. */
  ghost predicate TopsReady(pc: ProofCalculation)
    requires pc.endSequence.Some?
  {
    TopsReadyIn(pc, pc.startSequence, pc.endSequence.value)
  }

  /** Below an absent node there is an absent node with both halves stored. */
  lemma {:induction false} LowestAbsent(pc: ProofCalculation, a: nat, b: nat) returns (c: nat, d: nat)
    requires a <= b && At(pc, a, b).None? && SinglesOf(pc, a, b)
    ensures Node(a, b, c, d) && c < d && At(pc, c, d).None?
    ensures At(pc, c, Split(c, d) - 1).Some? && At(pc, Split(c, d), d).Some?
    decreases b - a
  {
    var m := Split(a, b);
    if At(pc, a, m - 1).None? {
      c, d := LowestAbsent(pc, a, m - 1);
    } else if At(pc, m, b).None? {
      c, d := LowestAbsent(pc, m, b);
    } else {
      c, d := a, b;
    }
  }

  /** A stored half of an absent node is a top proof that no merge has touched. */
  lemma FreeHalf(pc: ProofCalculation, a: nat, b: nat, c: nat, d: nat)
    requires Inv(pc) && !pc.isFinished && pc.endSequence.Some?
    requires Node(pc.startSequence, pc.endSequence.value, c, d) && At(pc, c, d).None?
    requires IsHalf(c, d, a, b) && a <= b && At(pc, a, b).Some?
    ensures Top(pc, a, b) && Untouched(At(pc, a, b).value)
  {
    forall e, f | IsHalf(e, f, a, b) && At(pc, e, f).Some?
      ensures false
    {
      ShapeOf(pc, e, f);
      ParentUnique(pc.startSequence, pc.endSequence.value, a, b, c, d, e, f);
    }
    assert HeldForMerge(pc, a, b);
  }

  /** Nothing is stored above an absent node. */
  lemma NothingAbove(pc: ProofCalculation, a: nat, b: nat, c: nat, d: nat)
    requires Inv(pc) && At(pc, a, b).None? && Node(c, d, a, b)
    ensures !Present(pc, c, d)
  {
    NodeBounds(c, d, a, b);
    if At(pc, c, d).Some? {
      StoredBelow(pc, c, d, a, b);
    }
  }

  /** An absent range with all its singles whose top proofs are ready has a merge to plan in it. */
  lemma PlanNotEmpty(pc: ProofCalculation, now: nat, c: nat, d: nat) returns (a: nat, b: nat)
    requires Inv(pc) && !pc.isFinished && pc.endSequence.Some?
    requires Node(pc.startSequence, pc.endSequence.value, c, d) && At(pc, c, d).None?
    requires SinglesOf(pc, c, d) && TopsReadyIn(pc, c, d)
    ensures Node(c, d, a, b) && Wanted(pc, now, pc.startSequence, pc.endSequence.value, a, b)
  {
    var first, last := pc.startSequence, pc.endSequence.value;
    NodeBounds(first, last, c, d);
    a, b := LowestAbsent(pc, c, d);
    NodeTrans(first, last, c, d, a, b);
    NodeChildren(c, d, a, b);
    FreeHalf(pc, a, Split(a, b) - 1, a, b);
    FreeHalf(pc, Split(a, b), b, a, b);
    forall e, f | Node(first, last, e, f) && Node(e, f, a, b)
      ensures !Present(pc, e, f)
    {
      NothingAbove(pc, a, b, e, f);
    }
  }

  /** The proof of the whole block is half of nothing. */
  lemma RootIsTop(pc: ProofCalculation)
    requires Inv(pc) && pc.endSequence.Some? && At(pc, pc.startSequence, pc.endSequence.value).Some?
    ensures Top(pc, pc.startSequence, pc.endSequence.value)
  {
    forall e, f | IsHalf(e, f, pc.startSequence, pc.endSequence.value) && At(pc, e, f).Some?
      ensures false
    {
      ShapeOf(pc, e, f);
    }
  }

  lemma RootAbsent(pc: ProofCalculation)
    requires Inv(pc) && !pc.isFinished && pc.endSequence.Some? && TopsReady(pc)
    ensures At(pc, pc.startSequence, pc.endSequence.value).None?
  {
    var first, last := pc.startSequence, pc.endSequence.value;
    assert HeldForMerge(pc, first, last);
    if At(pc, first, last).Some? {
      RootIsTop(pc);
      assert Node(first, last, first, last);
    }
  }

  /** With a known end the halves of a wanted merge are free for it and have a hash: the contract takes it. */
  lemma WantedIsAccepted(pc: ProofCalculation, now: nat, a: nat, b: nat)
    requires Inv(pc) && !pc.isFinished && pc.endSequence.Some?
    requires Wanted(pc, now, pc.startSequence, pc.endSequence.value, a, b)
    ensures StartMerge(pc, now, a, b).Some?
  {
    assert Node(a, b, a, b);
    FreeHalf(pc, a, Split(a, b) - 1, a, b);
    FreeHalf(pc, Split(a, b), b, a, b);
    ProposedAcceptedIff(pc, now, a, b);
  }

  lemma WantedIsPlanned(pc: ProofCalculation, now: nat, a: nat, b: nat)
    requires Inv(pc) && !pc.isFinished && pc.endSequence.Some?
    requires Wanted(pc, now, pc.startSequence, pc.endSequence.value, a, b)
    ensures Planned(pc, now, a, b)
  {
    var block := a == pc.startSequence && b == pc.endSequence.value;
    InvIsWellFormed(pc);
    AllMergesKnownEnd(pc, now, Request(a, b, block));
    TopDownRequestQueued(pc, now, a, b);
    assert Lists(pc, now, a, b, block);
  }

  /**
    In every reachable state with a known end, everything the planner lists passes the coordinator's checks
    and is accepted by the contract.
  */
  lemma ListedIsAccepted(w: World, acts: seq<Action>, r: MergeRequest) returns (a: nat, b: nat)
    requires Initial(w) && Runs(w, acts)
    requires
      var v := After(w, acts);
      v.pc.endSequence.Some? && StartsInBlock(v.pc) && r in AllMerges(v.pc, v.now)
    ensures
      var v := After(w, acts);
      && a < b && r == Request(a, b, a == v.pc.startSequence && b == v.pc.endSequence.value)
      && CreateMergeJob(v.pc, v.pc, r, v.now).Queued?
      && StartMerge(v.pc, v.now, a, b).Some?
  {
    var v := After(w, acts);
    RunKeepsInv(w, acts);
    InvIsWellFormed(v.pc);
    var first, last := v.pc.startSequence, v.pc.endSequence.value;
    AllMergesKnownEnd(v.pc, v.now, r);
    a, b :| Wanted(v.pc, v.now, first, last, a, b) && r == Request(a, b, a == first && b == last);
    TopDownRequestQueued(v.pc, v.now, a, b);
    WantedIsAccepted(v.pc, v.now, a, b);
  }

  /**
    The run is never stuck anywhere: take any range of the tree of a reachable unfinished block that is not
    merged yet, whose singles are all there and none of whose top proofs waits for a prover or is rejected.
    A merge inside it is listed, queued and accepted, whatever goes on in the rest of the block.
  */
  lemma NeverStuck(w: World, acts: seq<Action>, c: nat, d: nat) returns (a: nat, b: nat)
    requires Initial(w) && Runs(w, acts)
    requires
      var v := After(w, acts);
      && !v.pc.isFinished && v.pc.endSequence.Some?
      && Node(v.pc.startSequence, v.pc.endSequence.value, c, d) && At(v.pc, c, d).None?
      && SinglesOf(v.pc, c, d) && TopsReadyIn(v.pc, c, d)
    ensures Node(c, d, a, b) && Planned(After(w, acts).pc, After(w, acts).now, a, b)
    ensures StartMerge(After(w, acts).pc, After(w, acts).now, a, b).Some?
  {
    var v := After(w, acts);
    RunKeepsInv(w, acts);
    a, b := PlanNotEmpty(v.pc, v.now, c, d);
    WantedIsPlanned(v.pc, v.now, a, b);
    WantedIsAccepted(v.pc, v.now, a, b);
  }

  // ---- when a block at rest is finished ----

  /** In a block whose own proof is stored, that proof is the only top proof. */
  lemma OnlyRootIsTop(pc: ProofCalculation, a: nat, b: nat)
    requires Inv(pc) && pc.endSequence.Some? && At(pc, pc.startSequence, pc.endSequence.value).Some?
    requires Top(pc, a, b)
    ensures a == pc.startSequence && b == pc.endSequence.value
  {
    ShapeOf(pc, a, b);
    StoredBelow(pc, pc.startSequence, pc.endSequence.value, a, b);
  }

  /**
    When a block with a known end and all its singles has come to rest, with nothing left to list, it is
    finished if and only if no top proof is waiting for a prover or rejected, or its own proof was rejected
    or started again after finishing it. So one rejection, or one prover that never answers, holds up the whole block.
  */
  lemma AtRestFinishedIff(w: World, acts: seq<Action>)
    requires Initial(w) && Runs(w, acts)
    requires
      var v := After(w, acts);
      AllSingles(v.pc) && StartsInBlock(v.pc) && AllMerges(v.pc, v.now) == []
    ensures After(w, acts).pc.isFinished <==> After(w, acts).undone || TopsReady(After(w, acts).pc)
  {
    var v := After(w, acts);
    var first, last := v.pc.startSequence, v.pc.endSequence.value;
    RunKeepsInv(w, acts);
    if v.pc.isFinished && !v.undone {
      forall a: nat, b: nat | Node(first, last, a, b) && Top(v.pc, a, b)
        ensures !Blocked(v.pc, a, b)
      {
        OnlyRootIsTop(v.pc, a, b);
      }
    }
    if !v.pc.isFinished && TopsReady(v.pc) {
      RootAbsent(v.pc);
      assert Node(first, last, first, last);
      var a, b := PlanNotEmpty(v.pc, v.now, first, last);
      PlanExact(v.pc, v.now, first, last, a, b);
    }
  }

  /**
    With a known end a top proof that waits for a prover or is rejected keeps its own merge and every merge
    above it from being planned, at any clock.
  */
  lemma TopBlocksAbove(pc: ProofCalculation, now: nat, a: nat, b: nat, c: nat, d: nat)
    requires Inv(pc) && pc.endSequence.Some? && Top(pc, a, b) && Blocked(pc, a, b)
    requires Node(pc.startSequence, pc.endSequence.value, c, d) && Node(c, d, a, b)
    ensures !Planned(pc, now, c, d)
  {
    if Planned(pc, now, c, d) {
      PlannedHalvesDone(pc, now, c, d);
      TopBlocksHalves(pc, a, b, c, d);
    }
  }

  /** One half of a node above such a top proof is not finished. */
  lemma TopBlocksHalves(pc: ProofCalculation, a: nat, b: nat, c: nat, d: nat)
    requires Inv(pc) && Top(pc, a, b) && Blocked(pc, a, b)
    requires c < d && Node(c, d, a, b) && At(pc, c, d).None?
    ensures !(DoneAt(pc, c, Split(c, d) - 1) && DoneAt(pc, Split(c, d), d))
  {
    NodeTop(c, d, a, b);
    if DoneAt(pc, c, Split(c, d) - 1) && DoneAt(pc, Split(c, d), d) {
      TopNotBelow(pc, c, Split(c, d) - 1, a, b);
      TopNotBelow(pc, Split(c, d), d, a, b);
    }
  }

  /** A top proof lies strictly below nothing stored. */
  lemma TopNotBelow(pc: ProofCalculation, c: nat, d: nat, a: nat, b: nat)
    requires Inv(pc) && c <= d && At(pc, c, d).Some? && Top(pc, a, b)
    ensures Node(c, d, a, b) ==> c == a && d == b
  {
    if Node(c, d, a, b) {
      StoredBelow(pc, c, d, a, b);
    }
  }

  /** A node is the top itself or a node of one of its halves. */
  lemma NodeTop(c: nat, d: nat, a: nat, b: nat)
    requires c < d && Node(c, d, a, b) && !(a == c && b == d)
    ensures Node(c, Split(c, d) - 1, a, b) || Node(Split(c, d), d, a, b)
  {
  }

  lemma PlannedHalvesDone(pc: ProofCalculation, now: nat, a: nat, b: nat)
    requires Inv(pc) && pc.endSequence.Some? && Planned(pc, now, a, b)
    ensures a < b && At(pc, a, b).None? && DoneAt(pc, a, Split(a, b) - 1) && DoneAt(pc, Split(a, b), b)
  {
    if Lists(pc, now, a, b, false) {
      ListedIsProposable(pc, now, a, b, false);
    } else {
      ListedIsProposable(pc, now, a, b, true);
    }
    assert Node(a, b, a, b);
    AvailableIsDone(pc, now, a, b);
  }

  /** The proof of a finished block can still be rejected; the block stays finished and nothing is planned again. */
  lemma FinishedBlockRejected(pc: ProofCalculation, now: nat)
    requires Inv(pc) && pc.isFinished
    ensures
      var first, last := pc.startSequence, pc.endSequence.value;
      && RejectAt(pc, now, first, last).Some?
      && RejectAt(pc, now, first, last).value.isFinished
      && StatusAt(RejectAt(pc, now, first, last).value, first, last, Rejected)
      && StartsInBlock(RejectAt(pc, now, first, last).value)
      && AllMerges(RejectAt(pc, now, first, last).value, now) == []
  {
    var first, last := pc.startSequence, pc.endSequence.value;
    if first < last {
      RejectKeepsInv(pc, now, first, last);
      var next := RejectAt(pc, now, first, last).value;
      EffectOutside(pc, next, first, last, Change(Rejected, At(pc, first, last).value.hasHash, Calculated),
                    first, last);
      InvIsWellFormed(next);
    } else {
      RejectSingleKeepsInv(pc, now, first);
      var p, next := At(pc, first, first).value.(status := Rejected), RejectAt(pc, now, first, first).value;
      SingleOutside(pc, next, first, p, first, first);
      InvIsWellFormed(next);
    }
  }
}
