/**
  When the bottom-up list covers a sequence twice (crates/coordinator/src/merge.rs, lines 765-848): exactly
  when, in every state the contract can be in, and one run in which it happens.
*/
module MergeOverlap {
  import opened Wrappers
  import opened PowersOfTwo
  import opened SplitTree
  import opened Proofs
  import opened TopDownPlanner
  import opened BottomUpPlanner
  import opened MergePlanner
  import opened MergeJob
  import opened ProofContract
  import opened MergeInvariant
  import opened MergeSteps
  import opened MergeRun
  import opened MergeHalves

  predicate EntriesDisjoint(r: seq<MergeRequest>, i: nat, j: nat)
    requires i < j < |r|
  {
    && r[i].sequences1 != [] && r[i].sequences2 != [] && r[j].sequences1 != [] && r[j].sequences2 != []
    && RequestsDisjoint(r[i], r[j])
  }

  /** No two entries of the list cover a common sequence. */
  predicate ListDisjoint(pc: ProofCalculation, now: nat)
    requires StartsInBlock(pc)
  {
    var r := AllMerges(pc, now);
    forall i: nat, j: nat :: i < j < |r| ==> EntriesDisjoint(r, i, j)
  }

  /**
    Inside `a..b`, which can be merged and is not active, lies `c..d`: rejected, or Started and timed out,
    and with halves that are free again.
  */
  ghost predicate Overlap(pc: ProofCalculation, now: nat, a: nat, b: nat, c: nat, d: nat) {
    && a < b && Chunk(pc.startSequence, a, b) && b + 1 - a <= 2 * MAX_LEVEL
    && HalvesAvailable(pc, now, a, b) && !ActiveAt(pc, now, a, b)
    && a <= c < d <= b && (c, d) != (a, b)
    && Dead(pc, now, c, d) && HalvesAvailable(pc, now, c, d)
  }

  ghost predicate AnyOverlap(pc: ProofCalculation, now: nat) {
    exists a: nat, b: nat, c: nat, d: nat :: Overlap(pc, now, a, b, c, d)
  }

  // ---- such a pair is listed ----

  lemma OverlapIsWanted(pc: ProofCalculation, now: nat, a: nat, b: nat, c: nat, d: nat)
    requires Inv(pc) && pc.endSequence.None? && Overlap(pc, now, a, b, c, d)
    ensures BottomUpWanted(pc, now, a, b) && BottomUpWanted(pc, now, c, d)
  {
    ShapeOf(pc, c, d);
    ActiveIsActiveAt(pc, now, a, b);
    ActiveIsActiveAt(pc, now, c, d);
  }

  lemma WantedIsEntry(pc: ProofCalculation, now: nat, a: nat, b: nat) returns (i: nat)
    requires Inv(pc) && pc.endSequence.None? && BottomUpWanted(pc, now, a, b)
    ensures StartsInBlock(pc) && i < |AllMerges(pc, now)| && AllMerges(pc, now)[i] == Request(a, b, false)
  {
    InvIsWellFormed(pc);
    BottomUpExact(pc, now, Request(a, b, false));
    i :| i < |AllMerges(pc, now)| && AllMerges(pc, now)[i] == Request(a, b, false);
  }

  lemma RequestSpan(a: nat, b: nat)
    requires a < b
    ensures
      var r := Request(a, b, false);
      r.sequences1 != [] && r.sequences2 != [] && r.sequences1[0] == a && Last(r.sequences2) == b
  {
  }

  lemma OverlapBreaksList(pc: ProofCalculation, now: nat, a: nat, b: nat, c: nat, d: nat)
    requires Inv(pc) && StartsInBlock(pc) && pc.endSequence.None? && Overlap(pc, now, a, b, c, d)
    ensures !ListDisjoint(pc, now)
  {
    OverlapIsWanted(pc, now, a, b, c, d);
    var i := WantedIsEntry(pc, now, a, b);
    var j := WantedIsEntry(pc, now, c, d);
    RequestSpan(a, b);
    RequestSpan(c, d);
    var r := AllMerges(pc, now);
    assert i != j;
    if i < j {
      assert !EntriesDisjoint(r, i, j);
    } else {
      assert !EntriesDisjoint(r, j, i);
    }
  }

  // ---- and nothing else makes the list overlap ----

  /** Of two wanted ranges, one inside the other, the inner one is stored and dead. */
  lemma InsideIsOverlap(pc: ProofCalculation, now: nat, a: nat, b: nat, c: nat, d: nat)
    requires Inv(pc) && BottomUpWanted(pc, now, a, b) && BottomUpWanted(pc, now, c, d)
    requires Node(a, b, c, d) && (c, d) != (a, b)
    ensures Overlap(pc, now, a, b, c, d)
  {
    NodeBounds(a, b, c, d);
    NodeTop(a, b, c, d);
    if Node(a, Split(a, b) - 1, c, d) {
      StoredBelow(pc, a, Split(a, b) - 1, c, d);
    } else {
      StoredBelow(pc, Split(a, b), b, c, d);
    }
    ActiveIsActiveAt(pc, now, a, b);
    ActiveIsActiveAt(pc, now, c, d);
  }

  lemma WantedApart(pc: ProofCalculation, now: nat, a: nat, b: nat, c: nat, d: nat)
    requires Inv(pc) && BottomUpWanted(pc, now, a, b) && BottomUpWanted(pc, now, c, d) && !AnyOverlap(pc, now)
    ensures (c, d) == (a, b) || Disjoint(a, b, c, d)
  {
    var last := if b < d then d else b;
    ChunkIsNode(pc.startSequence, a, b, last);
    ChunkIsNode(pc.startSequence, c, d, last);
    Laminar(pc.startSequence, last, a, b, c, d);
    if (c, d) != (a, b) {
      if Node(a, b, c, d) {
        InsideIsOverlap(pc, now, a, b, c, d);
      } else if Node(c, d, a, b) {
        InsideIsOverlap(pc, now, c, d, a, b);
      }
    }
  }

  lemma EntriesApart(pc: ProofCalculation, now: nat, i: nat, j: nat)
    requires Inv(pc) && StartsInBlock(pc) && pc.endSequence.None? && !AnyOverlap(pc, now)
    requires i < j < |AllMerges(pc, now)|
    ensures EntriesDisjoint(AllMerges(pc, now), i, j)
  {
    var r := AllMerges(pc, now);
    InvIsWellFormed(pc);
    assert r[i] != r[j] by { RequestsOnce(pc, now, 1); }
    var a, b := ListedIsWanted(pc, now, r[i]);
    var c, d := ListedIsWanted(pc, now, r[j]);
    WantedApart(pc, now, a, b, c, d);
  }

  /**
    With an unknown end no two listed merges cover a common sequence, if and only if no range that can be
    merged contains a rejected or timed-out merge that could be done again.
  */
  lemma ListDisjointIff(pc: ProofCalculation, now: nat)
    requires Inv(pc) && StartsInBlock(pc) && pc.endSequence.None?
    ensures ListDisjoint(pc, now) <==> !AnyOverlap(pc, now)
  {
    if AnyOverlap(pc, now) {
      var a: nat, b: nat, c: nat, d: nat :| Overlap(pc, now, a, b, c, d);
      OverlapBreaksList(pc, now, a, b, c, d);
    } else {
      forall i: nat, j: nat | i < j < |AllMerges(pc, now)|
        ensures EntriesDisjoint(AllMerges(pc, now), i, j)
      {
        EntriesApart(pc, now, i, j);
      }
    }
  }

  /** While active merges have usable halves there is no such pair. */
  lemma ReadyHasNoOverlap(pc: ProofCalculation, now: nat)
    requires Inv(pc) && pc.endSequence.None? && HalvesReady(pc, now)
    ensures !AnyOverlap(pc, now)
  {
    if a: nat, b: nat, c: nat, d: nat :| Overlap(pc, now, a, b, c, d) {
      OverlapIsWanted(pc, now, a, b, c, d);
      ReadyIsActive(pc, now);
      BottomUpDisjoint(pc, now, a, b, c, d);
    }
  }

  /** In a run that breaks no half away, the listed merges of all levels cover disjoint ranges. */
  lemma RunListDisjoint(w: World, acts: seq<Action>)
    requires Initial(w) && Runs(w, acts) && NothingBroken(w, acts) && After(w, acts).pc.endSequence.None?
    ensures StartsInBlock(After(w, acts).pc) && ListDisjoint(After(w, acts).pc, After(w, acts).now)
  {
    var v := After(w, acts);
    RunKeepsInv(w, acts);
    InitialInv(w);
    ReadyIffFrom(w, acts);
    InvIsWellFormed(v.pc);
    ReadyHasNoOverlap(v.pc, v.now);
    ListDisjointIff(v.pc, v.now);
  }

  // ---- a rejection that makes such a pair ----

  /** Rejecting a merge changes no proof around its own range, and none beside it. */
  lemma RejectOutside(pc: ProofCalculation, now: nat, a: nat, b: nat, c: nat, d: nat)
    requires Inv(pc) && a < b && At(pc, a, b).Some? && c <= d
    requires d - c > b - a || Disjoint(a, b, c, d)
    ensures RejectAt(pc, now, a, b).Some? && At(RejectAt(pc, now, a, b).value, c, d) == At(pc, c, d)
  {
    RejectKeepsInv(pc, now, a, b);
    EffectOutside(pc, RejectAt(pc, now, a, b).value, a, b,
                  Change(Rejected, At(pc, a, b).value.hasHash, Calculated), c, d);
  }

  /** With an unknown end a rejected merge of at most 512 sequences is wanted again at once. */
  lemma RejectedWantedAgain(pc: ProofCalculation, now: nat, a: nat, b: nat)
    requires Inv(pc) && pc.endSequence.None? && a < b && At(pc, a, b).Some? && b + 1 - a <= 2 * MAX_LEVEL
    ensures RejectAt(pc, now, a, b).Some? && BottomUpWanted(RejectAt(pc, now, a, b).value, now, a, b)
  {
    RejectKeepsInv(pc, now, a, b);
    ShapeOf(pc, a, b);
    var next := RejectAt(pc, now, a, b).value;
    var x := Change(Rejected, At(pc, a, b).value.hasHash, Calculated);
    EffectOutside(pc, next, a, b, x, a, b);
    EffectOutside(pc, next, a, b, x, a, Split(a, b) - 1);
    EffectOutside(pc, next, a, b, x, Split(a, b), b);
    ActiveIsActiveAt(next, now, a, b);
  }

  /**
    One way to such a pair: when a merge is wanted and a half of one of its halves is rejected, the planner
    wants both that proof again and the merge around it.
  */
  lemma OverlapAfterRejection(pc: ProofCalculation, now: nat, a: nat, b: nat, c: nat, d: nat, e: nat, f: nat)
    requires Inv(pc) && BottomUpWanted(pc, now, a, b) && IsHalf(a, b, c, d) && IsHalf(c, d, e, f) && e < f
    requires pc.endSequence.None? && At(pc, e, f).Some?
    ensures RejectAt(pc, now, e, f).Some?
    ensures BottomUpWanted(RejectAt(pc, now, e, f).value, now, a, b)
    ensures BottomUpWanted(RejectAt(pc, now, e, f).value, now, e, f)
    ensures a <= e && f <= b && !Disjoint(a, b, e, f)
  {
    RejectedWantedAgain(pc, now, e, f);
    RejectOutside(pc, now, e, f, a, b);
    RejectOutside(pc, now, e, f, a, Split(a, b) - 1);
    RejectOutside(pc, now, e, f, Split(a, b), b);
    RejectAny(pc, now, e, f);
    ActiveIsActiveAt(pc, now, a, b);
    ActiveIsActiveAt(RejectAt(pc, now, e, f).value, now, a, b);
  }

  lemma RejectedPairOverlaps(pc: ProofCalculation, now: nat, a: nat, b: nat, c: nat, d: nat, e: nat, f: nat)
    requires Inv(pc) && BottomUpWanted(pc, now, a, b) && IsHalf(a, b, c, d) && IsHalf(c, d, e, f) && e < f
    requires pc.endSequence.None? && At(pc, e, f).Some?
    ensures RejectAt(pc, now, e, f).Some? && RejectAt(pc, now, e, f).value.endSequence.None?
    ensures StartsInBlock(RejectAt(pc, now, e, f).value) && !ListDisjoint(RejectAt(pc, now, e, f).value, now)
  {
    RejectKeepsInv(pc, now, e, f);
    OverlapAfterRejection(pc, now, a, b, c, d, e, f);
    var next := RejectAt(pc, now, e, f).value;
    EffectOutside(pc, next, e, f, Change(Rejected, At(pc, e, f).value.hasHash, Calculated), e, f);
    ActiveIsActiveAt(next, now, a, b);
    InvIsWellFormed(next);
    OverlapBreaksList(next, now, a, b, e, f);
  }

  // ---- a run that ends in an overlap ----

  /** Every merge of the run is requested while the planner lists it. */
  ghost predicate AllListed(w: World, acts: seq<Action>)
    decreases |acts|
  {
    acts != [] ==>
      (acts[0].MergeRequested? ==> Planned(w.pc, w.now, acts[0].a, acts[0].b)) && AllListed(Next(w, acts[0]), acts[1..])
  }

  ghost predicate Leads(w: World, acts: seq<Action>, v: World) {
    Runs(w, acts) && AllListed(w, acts) && After(w, acts) == v
  }

  lemma LeadsOne(w: World, act: Action)
    requires Enabled(w, act) && (act.MergeRequested? ==> Planned(w.pc, w.now, act.a, act.b))
    ensures Leads(w, [act], Next(w, act))
  {
    assert [act][1..] == [];
  }

  lemma {:induction false} LeadsConcat(w: World, x: seq<Action>, v: World, y: seq<Action>, u: World)
    requires Leads(w, x, v) && Leads(v, y, u)
    ensures Leads(w, x + y, u)
    decreases |x|
  {
    if x == [] {
      assert x + y == y;
    } else {
      assert (x + y)[1..] == x[1..] + y;
      LeadsConcat(Next(w, x[0]), x[1..], v, y, u);
    }
  }

  /** Calculated, with its hash. */
  predicate Ready(pc: ProofCalculation, a: nat, b: nat) {
    StatusAt(pc, a, b, Calculated) && At(pc, a, b).value.hasHash
  }

  predicate SameAt(pc: ProofCalculation, next: ProofCalculation, a: nat, b: nat, c: nat, d: nat) {
    c <= d && !(a <= c && d <= b) ==> At(next, c, d) == At(pc, c, d)
  }

  /** From `w` to `v` the range `a..b` was merged and nothing changed that reaches outside it. */
  ghost predicate Built(w: World, v: World, a: nat, b: nat) {
    && v.pc.startSequence == w.pc.startSequence && v.pc.endSequence == w.pc.endSequence == None
    && v.now == w.now && v.rejections == w.rejections
    && Ready(v.pc, a, b)
    && (forall c: nat, d: nat :: SameAt(w.pc, v.pc, a, b, c, d))
  }

  lemma BuildSingle(w: World, i: nat) returns (acts: seq<Action>, v: World)
    requires RunInv(w) && w.pc.endSequence.None? && w.pc.startSequence <= i
    ensures Leads(w, acts, v) && RunInv(v) && Built(w, v, i, i)
  {
    acts, v := [SingleProved(i)], Next(w, SingleProved(i));
    LeadsOne(w, SingleProved(i));
    StepKeeps(w, SingleProved(i));
    SingleKeepsInv(w.pc, w.now, i);
    forall c: nat, d: nat
      ensures SameAt(w.pc, v.pc, i, i, c, d)
    {
      SingleOutside(w.pc, v.pc, i, Proof(Range(i, i), Calculated, w.now, None, None, true), c, d);
    }
    SingleOutside(w.pc, v.pc, i, Proof(Range(i, i), Calculated, w.now, None, None, true), i, i);
  }

  /** An absent chunk with calculated halves is listed and accepted. */
  lemma ChunkIsPlanned(pc: ProofCalculation, now: nat, a: nat, b: nat)
    requires Inv(pc) && pc.endSequence.None? && a < b < U64_LIMIT && b + 1 - a <= 2 * MAX_LEVEL
    requires Chunk(pc.startSequence, a, b) && At(pc, a, b).None?
    requires Ready(pc, a, Split(a, b) - 1) && Ready(pc, Split(a, b), b)
    ensures Planned(pc, now, a, b) && StartMerge(pc, now, a, b).Some?
  {
    ActiveIsActiveAt(pc, now, a, b);
    InvIsWellFormed(pc);
    BottomUpExact(pc, now, Request(a, b, false));
    BottomUpRequestQueued(pc, now, a, b);
    assert Lists(pc, now, a, b, false);
    ProposedAcceptedIff(pc, now, a, b);
  }

  lemma BuildStart(w: World, a: nat, b: nat) returns (v: World)
    requires RunInv(w) && w.pc.endSequence.None? && a < b < U64_LIMIT && b + 1 - a <= 2 * MAX_LEVEL
    requires Chunk(w.pc.startSequence, a, b) && At(w.pc, a, b).None?
    requires Ready(w.pc, a, Split(a, b) - 1) && Ready(w.pc, Split(a, b), b)
    ensures Leads(w, [MergeRequested(a, b)], v) && RunInv(v)
    ensures Legal(w.pc, v.pc, a, b, Change(Started, false, Reserved)) && HalvesHashed(w.pc, a, b)
    ensures v.now == w.now && v.rejections == w.rejections
  {
    v := Next(w, MergeRequested(a, b));
    ChunkIsPlanned(w.pc, w.now, a, b);
    LeadsOne(w, MergeRequested(a, b));
    StepKeeps(w, MergeRequested(a, b));
    StartKeepsInv(w.pc, w.now, a, b);
  }

  lemma BuildResult(w: World, a: nat, b: nat) returns (v: World)
    requires RunInv(w) && a < b && At(w.pc, a, b).Some? && HalvesUsable(w.pc, a, b)
    ensures Leads(w, [MergeProved(a, b)], v) && RunInv(v)
    ensures Legal(w.pc, v.pc, a, b, Change(Calculated, true, Used))
    ensures v.now == w.now && v.starts == w.starts && v.rejections == w.rejections && v.restarts == w.restarts
  {
    v := Next(w, MergeProved(a, b));
    LeadsOne(w, MergeProved(a, b));
    StepKeeps(w, MergeProved(a, b));
    SubmitKeepsInv(w.pc, w.now, a, b);
  }

  lemma LegalSameAt(pc: ProofCalculation, next: ProofCalculation, a: nat, b: nat, x: Change, c: nat, d: nat)
    requires Legal(pc, next, a, b, x)
    ensures SameAt(pc, next, a, b, c, d)
  {
    if c <= d {
      EffectOutside(pc, next, a, b, x, c, d);
    }
  }

  lemma StartedUsable(pc: ProofCalculation, next: ProofCalculation, a: nat, b: nat)
    requires Legal(pc, next, a, b, Change(Started, false, Reserved)) && HalvesHashed(pc, a, b)
    ensures At(next, a, b).Some? && HalvesUsable(next, a, b)
  {
    EffectOutside(pc, next, a, b, Change(Started, false, Reserved), a, b);
    EffectOutside(pc, next, a, b, Change(Started, false, Reserved), a, Split(a, b) - 1);
    EffectOutside(pc, next, a, b, Change(Started, false, Reserved), Split(a, b), b);
  }

  lemma BuildMerge(w: World, a: nat, b: nat) returns (acts: seq<Action>, v: World)
    requires RunInv(w) && w.pc.endSequence.None? && a < b < U64_LIMIT && b + 1 - a <= 2 * MAX_LEVEL
    requires Chunk(w.pc.startSequence, a, b) && At(w.pc, a, b).None?
    requires Ready(w.pc, a, Split(a, b) - 1) && Ready(w.pc, Split(a, b), b)
    ensures Leads(w, acts, v) && RunInv(v) && Built(w, v, a, b)
  {
    var u := BuildStart(w, a, b);
    StartedUsable(w.pc, u.pc, a, b);
    v := BuildResult(u, a, b);
    acts := [MergeRequested(a, b)] + [MergeProved(a, b)];
    LeadsConcat(w, [MergeRequested(a, b)], u, [MergeProved(a, b)], v);
    EffectOutside(u.pc, v.pc, a, b, Change(Calculated, true, Used), a, b);
    forall c: nat, d: nat
      ensures SameAt(w.pc, v.pc, a, b, c, d)
    {
      LegalSameAt(w.pc, u.pc, a, b, Change(Started, false, Reserved), c, d);
      LegalSameAt(u.pc, v.pc, a, b, Change(Calculated, true, Used), c, d);
    }
  }

  /** Nothing is stored inside `a..b`. */
  predicate Vacant(pc: ProofCalculation, a: nat, b: nat) {
    forall c: nat, d: nat :: a <= c <= d <= b ==> At(pc, c, d).None?
  }

  lemma HalfAligned(x: nat, l: nat)
    requires l > 0 && x % (2 * l) == 0
    ensures x % l == 0 && (x + l) % l == 0
  {
    var q := x / (2 * l);
    assert x == (2 * q) * l;
    MultipleOf(l, 2 * q);
    MultipleOf(l, 2 * q + 1);
    assert x + l == (2 * q + 1) * l;
  }

  lemma HalvesAligned(first: nat, a: nat, k: nat)
    requires k > 0 && first <= a && (a - first) % Pow2(k) == 0
    ensures
      var l := Pow2(k - 1);
      && Pow2(k) == 2 * l && (a - first) % l == 0 && (a + l - first) % l == 0
      && Chunk(first, a, a + Pow2(k) - 1) && Split(a, a + Pow2(k) - 1) == a + l
  {
    HalfAligned(a - first, Pow2(k - 1));
    PairedChunk(first, a, k - 1);
  }

  /** Both halves of a range built one after the other, and then the range itself. */
  lemma BuildHalves(w: World, u: World, v: World, a: nat, m: nat, b: nat)
    requires a < m <= b && Built(w, u, a, m - 1) && Built(u, v, m, b) && Vacant(w.pc, a, b)
    ensures Ready(v.pc, a, m - 1) && Ready(v.pc, m, b) && At(v.pc, a, b).None?
    ensures forall c: nat, d: nat :: SameAt(w.pc, v.pc, a, b, c, d)
  {
    assert SameAt(u.pc, v.pc, m, b, a, m - 1);
    assert SameAt(w.pc, u.pc, a, m - 1, a, b) && SameAt(u.pc, v.pc, m, b, a, b);
    forall c: nat, d: nat
      ensures SameAt(w.pc, v.pc, a, b, c, d)
    {
      assert SameAt(w.pc, u.pc, a, m - 1, c, d) && SameAt(u.pc, v.pc, m, b, c, d);
    }
  }

  lemma JoinHalves(w: World, x: seq<Action>, u: World, t: World, a: nat, b: nat) returns (acts: seq<Action>, v: World)
    requires RunInv(t) && w.pc.endSequence.None? && a < b < U64_LIMIT && b + 1 - a <= 2 * MAX_LEVEL
    requires Chunk(w.pc.startSequence, a, b) && Vacant(w.pc, a, b)
    requires Leads(w, x, t) && Built(w, u, a, Split(a, b) - 1) && Built(u, t, Split(a, b), b)
    ensures Leads(w, acts, v) && RunInv(v) && Built(w, v, a, b)
  {
    BuildHalves(w, u, t, a, Split(a, b), b);
    var y, s := BuildMerge(t, a, b);
    LeadsConcat(w, x, t, y, s);
    acts, v := x + y, s;
    BuiltOn(w, t, v, a, b);
  }

  lemma VacantStays(w: World, u: World, a: nat, m: nat, b: nat)
    requires a < m <= b && Built(w, u, a, m - 1) && Vacant(w.pc, a, b)
    ensures Vacant(u.pc, m, b)
  {
    forall c: nat, d: nat | m <= c <= d <= b
      ensures At(u.pc, c, d).None?
    {
      assert SameAt(w.pc, u.pc, a, m - 1, c, d);
    }
  }

  /** The 2^k sequences from `a` on are an aligned range of which nothing is stored. */
  ghost predicate Buildable(w: World, a: nat, k: nat) {
    && RunInv(w) && w.pc.endSequence.None? && w.pc.startSequence <= a
    && (a - w.pc.startSequence) % Pow2(k) == 0 && Pow2(k) <= 2 * MAX_LEVEL && a + Pow2(k) <= U64_LIMIT
    && Vacant(w.pc, a, a + Pow2(k) - 1)
  }

  lemma LeftBuildable(w: World, a: nat, k: nat)
    requires k > 0 && Buildable(w, a, k)
    ensures Buildable(w, a, k - 1)
  {
    HalvesAligned(w.pc.startSequence, a, k);
  }

  lemma RightBuildable(w: World, u: World, a: nat, k: nat)
    requires k > 0 && Buildable(w, a, k) && RunInv(u) && Built(w, u, a, a + Pow2(k - 1) - 1)
    ensures Buildable(u, a + Pow2(k - 1), k - 1)
  {
    HalvesAligned(w.pc.startSequence, a, k);
    VacantStays(w, u, a, a + Pow2(k - 1), a + Pow2(k) - 1);
  }

  lemma JoinChunk(w: World, x: seq<Action>, u: World, t: World, a: nat, k: nat) returns (acts: seq<Action>, v: World)
    requires k > 0 && Buildable(w, a, k) && Leads(w, x, t) && RunInv(t)
    requires Built(w, u, a, a + Pow2(k - 1) - 1) && Built(u, t, a + Pow2(k - 1), a + Pow2(k - 1) + Pow2(k - 1) - 1)
    ensures Leads(w, acts, v) && RunInv(v) && Built(w, v, a, a + Pow2(k) - 1)
  {
    HalvesAligned(w.pc.startSequence, a, k);
    acts, v := JoinHalves(w, x, u, t, a, a + Pow2(k) - 1);
  }

  /** A run that proves the singles of such a range and merges it all the way up. */
  lemma {:induction false} BuildChunk(w: World, a: nat, k: nat) returns (acts: seq<Action>, v: World)
    requires Buildable(w, a, k)
    ensures Leads(w, acts, v) && RunInv(v) && Built(w, v, a, a + Pow2(k) - 1)
    decreases k
  {
    if k == 0 {
      acts, v := BuildSingle(w, a);
    } else {
      LeftBuildable(w, a, k);
      var x, u := BuildChunk(w, a, k - 1);
      RightBuildable(w, u, a, k);
      var y, t := BuildChunk(u, a + Pow2(k - 1), k - 1);
      LeadsConcat(w, x, u, y, t);
      acts, v := JoinChunk(w, x + y, u, t, a, k);
    }
  }

  lemma BuiltOn(w: World, t: World, v: World, a: nat, b: nat)
    requires t.pc.startSequence == w.pc.startSequence && t.pc.endSequence == w.pc.endSequence == None
    requires t.now == w.now && t.rejections == w.rejections && Built(t, v, a, b)
    requires forall c: nat, d: nat :: SameAt(w.pc, t.pc, a, b, c, d)
    ensures Built(w, v, a, b)
  {
    forall c: nat, d: nat
      ensures SameAt(w.pc, v.pc, a, b, c, d)
    {
      assert SameAt(w.pc, t.pc, a, b, c, d) && SameAt(t.pc, v.pc, a, b, c, d);
    }
  }

  /** Two neighbouring chunks of four, merged separately. */
  lemma BuildEight(w: World) returns (acts: seq<Action>, v: World)
    requires RunInv(w) && w.pc.endSequence.None? && w.pc.startSequence + 8 <= U64_LIMIT
    requires Vacant(w.pc, w.pc.startSequence, w.pc.startSequence + 7)
    ensures Leads(w, acts, v) && RunInv(v) && v.rejections == w.rejections
    ensures
      var a := w.pc.startSequence;
      && v.pc.startSequence == a && v.pc.endSequence.None? && At(v.pc, a, a + 7).None?
      && Ready(v.pc, a, a + 3) && Ready(v.pc, a + 4, a + 7)
  {
    var a := w.pc.startSequence;
    assert Pow2(1) == 2 && Pow2(2) == 4 && Pow2(3) == 8;
    LeftBuildable(w, a, 3);
    var x, u := BuildChunk(w, a, 2);
    RightBuildable(w, u, a, 3);
    var y, t := BuildChunk(u, a + 4, 2);
    LeadsConcat(w, x, u, y, t);
    BuildHalves(w, u, t, a, a + 4, a + 7);
    acts, v := x + y, t;
  }

  /** Eight sequences in a row are wanted when both fours are merged, and a pair of them is stored. */
  lemma EightWanted(pc: ProofCalculation, now: nat)
    requires Inv(pc) && pc.endSequence.None?
    requires
      var a := pc.startSequence;
      At(pc, a, a + 7).None? && Ready(pc, a, a + 3) && Ready(pc, a + 4, a + 7)
    ensures
      var a := pc.startSequence;
      && BottomUpWanted(pc, now, a, a + 7) && At(pc, a, a + 1).Some?
      && IsHalf(a, a + 7, a, a + 3) && IsHalf(a, a + 3, a, a + 1)
  {
    var a := pc.startSequence;
    assert Pow2(1) == 2 && Pow2(2) == 4 && Pow2(3) == 8;
    PairedChunk(a, a, 2);
    PairedChunk(a, a, 1);
    assert HalvesKept(pc, a, a + 3);
    ActiveIsActiveAt(pc, now, a, a + 7);
  }

  /**
    A run of a new block, with nothing but listed merges and one rejection, after which the list covers
    sequences twice: the first four and the next four sequences are merged, then the merge of the first two
    is rejected.
  */
  lemma OverlapHappens(w: World) returns (acts: seq<Action>)
    requires Initial(w) && w.pc.startSequence + 8 <= U64_LIMIT
    ensures Runs(w, acts) && AllListed(w, acts)
    ensures
      var v := After(w, acts);
      && v.rejections == 1 && v.pc.endSequence.None?
      && StartsInBlock(v.pc) && !ListDisjoint(v.pc, v.now)
  {
    InitialInv(w);
    var x, u := BuildEight(w);
    var a := w.pc.startSequence;
    EightWanted(u.pc, u.now);
    var reject := ProofRejected(a, a + 1);
    LeadsOne(u, reject);
    LeadsConcat(w, x, u, [reject], Next(u, reject));
    acts := x + [reject];
    RejectedPairOverlaps(u.pc, u.now, a, a + 7, a, a + 3, a, a + 1);
  }
}
