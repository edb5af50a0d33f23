/**
  The checks a planned merge has to pass before it is queued for the contract
  (crates/coordinator/src/merge.rs, lines 1006-1071, 1136-1155 and 1209-1313), and which planned merges
  pass them. The scan of pending jobs and every fetch are left out; both snapshots are inputs.
*/
module MergeJob {
  import opened Wrappers
  import opened PowersOfTwo
  import opened SplitTree
  import opened Proofs
  import opened TopDownPlanner
  import opened BottomUpPlanner

  datatype JobError = CombinedStarted | CombinedExists(status: ProofStatus) | NotReservable

  datatype JobResult = Queued(sequences: seq<nat>, blockProof: bool) | Refused(error: JobError)

  // ---- sorting the combined sequences ----

  function InsertSorted(x: nat, s: seq<nat>): seq<nat> {
    if s == [] || x <= s[0] then [x] + s else [s[0]] + InsertSorted(x, s[1..])
  }

  function Sort(s: seq<nat>): seq<nat> {
    if s == [] then [] else InsertSorted(s[0], Sort(s[1..]))
  }

  predicate Ascending(s: seq<nat>) {
    forall i, j :: 0 <= i < j < |s| ==> s[i] <= s[j]
  }

  lemma {:induction false} SortOfAscending(s: seq<nat>)
    requires Ascending(s)
    ensures Sort(s) == s
  {
    if s != [] {
      SortOfAscending(s[1..]);
    }
  }

  // ---- the checks ----

  /** The source's `end.unwrap_or(0) - start + 1` in wrapping 64-bit arithmetic. */
  function BlockLength(pc: ProofCalculation): nat {
    ((if pc.endSequence.Some? then pc.endSequence.value else 0) - pc.startSequence + 1) % U64_LIMIT
  }

  predicate ReservableFor(p: Proof, blockProof: bool, now: nat) {
    if blockProof then p.status == Calculated || p.status == Used || p.status == Reserved
    else
      || p.status == Calculated
      || (p.status == Reserved && p.TimedOut(now))
      || (p.status == Used && p.TimedOut(now))
  }

  /** Whether the first look, at the snapshot the plan was made from, ends the attempt. */
  predicate ActiveStarted(pc: ProofCalculation, sequences: seq<nat>, now: nat) {
    var p := Find(pc.proofs, sequences);
    p.Some? && p.value.status == Started && !(now > p.value.timestamp + PROOF_TIMEOUT_MS)
  }

  function CreateMergeJob(snapshot: ProofCalculation, current: ProofCalculation, r: MergeRequest, now: nat): JobResult {
    var combined := Sort(r.sequences1 + r.sequences2);
    if ActiveStarted(snapshot, combined, now) then Refused(CombinedStarted)
    else
      var existing := Find(current.proofs, combined);
      if existing.Some? && existing.value.status != Rejected then Refused(CombinedExists(existing.value.status))
      else
        var blockProof := |combined| == BlockLength(current);
        var proof1, proof2 := Find(current.proofs, r.sequences1), Find(current.proofs, r.sequences2);
        if proof1.Some? && proof2.Some?
           && ReservableFor(proof1.value, blockProof, now) && ReservableFor(proof2.value, blockProof, now)
        then Queued(combined, blockProof)
        else Refused(NotReservable)
  }

  lemma CombinedIsRange(a: nat, b: nat, blockProof: bool)
    requires a < b
    ensures
      var r := Request(a, b, blockProof);
      Sort(r.sequences1 + r.sequences2) == Range(a, b)
  {
    RangeConcat(a, Split(a, b), b);
    SortOfAscending(Range(a, b));
  }

  lemma AvailableIsReservable(p: Proof, blockProof: bool, now: nat)
    requires p.Available(now)
    ensures ReservableFor(p, blockProof, now)
  {
  }

  /** An absent merge with free halves passes; only the flag depends on the block. */
  lemma FreeRequestQueued(pc: ProofCalculation, now: nat, a: nat, b: nat, block: bool)
    requires a < b && Find(pc.proofs, Range(a, b)).None? && HalvesAvailable(pc, now, a, b)
    ensures CreateMergeJob(pc, pc, Request(a, b, block), now) == Queued(Range(a, b), b + 1 - a == BlockLength(pc))
  {
    CombinedIsRange(a, b, block);
    var blockProof := b + 1 - a == BlockLength(pc);
    AvailableIsReservable(Find(pc.proofs, Range(a, Split(a, b) - 1)).value, blockProof, now);
    AvailableIsReservable(Find(pc.proofs, Range(Split(a, b), b)).value, blockProof, now);
  }

  /** With a known end only the whole block is as long as the wrapped block length, which 2^64 sequences are not. */
  lemma KnownEndLength(pc: ProofCalculation, a: nat, b: nat)
    requires pc.endSequence.Some? && pc.startSequence <= a <= b <= pc.endSequence.value < U64_LIMIT
    ensures b + 1 - a == BlockLength(pc)
       <==> a == pc.startSequence && b == pc.endSequence.value && b + 1 - a < U64_LIMIT
  {
    var n := pc.endSequence.value + 1 - pc.startSequence;
    assert n % U64_LIMIT == if n < U64_LIMIT then n else 0;
  }

  /**
    On one snapshot and clock every known-end request passes all checks and is queued with exactly its own
    range. The flag recomputed from the wrapped lengths is the flag the planner gave it, unless the block
    has all 2^64 sequences.
  */
  lemma TopDownRequestQueued(pc: ProofCalculation, now: nat, a: nat, b: nat)
    requires pc.endSequence.Some?
    requires Wanted(pc, now, pc.startSequence, pc.endSequence.value, a, b)
    ensures
      var block := a == pc.startSequence && b == pc.endSequence.value;
      var job := CreateMergeJob(pc, pc, Request(a, b, block), now);
      && job.Queued? && job.sequences == Range(a, b)
      && (pc.endSequence.value < U64_LIMIT ==> job.blockProof == (block && b + 1 - a < U64_LIMIT))
  {
    var first, last := pc.startSequence, pc.endSequence.value;
    NodeBounds(first, last, a, b);
    assert Node(a, b, a, b);
    FreeRequestQueued(pc, now, a, b, a == first && b == last);
    if last < U64_LIMIT {
      KnownEndLength(pc, a, b);
    }
  }

  /**
    An unknown-end request passes the checks unless its combined proof is stored as Started. Such a proof
    has timed out, or the planner would count it as active: the planner keeps proposing the merge and the
    second look keeps refusing it.
  */
  lemma BottomUpRequestQueued(pc: ProofCalculation, now: nat, a: nat, b: nat)
    requires pc.endSequence.None? && b < U64_LIMIT
    requires BottomUpWanted(pc, now, a, b)
    ensures
      var existing := Find(pc.proofs, Range(a, b));
      CreateMergeJob(pc, pc, Request(a, b, false), now)
      == if existing.Some? && existing.value.status == Started then Refused(CombinedExists(Started))
         else Queued(Range(a, b), false)
  {
    CombinedIsRange(a, b, false);
    var existing := Find(pc.proofs, Range(a, b));
    if existing.Some? {
      FindStored(pc.proofs, Range(a, b));
      AnyActiveIff(pc.proofs, Range(a, b), now);
      assert !existing.value.ActiveOrCompleted(now);
    }
    UnknownEndIsNoBlock(pc, b + 1 - a);
    AvailableIsReservable(Find(pc.proofs, Range(a, Split(a, b) - 1)).value, false, now);
    AvailableIsReservable(Find(pc.proofs, Range(Split(a, b), b)).value, false, now);
  }

  /** With an unknown end the wrapped block length is no length of two or more sequences of the block. */
  lemma UnknownEndIsNoBlock(pc: ProofCalculation, n: nat)
    requires pc.endSequence.None? && n >= 2 && pc.startSequence + n <= U64_LIMIT
    ensures n != BlockLength(pc)
  {
    var d := 1 - pc.startSequence;
    if d < 0 {
      assert d % U64_LIMIT == d + U64_LIMIT;
    }
  }
}
