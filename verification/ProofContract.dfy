/**
  The proof map of a block on chain (move/coordination/sources/prover.move, lines 218-257 and 324-828):
  starting, submitting and rejecting a proof, and fixing the end of the block. `None` stands for a call
  that returns false or aborts; either way the map is unchanged. Sequences are passed already sorted.
*/
module ProofContract {
  import opened Wrappers
  import opened Proofs

  /** Not empty and inside the block as far as its end is known. */
  predicate Valid(pc: ProofCalculation, sequences: seq<nat>) {
    && sequences != []
    && pc.startSequence <= sequences[0]
    && (pc.endSequence.Some? ==> sequences[|sequences| - 1] <= pc.endSequence.value)
  }

  predicate ValidOption(pc: ProofCalculation, sequences: Option<seq<nat>>) {
    sequences.Some? ==> Valid(pc, sequences.value)
  }

  /** The sequences run from the block's first to its known last. */
  predicate CoversBlock(pc: ProofCalculation, sequences: seq<nat>) {
    && pc.endSequence.Some?
    && sequences != []
    && sequences[0] == pc.startSequence
    && sequences[|sequences| - 1] == pc.endSequence.value
  }

  /** Gives a stored proof back to the pool; does nothing for one that is not stored. */
  function ReturnProof(proofs: seq<Proof>, sequences: Option<seq<nat>>, now: nat): seq<Proof> {
    if sequences.None? then proofs
    else
      var p := Find(proofs, sequences.value);
      if p.None? then proofs else Put(proofs, p.value.(status := Calculated, timestamp := now))
  }

  predicate Reservable(p: Proof, blockProof: bool, now: nat) {
    || p.status == Calculated
    || p.TimedOut(now)
    || (blockProof && (p.status == Used || p.status == Reserved))
  }

  predicate CanReserve(proofs: seq<Proof>, sequences: Option<seq<nat>>, blockProof: bool, now: nat) {
    sequences.Some? ==>
      var p := Find(proofs, sequences.value);
      p.Some? && Reservable(p.value, blockProof, now)
  }

  /** Reserves a half; one that cannot be reserved is left as it is, one that is missing or has no hash aborts. */
  function ReserveProof(proofs: seq<Proof>, sequences: Option<seq<nat>>, blockProof: bool, now: nat):
    Option<seq<Proof>>
  {
    if sequences.None? then Some(proofs)
    else
      var p := Find(proofs, sequences.value);
      if p.None? || !p.value.hasHash then None
      else if Reservable(p.value, blockProof, now) then
        Some(Put(proofs, p.value.(status := Reserved, timestamp := now)))
      else Some(proofs)
  }

  function StartProving(pc: ProofCalculation, sequences: seq<nat>, sequence1: Option<seq<nat>>,
      sequence2: Option<seq<nat>>, now: nat): Option<ProofCalculation>
  {
    if !Valid(pc, sequences) || !ValidOption(pc, sequence1) || !ValidOption(pc, sequence2) then None
    else
      var blockProof := CoversBlock(pc, sequences);
      var started := Proof(sequences, Started, now, sequence1, sequence2, false);
      var existing := Find(pc.proofs, sequences);
      if existing.Some? && existing.value.status != Rejected && !existing.value.TimedOut(now) then None
      else if existing.None? && !(CanReserve(pc.proofs, sequence1, blockProof, now)
                                  && CanReserve(pc.proofs, sequence2, blockProof, now)) then None
      else
        var stored := Put(pc.proofs, started);
        var returned :=
          if existing.None? then stored
          else ReturnProof(ReturnProof(stored, existing.value.sequence1, now), existing.value.sequence2, now);
        var one := ReserveProof(returned, sequence1, blockProof, now);
        if one.None? then None
        else
          var two := ReserveProof(one.value, sequence2, blockProof, now);
          if two.None? then None else Some(pc.(proofs := two.value))
  }

  /** Marks a half as used; one that is missing, rejected, unfinished or has no hash aborts. */
  function UseProof(proofs: seq<Proof>, sequences: Option<seq<nat>>, now: nat): Option<seq<Proof>> {
    if sequences.None? then Some(proofs)
    else
      var p := Find(proofs, sequences.value);
      if p.None? || !p.value.Usable() then None
      else Some(Put(proofs, p.value.(status := Used, timestamp := now)))
  }

  function SubmitProof(pc: ProofCalculation, sequences: seq<nat>, sequence1: Option<seq<nat>>,
      sequence2: Option<seq<nat>>, now: nat): Option<ProofCalculation>
  {
    if !Valid(pc, sequences) || !ValidOption(pc, sequence1) || !ValidOption(pc, sequence2) then None
    else
      var submitted := Proof(sequences, Calculated, now, sequence1, sequence2, true);
      var one := UseProof(Put(pc.proofs, submitted), sequence1, now);
      if one.None? then None
      else
        var two := UseProof(one.value, sequence2, now);
        if two.None? then None
        else Some(pc.(proofs := two.value, isFinished := pc.isFinished || CoversBlock(pc, sequences)))
  }

  /** Whether the halves recorded in a proof are stored. */
  predicate HasHalf(proofs: seq<Proof>, sequences: Option<seq<nat>>) {
    sequences.Some? ==> Find(proofs, sequences.value).Some?
  }

  function RejectProof(pc: ProofCalculation, sequences: seq<nat>, now: nat): Option<ProofCalculation> {
    if !Valid(pc, sequences) then None
    else
      var p := Find(pc.proofs, sequences);
      if p.None? || !HasHalf(pc.proofs, p.value.sequence1) || !HasHalf(pc.proofs, p.value.sequence2) then None
      else
        var rejected := Put(pc.proofs, p.value.(status := Rejected));
        Some(pc.(proofs := ReturnProof(ReturnProof(rejected, p.value.sequence1, now), p.value.sequence2, now)))
  }

  /** Fixes the end of the block; a calculated proof of the whole block is used at once. */
  function SetEndSequence(pc: ProofCalculation, last: nat, now: nat): ProofCalculation {
    var p := Find(pc.proofs, Range(pc.startSequence, last));
    if p.Some? && p.value.status == Calculated && p.value.hasHash then
      pc.(endSequence := Some(last),
          proofs := Put(pc.proofs, p.value.(status := Used, timestamp := now)),
          isFinished := true)
    else pc.(endSequence := Some(last))
  }

  /** Every sequence of the range lies in the block as far as its end is known. */
  predicate InBlock(pc: ProofCalculation, sequences: seq<nat>) {
    && 0 < |sequences| && sequences[0] >= pc.startSequence
    && (pc.endSequence.Some? ==> sequences[|sequences| - 1] <= pc.endSequence.value)
  }

  /** No call is accepted for a range that is empty or reaches out of the block. */
  lemma OutsideIsRefused(pc: ProofCalculation, sequences: seq<nat>, sequence1: Option<seq<nat>>,
      sequence2: Option<seq<nat>>, now: nat)
    requires !InBlock(pc, sequences) || (sequence1.Some? && !InBlock(pc, sequence1.value))
             || (sequence2.Some? && !InBlock(pc, sequence2.value))
    ensures StartProving(pc, sequences, sequence1, sequence2, now) == None
    ensures SubmitProof(pc, sequences, sequence1, sequence2, now) == None
    ensures !InBlock(pc, sequences) ==> RejectProof(pc, sequences, now) == None
  {
  }

  /** Nor is a rejection accepted for a proof that is not stored, or that records a half that is not stored. */
  lemma RejectNeedsStored(pc: ProofCalculation, sequences: seq<nat>, now: nat)
    ensures RejectProof(pc, sequences, now).Some? ==> exists p :: p in pc.proofs && p.sequences == sequences
    ensures forall h :: RejectProof(pc, sequences, now).Some? && RecordsHalf(pc, sequences, h) ==>
              exists p :: p in pc.proofs && p.sequences == h
  {
    FindStored(pc.proofs, sequences);
    forall h | RejectProof(pc, sequences, now).Some? && RecordsHalf(pc, sequences, h)
      ensures exists p :: p in pc.proofs && p.sequences == h
    {
      FindStored(pc.proofs, h);
    }
  }

  predicate RecordsHalf(pc: ProofCalculation, sequences: seq<nat>, half: seq<nat>) {
    var p := Find(pc.proofs, sequences);
    p.Some? && (p.value.sequence1 == Some(half) || p.value.sequence2 == Some(half))
  }
}
