/**
  Proofs and proof calculations (crates/sui/src/fetch/prover.rs, lines 22-82), and the two availability
  rules of the merge planner. Time is in milliseconds and always a parameter.
*/
module Proofs {
  import opened Wrappers

  /** Five minutes. */
  const PROOF_TIMEOUT_MS: nat := 5 * 60 * 1000

  datatype ProofStatus = Started | Calculated | Rejected | Reserved | Used

  /** `hasHash` tells whether a proof was ever submitted: the contract keeps the hash of its data. */
  datatype Proof = Proof(
    sequences: seq<nat>,
    status: ProofStatus,
    timestamp: nat,
    sequence1: Option<seq<nat>>,
    sequence2: Option<seq<nat>>,
    hasHash: bool)
  {
    predicate TimedOut(now: nat) {
      now > timestamp + PROOF_TIMEOUT_MS
    }

    /** Free to become half of a merge. */
    predicate Available(now: nat) {
      match status
      case Calculated => true
      case Reserved => TimedOut(now)
      case Started => false
      case Used => TimedOut(now)
      case Rejected => false
    }

    /** Counts as an existing proof when a merge is looked for. */
    predicate ActiveOrCompleted(now: nat) {
      match status
      case Calculated => true
      case Used => true
      case Reserved => true
      case Started => !TimedOut(now)
      case Rejected => false
    }

    predicate Done() {
      status == Calculated || status == Reserved || status == Used
    }

    /** The contract takes it as half of a submitted merge. */
    predicate Usable() {
      Done() && hasHash
    }
  }

  datatype ProofCalculation = ProofCalculation(
    startSequence: nat,
    endSequence: Option<nat>,
    proofs: seq<Proof>,
    isFinished: bool)

  /** The sequences `a..=b` as a vector; empty when `a > b`. */
  function Range(a: nat, b: nat): (s: seq<nat>)
    ensures |s| == if a <= b then b + 1 - a else 0
    ensures forall i :: 0 <= i < |s| ==> s[i] == a + i
  {
    seq(if a <= b then b + 1 - a else 0, i requires i >= 0 => a + i)
  }

  lemma RangeInjective(a: nat, b: nat, c: nat, d: nat)
    requires a <= b && Range(a, b) == Range(c, d)
    ensures a == c && b == d
  {
    assert Range(a, b)[0] == a;
    assert Range(c, d)[0] == c;
  }

  lemma RangeConcat(a: nat, m: nat, b: nat)
    requires a < m <= b
    ensures Range(a, m - 1) + Range(m, b) == Range(a, b)
  {
  }

  /** The first proof with exactly these sequences. */
  function Find(proofs: seq<Proof>, sequences: seq<nat>): (r: Option<Proof>)
    ensures r.Some? ==> r.value.sequences == sequences
  {
    if proofs == [] then None
    else if proofs[0].sequences == sequences then Some(proofs[0])
    else Find(proofs[1..], sequences)
  }

  /** A found proof is stored, and nothing is found exactly when no stored proof matches. */
  lemma {:induction false} FindStored(proofs: seq<Proof>, sequences: seq<nat>)
    ensures Find(proofs, sequences).Some? ==> Find(proofs, sequences).value in proofs
    ensures Find(proofs, sequences).None? <==> forall p :: p in proofs ==> p.sequences != sequences
  {
    if proofs != [] {
      FindStored(proofs[1..], sequences);
      assert forall p :: p in proofs <==> p == proofs[0] || p in proofs[1..];
    }
  }

  /** Some proof, not necessarily the first, with these sequences is active. */
  predicate AnyActive(proofs: seq<Proof>, sequences: seq<nat>, now: nat) {
    && proofs != []
    && ((proofs[0].sequences == sequences && proofs[0].ActiveOrCompleted(now))
        || AnyActive(proofs[1..], sequences, now))
  }

  lemma {:induction false} AnyActiveIff(proofs: seq<Proof>, sequences: seq<nat>, now: nat)
    ensures AnyActive(proofs, sequences, now)
       <==> exists p :: p in proofs && p.sequences == sequences && p.ActiveOrCompleted(now)
  {
    if proofs != [] {
      AnyActiveIff(proofs[1..], sequences, now);
      assert forall p :: p in proofs <==> p == proofs[0] || p in proofs[1..];
    }
  }

  /** No two proofs have the same sequences: the contract keeps them in a map. */
  predicate Distinct(proofs: seq<Proof>) {
    forall i, j :: 0 <= i < j < |proofs| ==> proofs[i].sequences != proofs[j].sequences
  }

  lemma FindDistinct(proofs: seq<Proof>, p: Proof)
    requires Distinct(proofs) && p in proofs
    ensures Find(proofs, p.sequences) == Some(p)
  {
    FindStored(proofs, p.sequences);
    var q := Find(proofs, p.sequences).value;
    var i :| 0 <= i < |proofs| && proofs[i] == p;
    var j :| 0 <= j < |proofs| && proofs[j] == q;
  }

  /** Inserts a proof, replacing the one with the same sequences if there is one. */
  function Put(proofs: seq<Proof>, p: Proof): seq<Proof> {
    if proofs == [] then [p]
    else if proofs[0].sequences == p.sequences then [p] + proofs[1..]
    else [proofs[0]] + Put(proofs[1..], p)
  }

  lemma {:induction false} FindPut(proofs: seq<Proof>, p: Proof, sequences: seq<nat>)
    ensures Find(Put(proofs, p), sequences)
         == if sequences == p.sequences then Some(p) else Find(proofs, sequences)
  {
    if proofs != [] && proofs[0].sequences != p.sequences {
      FindPut(proofs[1..], p, sequences);
    }
  }

  lemma {:induction false} PutDistinct(proofs: seq<Proof>, p: Proof)
    requires Distinct(proofs)
    ensures Distinct(Put(proofs, p))
    ensures forall q :: q in Put(proofs, p) <==> q == p || (q in proofs && q.sequences != p.sequences)
  {
    if proofs != [] {
      var head, tail := proofs[0], proofs[1..];
      assert Distinct(tail);
      assert forall q :: q in proofs <==> q == head || q in tail;
      assert forall q :: q in tail ==> q.sequences != head.sequences;
      if head.sequences != p.sequences {
        PutDistinct(tail, p);
      }
    }
  }
}
