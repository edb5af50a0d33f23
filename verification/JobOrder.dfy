/**
  Pending jobs and how they are sorted (crates/coordinator/src/job_searcher.rs, lines 632-653). The library
  sorts are the stable insertion sort `Sorted`.
*/
module JobOrder {
  import opened Wrappers

  const U64_MAX: nat := 0xFFFF_FFFF_FFFF_FFFF

  datatype Job = Job(
    appInstance: string,
    sequence: nat,
    block: Option<nat>,
    sequences: Option<seq<nat>>,
    isSettle: bool)

  // ---- order ----

  datatype Rank = Rank(block: nat, count: nat, sequence: nat)

  predicate Less(a: Rank, b: Rank) {
    || a.block < b.block
    || (a.block == b.block && (a.count < b.count || (a.count == b.count && a.sequence < b.sequence)))
  }

  function BlockOf(job: Job): nat {
    if job.block.Some? then job.block.value else U64_MAX
  }

  function CountOf(job: Job): nat {
    if job.sequences.Some? then |job.sequences.value| else 0
  }

  /** The orders the code sorts by: settlement jobs, jobs inside a block. */
  function SettleRank(job: Job): Rank {
    Rank(0, 0, job.sequence)
  }

  function BlockRank(job: Job): Rank {
    Rank(0, CountOf(job), job.sequence)
  }

  /** The one order that the grouping amounts to. */
  function GlobalRank(job: Job): Rank {
    Rank(BlockOf(job), CountOf(job), job.sequence)
  }

  // ---- stable sorting ----

  /** Puts an earlier job in front of the first one that does not rank below it. */
  function Insert(job: Job, sorted: seq<Job>, rank: Job -> Rank): seq<Job> {
    if sorted == [] then [job]
    else if Less(rank(sorted[0]), rank(job)) then [sorted[0]] + Insert(job, sorted[1..], rank)
    else [job] + sorted
  }

  function Sorted(jobs: seq<Job>, rank: Job -> Rank): seq<Job> {
    if jobs == [] then [] else Insert(jobs[0], Sorted(jobs[1..], rank), rank)
  }

  ghost predicate InOrder(jobs: seq<Job>, rank: Job -> Rank) {
    forall i, j :: 0 <= i < j < |jobs| ==> !Less(rank(jobs[j]), rank(jobs[i]))
  }

  lemma {:induction false} InsertContents(job: Job, sorted: seq<Job>, rank: Job -> Rank)
    ensures multiset(Insert(job, sorted, rank)) == multiset(sorted) + multiset{job}
    decreases |sorted|
  {
    if sorted != [] {
      assert sorted == [sorted[0]] + sorted[1..];
      InsertContents(job, sorted[1..], rank);
    }
  }

  lemma {:induction false} SortedContents(jobs: seq<Job>, rank: Job -> Rank)
    ensures multiset(Sorted(jobs, rank)) == multiset(jobs) && |Sorted(jobs, rank)| == |jobs|
    decreases |jobs|
  {
    if jobs != [] {
      assert jobs == [jobs[0]] + jobs[1..];
      SortedContents(jobs[1..], rank);
      InsertContents(jobs[0], Sorted(jobs[1..], rank), rank);
      assert |multiset(Sorted(jobs, rank))| == |multiset(jobs)|;
    }
  }

  lemma {:induction false} InsertOrder(job: Job, sorted: seq<Job>, rank: Job -> Rank)
    requires InOrder(sorted, rank)
    ensures InOrder(Insert(job, sorted, rank), rank)
    decreases |sorted|
  {
    if sorted != [] && Less(rank(sorted[0]), rank(job)) {
      var rest := Insert(job, sorted[1..], rank);
      InsertOrder(job, sorted[1..], rank);
      InsertContents(job, sorted[1..], rank);
      forall j | 0 <= j < |rest|
        ensures !Less(rank(rest[j]), rank(sorted[0]))
      {
        assert rest[j] in multiset(rest);
        assert rest[j] == job || rest[j] in sorted[1..];
      }
    }
  }

  lemma {:induction false} SortedOrder(jobs: seq<Job>, rank: Job -> Rank)
    ensures InOrder(Sorted(jobs, rank), rank)
    decreases |jobs|
  {
    if jobs != [] {
      SortedOrder(jobs[1..], rank);
      InsertOrder(jobs[0], Sorted(jobs[1..], rank), rank);
    }
  }

  /** The jobs of one rank, in their original order. */
  function OfRank(jobs: seq<Job>, rank: Job -> Rank, r: Rank): seq<Job> {
    if jobs == [] then []
    else if rank(jobs[0]) == r then [jobs[0]] + OfRank(jobs[1..], rank, r)
    else OfRank(jobs[1..], rank, r)
  }

  lemma {:induction false} InsertStable(job: Job, sorted: seq<Job>, rank: Job -> Rank, r: Rank)
    ensures OfRank(Insert(job, sorted, rank), rank, r) == OfRank([job] + sorted, rank, r)
    decreases |sorted|
  {
    assert ([job] + sorted)[1..] == sorted;
    if sorted == [] {
      assert [job] + sorted == [job];
    } else if Less(rank(sorted[0]), rank(job)) {
      InsertStable(job, sorted[1..], rank, r);
      assert ([job] + sorted[1..])[1..] == sorted[1..];
    }
  }

  /** Jobs that rank equal keep their order. */
  lemma {:induction false} SortedStable(jobs: seq<Job>, rank: Job -> Rank, r: Rank)
    ensures OfRank(Sorted(jobs, rank), rank, r) == OfRank(jobs, rank, r)
    decreases |jobs|
  {
    if jobs != [] {
      SortedStable(jobs[1..], rank, r);
      InsertStable(jobs[0], Sorted(jobs[1..], rank), rank, r);
      assert ([jobs[0]] + Sorted(jobs[1..], rank))[1..] == Sorted(jobs[1..], rank);
    }
  }
}
