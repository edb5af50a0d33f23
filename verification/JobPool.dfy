/**
  Which pending jobs are picked (crates/coordinator/src/job_searcher.rs, lines 590-687; constants.rs, line
  16): settlement jobs first, the others by block, inside a block by the number of their sequences and then
  by their own sequence, up to the pool size. Fetching and filtering the pending jobs is left out; the viable
  jobs are the input.
*/
module JobPool {
  import opened JobOrder

  const JOB_SELECTION_POOL_SIZE: nat := 30

  // ---- grouping by block refines one sort ----

  function Settlements(jobs: seq<Job>): seq<Job> {
    if jobs == [] then []
    else if jobs[0].isSettle then [jobs[0]] + Settlements(jobs[1..])
    else Settlements(jobs[1..])
  }

  function Others(jobs: seq<Job>): seq<Job> {
    if jobs == [] then []
    else if jobs[0].isSettle then Others(jobs[1..])
    else [jobs[0]] + Others(jobs[1..])
  }

  function InBlock(jobs: seq<Job>, block: nat): seq<Job> {
    if jobs == [] then []
    else if BlockOf(jobs[0]) == block then [jobs[0]] + InBlock(jobs[1..], block)
    else InBlock(jobs[1..], block)
  }

  /** The jobs of block `low` and above. */
  function From(jobs: seq<Job>, low: nat): seq<Job> {
    if jobs == [] then []
    else if BlockOf(jobs[0]) >= low then [jobs[0]] + From(jobs[1..], low)
    else From(jobs[1..], low)
  }

  predicate AllInBlock(jobs: seq<Job>, block: nat) {
    forall i :: 0 <= i < |jobs| ==> BlockOf(jobs[i]) == block
  }

  predicate AllAbove(jobs: seq<Job>, block: nat) {
    forall i :: 0 <= i < |jobs| ==> BlockOf(jobs[i]) > block
  }

  /** Into a block's jobs followed by higher ones, a job of that block goes where the block's order puts it. */
  lemma {:induction false} InsertLow(job: Job, low: seq<Job>, high: seq<Job>, block: nat)
    requires BlockOf(job) == block && AllInBlock(low, block) && AllAbove(high, block)
    ensures Insert(job, low + high, GlobalRank) == Insert(job, low, BlockRank) + high
    decreases |low|
  {
    if low == [] {
      assert low + high == high;
    } else {
      assert (low + high)[1..] == low[1..] + high;
      if Less(BlockRank(low[0]), BlockRank(job)) {
        InsertLow(job, low[1..], high, block);
      } else {
        assert [job] + (low + high) == [job] + low + high;
      }
    }
  }

  lemma {:induction false} InsertHigh(job: Job, low: seq<Job>, high: seq<Job>, block: nat)
    requires BlockOf(job) > block && AllInBlock(low, block)
    ensures Insert(job, low + high, GlobalRank) == low + Insert(job, high, GlobalRank)
    decreases |low|
  {
    if low == [] {
      assert low + high == high;
      assert low + Insert(job, high, GlobalRank) == Insert(job, high, GlobalRank);
    } else {
      assert (low + high)[1..] == low[1..] + high;
      InsertHigh(job, low[1..], high, block);
    }
  }

  lemma {:induction false} InBlockOnly(jobs: seq<Job>, block: nat)
    ensures AllInBlock(InBlock(jobs, block), block)
    decreases |jobs|
  {
    if jobs != [] {
      InBlockOnly(jobs[1..], block);
    }
  }

  lemma {:induction false} FromOnly(jobs: seq<Job>, low: nat)
    ensures forall i :: 0 <= i < |From(jobs, low)| ==> BlockOf(From(jobs, low)[i]) >= low
    decreases |jobs|
  {
    if jobs != [] {
      FromOnly(jobs[1..], low);
    }
  }

  lemma SortedKeepsBlocks(jobs: seq<Job>, rank: Job -> Rank, j: nat)
    requires j < |Sorted(jobs, rank)|
    ensures Sorted(jobs, rank)[j] in jobs
  {
    SortedContents(jobs, rank);
    assert Sorted(jobs, rank)[j] in multiset(Sorted(jobs, rank));
  }

  lemma SortedBlocks(jobs: seq<Job>, block: nat)
    ensures AllInBlock(Sorted(InBlock(jobs, block), BlockRank), block)
    ensures AllAbove(Sorted(From(jobs, block + 1), GlobalRank), block)
  {
    var low, high := Sorted(InBlock(jobs, block), BlockRank), Sorted(From(jobs, block + 1), GlobalRank);
    InBlockOnly(jobs, block);
    FromOnly(jobs, block + 1);
    forall j | 0 <= j < |low|
      ensures BlockOf(low[j]) == block
    {
      SortedKeepsBlocks(InBlock(jobs, block), BlockRank, j);
    }
    forall j | 0 <= j < |high|
      ensures BlockOf(high[j]) > block
    {
      SortedKeepsBlocks(From(jobs, block + 1), GlobalRank, j);
    }
  }

  /** Sorting everything from a block on is sorting that block by itself and then everything above. */
  lemma {:induction false} PeelBlock(jobs: seq<Job>, block: nat)
    ensures Sorted(From(jobs, block), GlobalRank)
         == Sorted(InBlock(jobs, block), BlockRank) + Sorted(From(jobs, block + 1), GlobalRank)
    decreases |jobs|
  {
    if jobs != [] {
      PeelBlock(jobs[1..], block);
      SortedBlocks(jobs[1..], block);
      var low := Sorted(InBlock(jobs[1..], block), BlockRank);
      var high := Sorted(From(jobs[1..], block + 1), GlobalRank);
      FilterHead(jobs, block);
      if BlockOf(jobs[0]) == block {
        InsertLow(jobs[0], low, high, block);
      } else if BlockOf(jobs[0]) > block {
        InsertHigh(jobs[0], low, high, block);
      }
    }
  }

  lemma SortedHead(job: Job, jobs: seq<Job>, rank: Job -> Rank)
    ensures Sorted([job] + jobs, rank) == Insert(job, Sorted(jobs, rank), rank)
  {
    assert ([job] + jobs)[1..] == jobs;
  }

  lemma FilterHead(jobs: seq<Job>, block: nat)
    requires jobs != []
    ensures Sorted(From(jobs, block), GlobalRank)
         == (if BlockOf(jobs[0]) >= block then Insert(jobs[0], Sorted(From(jobs[1..], block), GlobalRank), GlobalRank)
             else Sorted(From(jobs[1..], block), GlobalRank))
    ensures Sorted(From(jobs, block + 1), GlobalRank)
         == (if BlockOf(jobs[0]) > block then
               Insert(jobs[0], Sorted(From(jobs[1..], block + 1), GlobalRank), GlobalRank)
             else Sorted(From(jobs[1..], block + 1), GlobalRank))
    ensures Sorted(InBlock(jobs, block), BlockRank)
         == (if BlockOf(jobs[0]) == block then Insert(jobs[0], Sorted(InBlock(jobs[1..], block), BlockRank), BlockRank)
             else Sorted(InBlock(jobs[1..], block), BlockRank))
  {
    SortedHead(jobs[0], From(jobs[1..], block), GlobalRank);
    SortedHead(jobs[0], From(jobs[1..], block + 1), GlobalRank);
    SortedHead(jobs[0], InBlock(jobs[1..], block), BlockRank);
  }

  /** Blocks without jobs can be skipped. */
  lemma {:induction false} SkipEmpty(jobs: seq<Job>, low: nat, next: nat)
    requires low <= next
    requires forall i :: 0 <= i < |jobs| ==> BlockOf(jobs[i]) < low || BlockOf(jobs[i]) >= next
    ensures From(jobs, low) == From(jobs, next)
    decreases |jobs|
  {
    if jobs != [] {
      assert jobs[0] == jobs[0];
      SkipEmpty(jobs[1..], low, next);
    }
  }

  lemma {:induction false} FromNone(jobs: seq<Job>, low: nat)
    requires forall i :: 0 <= i < |jobs| ==> BlockOf(jobs[i]) < low
    ensures From(jobs, low) == []
    decreases |jobs|
  {
    if jobs != [] {
      FromNone(jobs[1..], low);
    }
  }

  lemma {:induction false} FromStart(jobs: seq<Job>)
    ensures From(jobs, 0) == jobs
    decreases |jobs|
  {
    if jobs != [] {
      FromStart(jobs[1..]);
    }
  }

  // ---- building the pool ----

  function Take(jobs: seq<Job>, count: nat): seq<Job> {
    if count <= |jobs| then jobs[..count] else jobs
  }

  function Room(count: nat): nat {
    if JOB_SELECTION_POOL_SIZE >= count then JOB_SELECTION_POOL_SIZE - count else 0
  }

  /** What is picked besides the settlement jobs. */
  function Picked(viable: seq<Job>): seq<Job> {
    Take(Sorted(Others(viable), GlobalRank), Room(|Settlements(viable)|))
  }

  /** One global stable sort and one cut. */
  function Pool(viable: seq<Job>): seq<Job> {
    Sorted(Settlements(viable), SettleRank) + Picked(viable)
  }

  lemma PrefixNext(jobs: seq<Job>, i: nat)
    requires i < |jobs|
    ensures jobs[..i + 1] == jobs[..i] + [jobs[i]]
  {
  }

  lemma {:induction false} FiltersAdd(jobs: seq<Job>, job: Job)
    ensures Settlements(jobs + [job]) == if job.isSettle then Settlements(jobs) + [job] else Settlements(jobs)
    ensures Others(jobs + [job]) == if job.isSettle then Others(jobs) else Others(jobs) + [job]
    decreases |jobs|
  {
    if jobs == [] {
      assert [] + [job] == [job] && [job][1..] == [];
    } else {
      assert (jobs + [job])[1..] == jobs[1..] + [job];
      FiltersAdd(jobs[1..], job);
    }
  }

  lemma {:induction false} InBlockAdd(jobs: seq<Job>, job: Job, block: nat)
    ensures InBlock(jobs + [job], block)
         == if BlockOf(job) == block then InBlock(jobs, block) + [job] else InBlock(jobs, block)
    decreases |jobs|
  {
    if jobs == [] {
      assert [] + [job] == [job] && [job][1..] == [];
    } else {
      assert (jobs + [job])[1..] == jobs[1..] + [job];
      InBlockAdd(jobs[1..], job, block);
    }
  }

  ghost predicate Grouped(byBlock: map<nat, seq<Job>>, jobs: seq<Job>) {
    && (forall i :: 0 <= i < |jobs| ==> BlockOf(jobs[i]) in byBlock)
    && (forall b :: b in byBlock ==> byBlock[b] == InBlock(jobs, b))
  }

  lemma {:induction false} InBlockNone(jobs: seq<Job>, block: nat)
    requires forall i :: 0 <= i < |jobs| ==> BlockOf(jobs[i]) != block
    ensures InBlock(jobs, block) == []
    decreases |jobs|
  {
    if jobs != [] {
      InBlockNone(jobs[1..], block);
    }
  }

  /** The job joins its block's list, which is begun when there is none. */
  function Entered(byBlock: map<nat, seq<Job>>, job: Job): map<nat, seq<Job>> {
    var b := BlockOf(job);
    byBlock[b := (if b in byBlock then byBlock[b] else []) + [job]]
  }

  lemma GroupedAdd(byBlock: map<nat, seq<Job>>, jobs: seq<Job>, job: Job)
    requires Grouped(byBlock, jobs)
    ensures Grouped(Entered(byBlock, job), jobs + [job])
  {
    var b := BlockOf(job);
    if b !in byBlock {
      InBlockNone(jobs, b);
    }
    forall c | c in byBlock || c == b
      ensures InBlock(jobs + [job], c) == if b == c then InBlock(jobs, c) + [job] else InBlock(jobs, c)
    {
      InBlockAdd(jobs, job, c);
    }
  }

  method GroupJobs(viable: seq<Job>) returns (settlements: seq<Job>, byBlock: map<nat, seq<Job>>)
    ensures settlements == Settlements(viable)
    ensures Grouped(byBlock, Others(viable))
  {
    settlements := [];
    byBlock := map[];
    for i := 0 to |viable|
      invariant settlements == Settlements(viable[..i])
      invariant Grouped(byBlock, Others(viable[..i]))
    {
      var job := viable[i];
      PrefixNext(viable, i);
      FiltersAdd(viable[..i], job);
      if job.isSettle {
        settlements := settlements + [job];
      } else {
        GroupedAdd(byBlock, Others(viable[..i]), job);
        byBlock := Entered(byBlock, job);
      }
    }
    assert viable[..|viable|] == viable;
  }

  lemma {:induction false} HasLeast(blocks: set<nat>) returns (least: nat)
    requires blocks != {}
    ensures least in blocks && forall b :: b in blocks ==> least <= b
    decreases |blocks|
  {
    var b :| b in blocks;
    if blocks == {b} {
      least := b;
    } else {
      assert blocks - {b} != {};
      assert forall c :: c in blocks ==> c == b || c in blocks - {b};
      least := HasLeast(blocks - {b});
      if b < least {
        least := b;
      }
    }
  }

  lemma TakeConcat(x: seq<Job>, y: seq<Job>, count: nat)
    ensures Take(x + y, count) == Take(x, count) + Take(y, count - |Take(x, count)|)
  {
  }

  /** The part of the pool that blocks from `low` on still have to give. */
  function Rest(others: seq<Job>, low: nat, filled: nat): seq<Job> {
    Take(Sorted(From(others, low), GlobalRank), Room(filled))
  }

  lemma NextBlock(others: seq<Job>, low: nat, block: nat, filled: nat)
    requires low <= block
    requires forall i :: 0 <= i < |others| ==> BlockOf(others[i]) < low || BlockOf(others[i]) >= block
    ensures
      var added := Take(Sorted(InBlock(others, block), BlockRank), Room(filled));
      Rest(others, low, filled) == added + Rest(others, block + 1, filled + |added|)
  {
    SkipEmpty(others, low, block);
    PeelBlock(others, block);
    TakeConcat(Sorted(InBlock(others, block), BlockRank), Sorted(From(others, block + 1), GlobalRank), Room(filled));
  }

  /** What is left to do: the blocks from `low` on. */
  ghost predicate Left(left: set<nat>, byBlock: map<nat, seq<Job>>, low: nat) {
    forall b :: b in left <==> b in byBlock && b >= low
  }

  /** The pool after a block's turn. */
  function WithBlock(pool: seq<Job>, blockJobs: seq<Job>): seq<Job> {
    pool + Take(Sorted(blockJobs, BlockRank), Room(|pool|))
  }

  lemma LeastLeft(left: set<nat>, byBlock: map<nat, seq<Job>>, others: seq<Job>, low: nat, block: nat)
    requires Grouped(byBlock, others) && Left(left, byBlock, low)
    requires block in left && forall b :: b in left ==> block <= b
    ensures low <= block && Left(left - {block}, byBlock, block + 1)
    ensures forall i :: 0 <= i < |others| ==> BlockOf(others[i]) < low || BlockOf(others[i]) >= block
  {
    forall i | 0 <= i < |others|
      ensures BlockOf(others[i]) < low || BlockOf(others[i]) >= block
    {
      assert BlockOf(others[i]) in byBlock;
    }
  }

  lemma BlockTurn(others: seq<Job>, low: nat, block: nat, pool: seq<Job>)
    requires low <= block
    requires forall i :: 0 <= i < |others| ==> BlockOf(others[i]) < low || BlockOf(others[i]) >= block
    ensures
      var next := WithBlock(pool, InBlock(others, block));
      pool + Rest(others, low, |pool|) == next + Rest(others, block + 1, |next|)
  {
    NextBlock(others, low, block, |pool|);
    var next := WithBlock(pool, InBlock(others, block));
    var added := Take(Sorted(InBlock(others, block), BlockRank), Room(|pool|));
    assert next == pool + added && |next| == |pool| + |added|;
    var rest := Rest(others, block + 1, |next|);
    assert Rest(others, low, |pool|) == added + rest;
    Associate(pool, added, rest);
  }

  lemma Associate(x: seq<Job>, y: seq<Job>, z: seq<Job>)
    ensures x + (y + z) == x + y + z
  {
  }

  lemma NoRoomNoRest(others: seq<Job>, low: nat, filled: nat)
    requires filled >= JOB_SELECTION_POOL_SIZE
    ensures Rest(others, low, filled) == []
  {
  }

  lemma NoneLeft(byBlock: map<nat, seq<Job>>, others: seq<Job>, low: nat, filled: nat)
    requires Grouped(byBlock, others) && Left({}, byBlock, low)
    ensures Rest(others, low, filled) == []
  {
    forall i | 0 <= i < |others|
      ensures BlockOf(others[i]) < low
    {
      assert BlockOf(others[i]) in byBlock;
    }
    FromNone(others, low);
  }

  /** Adds a sorted block as far as there is room; `full` ends the loop over the blocks. */
  method AddBlock(pool: seq<Job>, blockJobs: seq<Job>) returns (next: seq<Job>, full: bool)
    ensures next == WithBlock(pool, blockJobs)
    ensures full <==> |next| >= JOB_SELECTION_POOL_SIZE
  {
    var sorted := Sorted(blockJobs, BlockRank);
    next := pool;
    var remaining := if JOB_SELECTION_POOL_SIZE >= |pool| then JOB_SELECTION_POOL_SIZE - |pool| else 0;
    if remaining == 0 {
      return next, true;
    }
    var jobsToAdd := if |sorted| <= remaining then |sorted| else remaining;
    next := next + sorted[..jobsToAdd];
    full := |next| >= JOB_SELECTION_POOL_SIZE;
  }

  /** The blocks in ascending order, each sorted by itself, until the pool is full. */
  method AddBlocks(byBlock: map<nat, seq<Job>>, start: seq<Job>, ghost others: seq<Job>) returns (pool: seq<Job>)
    requires Grouped(byBlock, others)
    ensures pool == start + Rest(others, 0, |start|)
  {
    pool := start;
    var left := byBlock.Keys;
    ghost var low: nat := 0;
    while left != {}
      invariant Left(left, byBlock, low)
      invariant pool + Rest(others, low, |pool|) == start + Rest(others, 0, |start|)
      decreases |left|
    {
      ghost var least := HasLeast(left);
      var block :| block in left && forall b :: b in left ==> block <= b;
      LeastLeft(left, byBlock, others, low, block);
      BlockTurn(others, low, block, pool);
      var full;
      pool, full := AddBlock(pool, byBlock[block]);
      if full {
        NoRoomNoRest(others, block + 1, |pool|);
        return;
      }
      left := left - {block};
      low := block + 1;
    }
    NoneLeft(byBlock, others, low, |pool|);
  }

  /** What is selected in each mode. */
  function Selected(viable: seq<Job>, settleOnly: bool): seq<Job> {
    if settleOnly then Settlements(viable) else Pool(viable)
  }

  /**
    The pool: in settle-only mode the settlement jobs as they came; otherwise grouping, per-block sorting
    and the cutoff together give one stable sort by block, count and sequence, cut at the pool size.
  */
  method SelectJobs(viable: seq<Job>, settleOnly: bool) returns (pool: seq<Job>)
    ensures pool == Selected(viable, settleOnly)
  {
    if settleOnly {
      pool := [];
      for i := 0 to |viable|
        invariant pool == Settlements(viable[..i])
      {
        PrefixNext(viable, i);
        FiltersAdd(viable[..i], viable[i]);
        if viable[i].isSettle {
          pool := pool + [viable[i]];
        }
      }
      assert viable[..|viable|] == viable;
      return;
    }
    var settlements, byBlock := GroupJobs(viable);
    settlements := Sorted(settlements, SettleRank);
    SortedContents(Settlements(viable), SettleRank);
    FromStart(Others(viable));
    pool := AddBlocks(byBlock, settlements, Others(viable));
  }

  // ---- what the pool promises ----

  lemma {:induction false} FiltersSplit(jobs: seq<Job>)
    ensures multiset(jobs) == multiset(Settlements(jobs)) + multiset(Others(jobs))
    ensures |jobs| == |Settlements(jobs)| + |Others(jobs)|
    decreases |jobs|
  {
    if jobs != [] {
      assert jobs == [jobs[0]] + jobs[1..];
      FiltersSplit(jobs[1..]);
    }
  }

  lemma TakeContents(jobs: seq<Job>, count: nat)
    ensures multiset(Take(jobs, count)) <= multiset(jobs)
    ensures |Take(jobs, count)| == if count <= |jobs| then count else |jobs|
  {
    if count <= |jobs| {
      assert jobs == jobs[..count] + jobs[count..];
    }
  }

  /**
    The pool holds viable jobs only, each at most as often as it came, all settlement jobs among them; it is
    filled up to its size, and exceeds it only by settlement jobs.
  */
  lemma PoolContents(viable: seq<Job>)
    ensures multiset(Pool(viable)) <= multiset(viable)
    ensures multiset(Settlements(viable)) <= multiset(Pool(viable))
    ensures |Pool(viable)|
         == if |Settlements(viable)| >= 30 then |Settlements(viable)| else if |viable| <= 30 then |viable| else 30
  {
    FiltersSplit(viable);
    SortedContents(Settlements(viable), SettleRank);
    SortedContents(Others(viable), GlobalRank);
    TakeContents(Sorted(Others(viable), GlobalRank), Room(|Settlements(viable)|));
  }

  lemma CutOrder(sorted: seq<Job>, count: nat, rank: Job -> Rank, i: nat, omitted: Job)
    requires InOrder(sorted, rank) && i < count <= |sorted|
    requires omitted in multiset(sorted) - multiset(sorted[..count])
    ensures !Less(rank(omitted), rank(sorted[i]))
  {
    assert sorted == sorted[..count] + sorted[count..];
    assert omitted in multiset(sorted[count..]);
    var j :| 0 <= j < |sorted[count..]| && sorted[count..][j] == omitted;
    assert sorted[count + j] == omitted;
  }

  /** No job left out ranks before one that was picked, and the pool keeps the order of the ranks. */
  lemma NoneOutranks(viable: seq<Job>, i: nat, omitted: Job)
    requires i < |Picked(viable)|
    requires omitted in multiset(Others(viable)) - multiset(Picked(viable))
    ensures !Less(GlobalRank(omitted), GlobalRank(Picked(viable)[i]))
  {
    var sorted := Sorted(Others(viable), GlobalRank);
    SortedOrder(Others(viable), GlobalRank);
    SortedContents(Others(viable), GlobalRank);
    assert Picked(viable) == sorted[..|Picked(viable)|];
    CutOrder(sorted, |Picked(viable)|, GlobalRank, i, omitted);
  }

  // ---- the order in the fields of the jobs ----

  /**
    `a` may come before `b`: its block is no later, a missing block counting as the last; in one block it has
    no more sequences; and with as many its own sequence is no larger.
  */
  predicate MayPrecede(a: Job, b: Job) {
    var late := 0xFFFF_FFFF_FFFF_FFFF;
    var blockA, blockB := if a.block.Some? then a.block.value else late, if b.block.Some? then b.block.value else late;
    var countA := if a.sequences.Some? then |a.sequences.value| else 0;
    var countB := if b.sequences.Some? then |b.sequences.value| else 0;
    && blockA <= blockB
    && (blockA == blockB ==> countA <= countB)
    && (blockA == blockB && countA == countB ==> a.sequence <= b.sequence)
  }

  lemma RankIsFields(a: Job, b: Job)
    ensures !Less(GlobalRank(b), GlobalRank(a)) <==> MayPrecede(a, b)
    ensures !Less(SettleRank(b), SettleRank(a)) <==> a.sequence <= b.sequence
  {
  }

  lemma {:induction false} FiltersKind(jobs: seq<Job>)
    ensures forall i :: 0 <= i < |Settlements(jobs)| ==> Settlements(jobs)[i].isSettle
    ensures forall i :: 0 <= i < |Others(jobs)| ==> !Others(jobs)[i].isSettle
    decreases |jobs|
  {
    if jobs != [] {
      FiltersKind(jobs[1..]);
    }
  }

  /** The pool is the sorted settlement jobs followed by others. */
  lemma PoolParts(viable: seq<Job>, i: nat)
    requires i < |Pool(viable)|
    ensures Pool(viable)[i].isSettle <==> i < |Settlements(viable)|
  {
    var settled := Sorted(Settlements(viable), SettleRank);
    FiltersKind(viable);
    SortedContents(Settlements(viable), SettleRank);
    if i < |settled| {
      SortedKeepsBlocks(Settlements(viable), SettleRank, i);
    } else {
      SortedKeepsBlocks(Others(viable), GlobalRank, i - |settled|);
    }
  }

  /**
    Of two picked jobs the earlier one is a settlement job if the later one is; two settlement jobs stand by
    ascending sequence, two others by block, number of sequences and sequence.
  */
  lemma PoolInOrder(viable: seq<Job>, i: nat, j: nat)
    requires i < j < |Pool(viable)|
    ensures
      var a, b := Pool(viable)[i], Pool(viable)[j];
      && (b.isSettle ==> a.isSettle && a.sequence <= b.sequence)
      && (!a.isSettle ==> !b.isSettle && MayPrecede(a, b))
  {
    PoolParts(viable, i);
    PoolParts(viable, j);
    RankIsFields(Pool(viable)[i], Pool(viable)[j]);
    SortedOrder(Settlements(viable), SettleRank);
    SortedOrder(Others(viable), GlobalRank);
    SortedContents(Settlements(viable), SettleRank);
  }

  /** A job that was left out is no settlement job, and may not come before any other picked job. */
  lemma OmittedComesLater(viable: seq<Job>, i: nat, omitted: Job)
    requires i < |Pool(viable)| && omitted in multiset(viable) - multiset(Pool(viable))
    ensures !omitted.isSettle
    ensures !Pool(viable)[i].isSettle ==> MayPrecede(Pool(viable)[i], omitted)
  {
    FiltersSplit(viable);
    FiltersKind(viable);
    SortedContents(Settlements(viable), SettleRank);
    assert omitted in multiset(Others(viable)) - multiset(Picked(viable));
    PoolParts(viable, i);
    if i >= |Settlements(viable)| {
      NoneOutranks(viable, i - |Settlements(viable)|, omitted);
      RankIsFields(Pool(viable)[i], omitted);
    }
  }

  lemma {:induction false} SortedOfSorted(jobs: seq<Job>, rank: Job -> Rank)
    requires InOrder(jobs, rank)
    ensures Sorted(jobs, rank) == jobs
    decreases |jobs|
  {
    if jobs != [] {
      SortedOfSorted(jobs[1..], rank);
    }
  }

  predicate Begins(x: seq<Job>, y: seq<Job>) {
    |x| <= |y| && y[..|x|] == x
  }

  /**
    The settle-only selection is the beginning of the normal one if and only if the settlement jobs came in
    order; it is the whole of it if and only if moreover nothing else is picked.
  */
  lemma SettleOnlyIffOrdered(viable: seq<Job>)
    ensures Begins(Selected(viable, true), Selected(viable, false)) <==> InOrder(Settlements(viable), SettleRank)
    ensures (Selected(viable, true) == Selected(viable, false))
       <==> (InOrder(Settlements(viable), SettleRank) && Picked(viable) == [])
  {
    var settled, sorted := Settlements(viable), Sorted(Settlements(viable), SettleRank);
    SortedOrder(settled, SettleRank);
    SortedContents(settled, SettleRank);
    assert Pool(viable)[..|settled|] == sorted;
    if InOrder(settled, SettleRank) {
      SortedOfSorted(settled, SettleRank);
    }
  }
}
