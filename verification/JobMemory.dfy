/**
  How many of the picked jobs are started (crates/coordinator/src/job_searcher.rs, lines 245-327): for each
  app instance, in order, as many as fit in memory.
*/
module JobMemory {
  import opened Wrappers
  import opened JobOrder

  /** What a job's agent method needs, in gigabytes; None when it could not be fetched. */
  type Needs = Job -> Option<nat>

  predicate Fits(job: Job, needs: Needs, used: real, budget: real) {
    needs(job).Some? && used + needs(job).value as real <= budget
  }

  /** The jobs of one app instance that are started, in order, with `used` already taken. */
  function Batch(jobs: seq<Job>, needs: Needs, used: real, budget: real): seq<Job> {
    if jobs == [] then []
    else if Fits(jobs[0], needs, used, budget) then
      [jobs[0]] + Batch(jobs[1..], needs, used + needs(jobs[0]).value as real, budget)
    else Batch(jobs[1..], needs, used, budget)
  }

  function Unfetched(jobs: seq<Job>, needs: Needs): seq<Job> {
    if jobs == [] then []
    else if needs(jobs[0]).None? then [jobs[0]] + Unfetched(jobs[1..], needs)
    else Unfetched(jobs[1..], needs)
  }

  function Total(jobs: seq<Job>, needs: Needs): real {
    if jobs == [] then 0.0
    else (if needs(jobs[0]).Some? then needs(jobs[0]).value as real else 0.0) + Total(jobs[1..], needs)
  }

  /** The unfetched jobs are exactly those whose needs are not known, each as often as it came. */
  lemma {:induction false} UnfetchedIff(jobs: seq<Job>, needs: Needs, job: Job)
    ensures multiset(Unfetched(jobs, needs))[job] == if needs(job).None? then multiset(jobs)[job] else 0
    decreases |jobs|
  {
    if jobs != [] {
      assert jobs == [jobs[0]] + jobs[1..];
      UnfetchedIff(jobs[1..], needs, job);
    }
  }

  method FillBatch(appJobs: seq<Job>, needs: Needs, budget: real) returns (jobsToAdd: seq<Job>, failed: seq<Job>)
    ensures jobsToAdd == Batch(appJobs, needs, 0.0, budget)
    ensures forall job :: multiset(failed)[job] == if needs(job).None? then multiset(appJobs)[job] else 0
    ensures failed == Unfetched(appJobs, needs)
  {
    var batchMemory := 0.0;
    jobsToAdd := [];
    failed := [];
    for i := 0 to |appJobs|
      invariant Batch(appJobs, needs, 0.0, budget) == jobsToAdd + Batch(appJobs[i..], needs, batchMemory, budget)
      invariant Unfetched(appJobs, needs) == failed + Unfetched(appJobs[i..], needs)
    {
      var job := appJobs[i];
      assert appJobs[i..][1..] == appJobs[i + 1..];
      if needs(job).Some? {
        var jobMemory := needs(job).value as real;
        if batchMemory + jobMemory > budget {
          continue;
        }
        batchMemory := batchMemory + jobMemory;
        jobsToAdd := jobsToAdd + [job];
      } else {
        failed := failed + [job];
      }
    }
    forall job
      ensures multiset(failed)[job] == if needs(job).None? then multiset(appJobs)[job] else 0
    {
      UnfetchedIff(appJobs, needs, job);
    }
  }

  lemma {:induction false} TotalNotNegative(jobs: seq<Job>, needs: Needs)
    ensures Total(jobs, needs) >= 0.0
    decreases |jobs|
  {
    if jobs != [] {
      TotalNotNegative(jobs[1..], needs);
    }
  }

  /** A batch stays within the budget. */
  lemma {:induction false} BatchWithin(jobs: seq<Job>, needs: Needs, used: real, budget: real)
    ensures Batch(jobs, needs, used, budget) == [] || used + Total(Batch(jobs, needs, used, budget), needs) <= budget
    decreases |jobs|
  {
    if jobs != [] {
      if Fits(jobs[0], needs, used, budget) {
        BatchWithin(jobs[1..], needs, used + needs(jobs[0]).value as real, budget);
      } else {
        BatchWithin(jobs[1..], needs, used, budget);
      }
    }
  }

  /** A job that was left out for memory would not fit on top of the finished batch either. */
  lemma {:induction false} BatchMaximal(jobs: seq<Job>, needs: Needs, used: real, budget: real, job: Job)
    requires job in multiset(jobs) - multiset(Batch(jobs, needs, used, budget)) && needs(job).Some?
    ensures used + Total(Batch(jobs, needs, used, budget), needs) + needs(job).value as real > budget
    decreases |jobs|
  {
    if jobs != [] {
      assert jobs == [jobs[0]] + jobs[1..];
      if Fits(jobs[0], needs, used, budget) {
        BatchMaximal(jobs[1..], needs, used + needs(jobs[0]).value as real, budget, job);
      } else {
        var batch := Batch(jobs[1..], needs, used, budget);
        TotalNotNegative(batch, needs);
        if job != jobs[0] || job in multiset(jobs[1..]) - multiset(batch) {
          BatchMaximal(jobs[1..], needs, used, budget, job);
        }
      }
    }
  }

  /** What all app instances together are given; each starts again with the whole budget. */
  function GrandTotal(instances: seq<seq<Job>>, needs: Needs, budget: real): real {
    if instances == [] then 0.0
    else Total(Batch(instances[0], needs, 0.0, budget), needs) + GrandTotal(instances[1..], needs, budget)
  }

  function Copies(job: Job, count: nat): seq<seq<Job>> {
    if count == 0 then [] else [[job]] + Copies(job, count - 1)
  }

  lemma {:induction false} CopiesTotal(job: Job, count: nat, needs: Needs, budget: real)
    requires needs(job).Some? && needs(job).value as real <= budget
    ensures |Copies(job, count)| == count
    ensures GrandTotal(Copies(job, count), needs, budget) == count as real * needs(job).value as real
    decreases count
  {
    if count > 0 {
      CopiesTotal(job, count - 1, needs, budget);
      assert Batch([job], needs, 0.0, budget) == [job];
      assert Total([job], needs) == needs(job).value as real;
    }
  }

  /** Something is started although the started jobs need more than the budget. */
  predicate Overcommitted(instances: seq<seq<Job>>, needs: Needs, budget: real) {
    AnyStarted(instances, needs, budget) && GrandTotal(instances, needs, budget) > budget
  }

  predicate AnyStarted(instances: seq<seq<Job>>, needs: Needs, budget: real) {
    instances != []
    && (Batch(instances[0], needs, 0.0, budget) != [] || AnyStarted(instances[1..], needs, budget))
  }

  /** Without a whole gigabyte only jobs that need nothing are started, and none without a budget. */
  lemma {:induction false} SmallBudget(instances: seq<seq<Job>>, needs: Needs, budget: real)
    requires budget < 1.0
    ensures GrandTotal(instances, needs, budget) == 0.0
    ensures budget < 0.0 ==> !AnyStarted(instances, needs, budget)
    decreases |instances|
  {
    if instances != [] {
      SmallBatch(instances[0], needs, budget);
      SmallBudget(instances[1..], needs, budget);
    }
  }

  lemma {:induction false} SmallBatch(jobs: seq<Job>, needs: Needs, budget: real)
    requires budget < 1.0
    ensures Total(Batch(jobs, needs, 0.0, budget), needs) == 0.0
    ensures budget < 0.0 ==> Batch(jobs, needs, 0.0, budget) == []
    decreases |jobs|
  {
    if jobs != [] {
      SmallBatch(jobs[1..], needs, budget);
    }
  }

  /** One app instance alone never overcommits. */
  lemma AloneWithin(jobs: seq<Job>, needs: Needs, budget: real)
    ensures !Overcommitted([jobs], needs, budget)
  {
    BatchWithin(jobs, needs, 0.0, budget);
    assert [jobs][1..] == [];
    var batch := Batch(jobs, needs, 0.0, budget);
    assert GrandTotal([jobs], needs, budget) == Total(batch, needs) + GrandTotal([], needs, budget);
    assert AnyStarted([jobs], needs, budget) == (batch != [] || AnyStarted([], needs, budget));
  }

  /** Two app instances with a job each that takes the whole budget, to the gigabyte. */
  lemma TogetherBeyond(count: nat, budget: real, job: Job) returns (instances: seq<seq<Job>>, needs: Needs)
    requires budget >= 1.0 && count >= 2
    ensures |instances| == count && Overcommitted(instances, needs, budget)
  {
    var size: nat := budget.Floor;
    needs := (j: Job) => Some(size);
    instances := Copies(job, count);
    CopiesTotal(job, count, needs, budget);
    assert count as real * size as real >= 2.0 * size as real > budget;
    assert instances[0] == [job] && Batch([job], needs, 0.0, budget) == [job];
  }

  /** However many jobs the app instances have and whatever they need. */
  ghost predicate SureToFit(count: nat, budget: real) {
    forall instances, needs: Needs :: |instances| == count ==> !Overcommitted(instances, needs, budget)
  }

  lemma FewFit(count: nat, budget: real)
    requires count <= 1 || budget < 1.0
    ensures SureToFit(count, budget)
  {
    forall instances, needs: Needs | |instances| == count
      ensures !Overcommitted(instances, needs, budget)
    {
      if budget < 1.0 {
        SmallBudget(instances, needs, budget);
      } else if count == 1 {
        AloneWithin(instances[0], needs, budget);
        assert instances == [instances[0]];
      }
    }
  }

  /**
    The jobs that are started for `count` app instances are sure to fit into the budget together if and only
    if there is at most one instance, or less than one gigabyte: no job can then take any of it.
  */
  lemma SharedBudgetIff(count: nat, budget: real, job: Job)
    ensures SureToFit(count, budget) <==> count <= 1 || budget < 1.0
  {
    if count <= 1 || budget < 1.0 {
      FewFit(count, budget);
    } else {
      var instances, needs := TogetherBeyond(count, budget, job);
      assert Overcommitted(instances, needs, budget);
    }
  }
}
