/**
  The event buffer's own loops (crates/buffer/src/lib.rs, lines 201-303, 336-388 and 414-731) as methods
  over its fields. Each method is tied to the transition system of BufferProtocol: it returns the actions
  it amounts to, so what holds over all interleavings there holds for these loops. The backend's answers,
  the clock and the retry jitter are parameters; the event publisher changes no state and is left out.
*/
module EventBuffers {
  import opened Wrappers
  import opened PowersOfTwo
  import opened BufferProtocol
  import opened BufferCounts

  const MAX_RETRIES: nat := 10
  const INITIAL_RETRY_DELAY: nat := 100
  const MAX_RETRY_DELAY: nat := 30000
  const FAST_PATH_THRESHOLD: nat := 8

  /** The answer of the backend to an attempt: how many events it processed, or an error. */
  type Backend = (nat, nat) -> Option<nat>

  // ---- circuit breaker ----

  datatype BreakerState = BreakerState(isOpen: bool, errors: nat, lastError: Option<nat>)

  /** Asked by a call, told of a failed batch, of an accepted event, of a processed batch. */
  datatype BreakerEvent = Asked(now: nat) | BatchFailed(now: nat) | EventAccepted | BatchDone

  const CLOSED: BreakerState := BreakerState(false, 0, None)

  /** Open, and the last error is not older than the timeout. */
  predicate OpenAt(s: BreakerState, timeout: nat, now: nat) {
    s.isOpen && !(s.lastError.Some? && now > s.lastError.value + timeout)
  }

  function BreakerNext(s: BreakerState, threshold: nat, timeout: nat, event: BreakerEvent): BreakerState {
    match event
    case Asked(now) => if s.isOpen && !OpenAt(s, timeout, now) then s.(isOpen := false, errors := 0) else s
    case BatchFailed(now) => BreakerState(s.isOpen || s.errors + 1 >= threshold, s.errors + 1, Some(now))
    case EventAccepted => s.(errors := 0)
    case BatchDone => s.(isOpen := false, errors := 0)
  }

  /** A breaker after the first `k` events of its life. */
  function BreakerAfter(threshold: nat, timeout: nat, history: seq<BreakerEvent>, k: nat): BreakerState
    requires k <= |history|
    decreases k
  {
    if k == 0 then CLOSED
    else BreakerNext(BreakerAfter(threshold, timeout, history, k - 1), threshold, timeout, history[k - 1])
  }

  /** A call that finds the breaker open and the timeout over: its question closes the breaker. */
  predicate Expires(threshold: nat, timeout: nat, history: seq<BreakerEvent>, i: nat)
    requires i < |history|
  {
    history[i].Asked? && BreakerAfter(threshold, timeout, history, i).isOpen
    && !OpenAt(BreakerAfter(threshold, timeout, history, i), timeout, history[i].now)
  }

  /** An accepted event, a processed batch and an expiry start the count of failures afresh. */
  predicate Restarts(threshold: nat, timeout: nat, history: seq<BreakerEvent>, i: nat)
    requires i < |history|
  {
    history[i] == EventAccepted || history[i] == BatchDone || Expires(threshold, timeout, history, i)
  }

  /** Of these only a processed batch and an expiry close an open breaker. */
  predicate Closes(threshold: nat, timeout: nat, history: seq<BreakerEvent>, i: nat)
    requires i < |history|
  {
    history[i] == BatchDone || Expires(threshold, timeout, history, i)
  }

  /** The failed batches since the count was last started afresh. */
  function Streak(threshold: nat, timeout: nat, history: seq<BreakerEvent>, k: nat): nat
    requires k <= |history|
    decreases k
  {
    if k == 0 || Restarts(threshold, timeout, history, k - 1) then 0
    else Streak(threshold, timeout, history, k - 1) + if history[k - 1].BatchFailed? then 1 else 0
  }

  /** Nothing closes the breaker from `j` up to `k`. */
  predicate NoneCloses(threshold: nat, timeout: nat, history: seq<BreakerEvent>, j: nat, k: nat)
    requires j <= k <= |history|
    decreases k
  {
    j == k || (NoneCloses(threshold, timeout, history, j, k - 1) && !Closes(threshold, timeout, history, k - 1))
  }

  /** A streak of the threshold's length was reached at `j`, and nothing has closed the breaker since. */
  predicate OpenSince(threshold: nat, timeout: nat, history: seq<BreakerEvent>, k: nat, j: nat)
    requires k <= |history|
  {
    && 0 < j <= k && history[j - 1].BatchFailed?
    && Streak(threshold, timeout, history, j) >= threshold
    && NoneCloses(threshold, timeout, history, j, k)
  }

  ghost predicate Opened(threshold: nat, timeout: nat, history: seq<BreakerEvent>, k: nat)
    requires k <= |history|
  {
    exists j: nat :: OpenSince(threshold, timeout, history, k, j)
  }

  lemma {:induction false} ErrorsAreStreak(threshold: nat, timeout: nat, history: seq<BreakerEvent>, k: nat)
    requires k <= |history|
    ensures BreakerAfter(threshold, timeout, history, k).errors == Streak(threshold, timeout, history, k)
    decreases k
  {
    if k > 0 {
      ErrorsAreStreak(threshold, timeout, history, k - 1);
    }
  }

  /**
    The breaker is open if and only if a failed batch once made a streak of the threshold's length, and no
    batch was processed and no expiry noticed since. Calls asking the breaker do not break a streak.
  */
  lemma {:induction false} OpenIff(threshold: nat, timeout: nat, history: seq<BreakerEvent>, k: nat)
    requires k <= |history|
    ensures BreakerAfter(threshold, timeout, history, k).isOpen <==> Opened(threshold, timeout, history, k)
    decreases k
  {
    if k > 0 {
      OpenIff(threshold, timeout, history, k - 1);
      ErrorsAreStreak(threshold, timeout, history, k);
      OpenStep(threshold, timeout, history, k);
    }
  }

  lemma OpenStep(threshold: nat, timeout: nat, history: seq<BreakerEvent>, k: nat)
    requires 0 < k <= |history|
    ensures Opened(threshold, timeout, history, k)
       <==> (history[k - 1].BatchFailed? && Streak(threshold, timeout, history, k) >= threshold)
            || (Opened(threshold, timeout, history, k - 1) && !Closes(threshold, timeout, history, k - 1))
  {
    var before := k - 1;
    if history[before].BatchFailed? && Streak(threshold, timeout, history, k) >= threshold {
      assert OpenSince(threshold, timeout, history, k, k);
    }
    if Opened(threshold, timeout, history, before) && !Closes(threshold, timeout, history, before) {
      var j: nat :| OpenSince(threshold, timeout, history, before, j);
      assert OpenSince(threshold, timeout, history, k, j);
    }
    if j: nat :| OpenSince(threshold, timeout, history, k, j) && j != k {
      assert OpenSince(threshold, timeout, history, before, j);
    }
  }

  /** When a batch last failed. */
  function LastFailure(history: seq<BreakerEvent>, k: nat): Option<nat>
    requires k <= |history|
    decreases k
  {
    if k == 0 then None
    else if history[k - 1].BatchFailed? then Some(history[k - 1].now)
    else LastFailure(history, k - 1)
  }

  lemma {:induction false} LastErrorIsFailure(threshold: nat, timeout: nat, history: seq<BreakerEvent>, k: nat)
    requires k <= |history|
    ensures BreakerAfter(threshold, timeout, history, k).lastError == LastFailure(history, k)
    ensures BreakerAfter(threshold, timeout, history, k).isOpen ==> LastFailure(history, k).Some?
    decreases k
  {
    if k > 0 {
      LastErrorIsFailure(threshold, timeout, history, k - 1);
    }
  }

  /** An open breaker recovers when it is asked more than the timeout after the last failed batch, not before. */
  lemma RecoversIff(threshold: nat, timeout: nat, history: seq<BreakerEvent>, k: nat)
    requires k < |history| && history[k].Asked? && BreakerAfter(threshold, timeout, history, k).isOpen
    ensures LastFailure(history, k).Some?
    ensures !BreakerAfter(threshold, timeout, history, k + 1).isOpen
       <==> history[k].now > LastFailure(history, k).value + timeout
  {
    LastErrorIsFailure(threshold, timeout, history, k);
  }

  class CircuitBreaker {
    const threshold: nat
    const timeout: nat
    var isOpen: bool
    var errorCount: nat
    var lastError: Option<nat>

    function Abs(): BreakerState
      reads this
    {
      BreakerState(isOpen, errorCount, lastError)
    }

    constructor (threshold: nat, timeout: nat)
      ensures this.threshold == threshold && this.timeout == timeout && Abs() == CLOSED
    {
      this.threshold := threshold;
      this.timeout := timeout;
      isOpen := false;
      errorCount := 0;
      lastError := None;
    }

    method IsOpen(now: nat) returns (open: bool)
      modifies this
      ensures open == isOpen == OpenAt(old(Abs()), timeout, now)
      ensures Abs() == BreakerNext(old(Abs()), threshold, timeout, Asked(now))
    {
      if !isOpen {
        return false;
      }
      if lastError.Some? {
        if now > lastError.value + timeout {
          isOpen := false;
          errorCount := 0;
          return false;
        }
      }
      return true;
    }

    method RecordError(now: nat)
      modifies this
      ensures Abs() == BreakerNext(old(Abs()), threshold, timeout, BatchFailed(now))
    {
      errorCount := errorCount + 1;
      lastError := Some(now);
      if errorCount >= threshold {
        isOpen := true;
      }
    }

    /** An accepted event clears the error count but does not close the breaker. */
    method RecordSuccess()
      modifies this
      ensures Abs() == BreakerNext(old(Abs()), threshold, timeout, EventAccepted)
    {
      if errorCount > 0 {
        errorCount := 0;
      }
    }

    method RecordBackendSuccess()
      modifies this
      ensures Abs() == BreakerNext(old(Abs()), threshold, timeout, BatchDone)
    {
      if isOpen {
        isOpen := false;
      }
      errorCount := 0;
    }
  }

  // ---- retries ----

  /** The first successful answer from `attempt` on, within the allowed attempts. */
  function FirstAnswer(backend: Backend, flush: nat, attempt: nat): Option<nat>
    decreases MAX_RETRIES + 1 - attempt, backend
  {
    if attempt > MAX_RETRIES then None
    else if backend(flush, attempt).Some? then backend(flush, attempt)
    else FirstAnswer(backend, flush, attempt + 1)
  }

  lemma Pow2Small()
    ensures Pow2(8) == 256
  {
    Pow2Sum(4, 4);
    assert Pow2(4) == 16;
  }

  /** The wait after failed attempt `i + 1`, before the cap. */
  function Delay(i: nat, jitter: nat): nat {
    INITIAL_RETRY_DELAY * Pow2(i) + jitter / 2
  }

  lemma DelayUnderCap(i: nat, jitter: nat)
    requires i <= 8 && jitter < INITIAL_RETRY_DELAY
    ensures Delay(i, jitter) < MAX_RETRY_DELAY
  {
    Pow2Order(i, 8);
    Pow2Small();
  }

  lemma {:induction false} NoAnswerIff(backend: Backend, flush: nat, attempt: nat)
    requires 1 <= attempt <= 11
    ensures FirstAnswer(backend, flush, attempt).None? <==> forall k :: attempt <= k <= 10 ==> backend(flush, k).None?
    decreases 11 - attempt
  {
    if attempt <= 10 {
      NoAnswerIff(backend, flush, attempt + 1);
    }
  }

  /**
    At most ten attempts, stopping at the first success: the answer is an error only if all ten failed. Every
    failed attempt but the tenth waits, twice as long each time; the cap of thirty seconds is never reached.
  */
  method ProcessWithRetry(backend: Backend, flush: nat, jitter: nat -> nat)
    returns (answer: Option<nat>, delays: seq<nat>)
    requires forall i :: jitter(i) < INITIAL_RETRY_DELAY
    ensures answer == FirstAnswer(backend, flush, 1)
    ensures answer.None? <==> forall k :: 1 <= k <= 10 ==> backend(flush, k).None?
    ensures |delays| <= 9 && (answer.None? ==> |delays| == 9)
    ensures forall k :: 1 <= k <= |delays| ==> backend(flush, k).None?
    ensures answer.Some? ==> answer == backend(flush, |delays| + 1)
    ensures forall i :: 0 <= i < |delays| ==> delays[i] == 100 * Pow2(i) + jitter(i) / 2 && delays[i] < 30000
  {
    NoAnswerIff(backend, flush, 1);
    delays := [];
    for attempt := 1 to MAX_RETRIES + 1
      invariant |delays| == if attempt <= MAX_RETRIES then attempt - 1 else MAX_RETRIES - 1
      invariant FirstAnswer(backend, flush, 1) == FirstAnswer(backend, flush, attempt)
      invariant forall k :: 1 <= k <= |delays| ==> backend(flush, k).None?
      invariant forall i :: 0 <= i < |delays| ==> delays[i] == Delay(i, jitter(i)) && delays[i] < MAX_RETRY_DELAY
    {
      answer := backend(flush, attempt);
      if answer.Some? {
        return;
      }
      if attempt < MAX_RETRIES {
        DelayUnderCap(attempt - 1, jitter(attempt - 1));
        var delay := Delay(attempt - 1, jitter(attempt - 1));
        delays := delays + [if delay < MAX_RETRY_DELAY then delay else MAX_RETRY_DELAY];
      }
    }
    answer := None;
  }

  // ---- batches ----

  /** A sequence cut into batches of the maximal size, the last one possibly shorter. */
  function Chunks(s: seq<Event>): seq<seq<Event>> {
    if s == [] then []
    else if |s| <= MAX_BATCH_SIZE then [s]
    else [s[..MAX_BATCH_SIZE]] + Chunks(s[MAX_BATCH_SIZE..])
  }

  lemma ChunksFirst(done: seq<seq<Event>>, x: seq<Event>, y: seq<Event>)
    requires 0 < |x| <= MAX_BATCH_SIZE && (|x| == MAX_BATCH_SIZE || y == [])
    ensures done + Chunks(x + y) == done + [x] + Chunks(y)
  {
    if y == [] {
      assert x + y == x;
    } else {
      assert (x + y)[..MAX_BATCH_SIZE] == x && (x + y)[MAX_BATCH_SIZE..] == y;
    }
  }

  /** Nothing is lost or reordered, every batch but the last has 10000 events, and the last has 1 to 10000. */
  lemma {:induction false} ChunksCut(s: seq<Event>)
    ensures Joined(Chunks(s)) == s
    ensures forall i :: 0 <= i < |Chunks(s)| - 1 ==> |Chunks(s)[i]| == 10000
    ensures s != [] ==> Chunks(s) != [] && 0 < |Chunks(s)[|Chunks(s)| - 1]| <= 10000
    decreases |s|
  {
    if |s| > MAX_BATCH_SIZE {
      ChunksCut(s[MAX_BATCH_SIZE..]);
    }
  }

  function Joined(batches: seq<seq<Event>>): seq<Event> {
    if batches == [] then [] else batches[0] + Joined(batches[1..])
  }

  datatype AddError = BreakerOpen | MemoryLimit | AtCapacity

  datatype AddResult = Added | Failed(error: AddError)

  class EventBuffer {
    const capacity: nat
    const batchSize: nat
    const breaker: CircuitBreaker
    var free: nat
    var channel: seq<Event>
    var buffer: seq<Event>
    var permitsHeld: nat
    var memoryUsage: nat
    var stats: Stats
    /** Numbers the flushes, to tell the backend's answers apart. */
    var flushes: nat
    ghost var accepted: seq<Event>
    ghost var delivered: seq<seq<Event>>
    ghost var decided: nat
    ghost var overReported: nat
    ghost var memoryReset: bool
    ghost var sizeReset: bool

    /** The protocol state at a place of the consumer's loops, with no producer inside `add_event`. */
    ghost function Abs(phase: Phase): State
      reads this
    {
      State(capacity, batchSize, free, [], [], channel, buffer, permitsHeld, phase, memoryUsage, stats,
            accepted, delivered, decided, overReported, memoryReset, sizeReset)
    }

    constructor (capacity: nat, batchSize: nat, breaker: CircuitBreaker)
      ensures this.breaker == breaker && Abs(Select) == Initial(capacity, batchSize)
    {
      this.capacity := capacity;
      this.batchSize := batchSize;
      this.breaker := breaker;
      free := capacity;
      channel := [];
      buffer := [];
      permitsHeld := 0;
      memoryUsage := 0;
      stats := Stats(0, 0, 0, 0, 0, 0, 0);
      flushes := 0;
      accepted := [];
      delivered := [];
      decided := 0;
      overReported := 0;
      memoryReset := false;
      sizeReset := false;
    }

    method Drop(underPressure: bool)
      modifies this`stats, this`decided
      ensures Abs(Select) == Next(old(Abs(Select)), Refuse(underPressure))
    {
      stats := stats.(dropped := stats.dropped + 1,
                      backpressure := stats.backpressure + if underPressure then 1 else 0);
      decided := decided + 1;
    }

    /** The checks before an event is sent; success leaves the caller with a permit. */
    method Admit(e: Event, now: nat) returns (r: AddResult)
      modifies this`free, breaker
      ensures r == if OpenAt(old(breaker.Abs()), breaker.timeout, now) then Failed(BreakerOpen)
                   else if memoryUsage + e.bytes > 1000 * 1024 * 1024 then Failed(MemoryLimit)
                   else if old(free) == 0 then Failed(AtCapacity) else Added
      ensures free == if r == Added then old(free) - 1 else old(free)
    {
      var open := breaker.IsOpen(now);
      if open {
        return Failed(BreakerOpen);
      }
      if memoryUsage + e.bytes > MAX_MEMORY_BYTES {
        return Failed(MemoryLimit);
      }
      var available := free;
      if available > capacity / FAST_PATH_THRESHOLD {
        free := free - 1;
      } else if available > 0 {
        free := free - 1;
      } else {
        return Failed(AtCapacity);
      }
      return Added;
    }

    /** Sends an event that holds a permit and counts it. */
    method SendAndCount(e: Event)
      modifies this`channel, this`accepted, this`decided, this`stats, this`memoryUsage, breaker
      ensures Abs(Select) == Accepted(old(Abs(Select)), e).(free := free)
    {
      channel := channel + [e];
      accepted := accepted + [e];
      decided := decided + 1;
      stats := stats.(received := stats.received + 1, currentSize := stats.currentSize + 1);
      memoryUsage := memoryUsage + e.bytes;
      breaker.RecordSuccess();
    }

    /**
      One call on its own. It is added exactly when the breaker is closed, memory suffices and a permit is
      free; the tiers of the permit strategy make no difference then.
    */
    method AddEvent(e: Event, now: nat) returns (r: AddResult, ghost trace: seq<Action>)
      requires |channel| + permitsHeld + free == capacity
      modifies this, breaker
      ensures r == if OpenAt(old(breaker.Abs()), breaker.timeout, now) then Failed(BreakerOpen)
                   else if old(memoryUsage) + e.bytes > 1000 * 1024 * 1024 then Failed(MemoryLimit)
                   else if old(free) == 0 then Failed(AtCapacity) else Added
      ensures trace == if r == Added then [Acquire(e), Send(0), Account(0)] else [Refuse(r.error == AtCapacity)]
      ensures Leads(old(Abs(Select)), trace, Abs(Select))
      ensures decided == old(decided) + 1 && buffer == old(buffer)
    {
      ghost var start := Abs(Select);
      r := Admit(e, now);
      if r == Added {
        SendAndCount(e);
        trace := [Acquire(e), Send(0), Account(0)];
        AddedRun(start, e);
      } else {
        Drop(r.error == AtCapacity);
        trace := [Refuse(r.error == AtCapacity)];
        LeadsOne(start, Refuse(r.error == AtCapacity));
      }
    }

    method LowerSize(count: nat)
      modifies this`stats, this`sizeReset
      ensures stats == old(stats).(currentSize := Lower(old(stats).currentSize, count))
      ensures sizeReset == (old(sizeReset) || old(stats).currentSize < count)
    {
      sizeReset := sizeReset || stats.currentSize < count;
      var oldSize := stats.currentSize;
      if oldSize >= count {
        stats := stats.(currentSize := oldSize - count);
      } else {
        stats := stats.(currentSize := 0);
      }
    }

    /** Counts the backend's answer for a batch of `count` events. */
    method CountBatch(count: nat, answer: Option<nat>, retries: nat, now: nat)
      modifies this`stats, this`overReported, this`sizeReset, breaker
      ensures stats == CountAnswer(old(stats), count, answer, retries)
      ensures answer.None? ==>
                && stats.processed == old(stats.processed) && stats.dropped == old(stats.dropped) + count
                && stats.errors == old(stats.errors) + count
      ensures answer.Some? ==>
                && stats.processed == old(stats.processed) + answer.value && stats.errors == old(stats.errors)
                && stats.dropped == old(stats.dropped) + if answer.value < count then count - answer.value else 0
      ensures overReported == old(overReported) + if answer.Some? then Lower(answer.value, count) else 0
      ensures sizeReset == (old(sizeReset) || old(stats).currentSize < count)
      ensures breaker.Abs() == BreakerNext(old(breaker.Abs()), breaker.threshold, breaker.timeout,
                                           if answer.Some? then BatchDone else BatchFailed(now))
    {
      stats := stats.(retries := stats.retries + retries);
      if answer.Some? {
        var processed := answer.value;
        overReported := overReported + Lower(processed, count);
        if processed < count {
          stats := stats.(dropped := stats.dropped + (count - processed));
        }
        stats := stats.(processed := stats.processed + processed);
        LowerSize(count);
        breaker.RecordBackendSuccess();
      } else {
        breaker.RecordError(now);
        stats := stats.(errors := stats.errors + count, dropped := stats.dropped + count);
        LowerSize(count);
      }
    }

    /** Lowers the memory counter, then gives all held permits back. */
    method Release(memoryToRelease: nat)
      modifies this`memoryUsage, this`memoryReset, this`free, this`permitsHeld
      ensures memoryUsage == Lower(old(memoryUsage), memoryToRelease)
      ensures memoryReset == (old(memoryReset) || old(memoryUsage) < memoryToRelease)
      ensures free == old(free) + old(permitsHeld) && permitsHeld == 0
    {
      memoryReset := memoryReset || memoryUsage < memoryToRelease;
      var oldMemory := memoryUsage;
      if oldMemory >= memoryToRelease {
        memoryUsage := oldMemory - memoryToRelease;
      } else {
        memoryUsage := 0;
      }
      free := free + permitsHeld;
      permitsHeld := 0;
    }

    /** Counts the answer, releases the memory and then the permits. */
    method CountAndRelease(batch: seq<Event>, answer: Option<nat>, retries: nat, now: nat)
      modifies this`stats, this`overReported, this`sizeReset, breaker
      modifies this`memoryUsage, this`memoryReset, this`free, this`permitsHeld
      ensures breaker.Abs() == BreakerNext(old(breaker.Abs()), breaker.threshold, breaker.timeout,
                                           if answer.Some? then BatchDone else BatchFailed(now))
      ensures forall phase: Phase :: phase.Processing? && phase.batch == batch ==>
                Abs(PhaseAfter(phase.resume)) == Finished(old(Abs(phase)), answer, retries)
    {
      var memoryToRelease := Bytes(batch);
      CountBatch(|batch|, answer, retries, now);
      Release(memoryToRelease);
    }

    /** Has a batch processed and finishes it. */
    method FinishBatch(batch: seq<Event>, backend: Backend, jitter: nat -> nat, now: nat)
      returns (answer: Option<nat>, retries: nat)
      requires forall i :: jitter(i) < INITIAL_RETRY_DELAY
      modifies this`stats, this`overReported, this`sizeReset, this`flushes, breaker
      modifies this`memoryUsage, this`memoryReset, this`free, this`permitsHeld
      ensures flushes == old(flushes) + 1
      ensures retries <= 9 && forall k :: 1 <= k <= retries ==> backend(old(flushes), k).None?
      ensures if answer.Some? then answer == backend(old(flushes), retries + 1)
              else retries == 9 && backend(old(flushes), 10).None?
      ensures breaker.Abs() == BreakerNext(old(breaker.Abs()), breaker.threshold, breaker.timeout,
                                           if answer.Some? then BatchDone else BatchFailed(now))
      ensures forall phase: Phase :: phase.Processing? && phase.batch == batch ==>
                Abs(PhaseAfter(phase.resume)) == Finished(old(Abs(phase)), answer, retries)
    {
      var delays;
      answer, delays := ProcessWithRetry(backend, flushes, jitter);
      retries := |delays|;
      flushes := flushes + 1;
      CountAndRelease(batch, answer, retries, now);
    }

    /** Hands the buffer over as one batch and finishes it. */
    method FlushBuffer(backend: Backend, jitter: nat -> nat, now: nat, ghost resume: Resume)
      returns (ghost trace: seq<Action>)
      requires buffer != [] && forall i :: jitter(i) < INITIAL_RETRY_DELAY
      modifies this, breaker
      ensures Leads(BeginFlush(old(Abs(Select)), resume), trace, Abs(PhaseAfter(resume)))
      ensures buffer == [] && channel == old(channel) && accepted == old(accepted) && decided == old(decided)
      ensures delivered == old(delivered) + [old(buffer)]
      ensures |trace| == 3 && trace[0].BackendDone? && trace[0].retries <= 9
      ensures forall k :: 1 <= k <= trace[0].retries ==> backend(old(flushes), k).None?
      ensures if trace[0].answer.Some? then trace[0].answer == backend(old(flushes), trace[0].retries + 1)
              else trace[0].retries == 9 && backend(old(flushes), 10).None?
    {
      ghost var start := BeginFlush(Abs(Select), resume);
      var batch := buffer;
      buffer := [];
      delivered := delivered + [batch];
      assert Abs(Processing(batch, resume)) == start;
      var answer, retries := FinishBatch(batch, backend, jitter, now);
      trace := [BackendDone(answer, retries), ReleaseMemory, ReleasePermits];
      FlushedRun(start, answer, retries);
    }

    /** Takes from the channel what is there, up to the room left in the buffer. */
    method TakeAvailable(room: nat) returns (drained: nat, ghost trace: seq<Action>)
      modifies this
      ensures drained <= room && Leads(old(Abs(Receiving(room, 0))), trace, Abs(Receiving(room - drained, drained)))
      ensures drained == if room <= |old(channel)| then room else |old(channel)|
      ensures buffer + channel == old(buffer + channel) && |channel| + drained == |old(channel)|
      ensures accepted == old(accepted) && decided == old(decided) && delivered == old(delivered)
    {
      ghost var start := Abs(Receiving(room, 0));
      drained := 0;
      trace := [];
      while drained < room && channel != []
        invariant drained <= room && drained <= |start.channel|
        invariant Leads(start, trace, Abs(Receiving(room - drained, drained)))
        invariant buffer + channel == start.buffer + start.channel && |channel| + drained == |start.channel|
        invariant accepted == start.accepted && decided == start.decided && delivered == start.delivered
      {
        LeadsAdd(start, trace, Abs(Receiving(room - drained, drained)), TryReceive);
        trace := trace + [TryReceive];
        buffer := buffer + [channel[0]];
        channel := channel[1..];
        permitsHeld := permitsHeld + 1;
        drained := drained + 1;
      }
    }

    /** A flush that must not reorder: the batch is full, or nothing is left in the channel. */
    method FlushChunk(backend: Backend, jitter: nat -> nat, now: nat, ghost resume: Resume)
      returns (ghost trace: seq<Action>)
      requires 0 < |buffer| <= MAX_BATCH_SIZE && (|buffer| == MAX_BATCH_SIZE || channel == [])
      requires forall i :: jitter(i) < INITIAL_RETRY_DELAY
      modifies this, breaker
      ensures Leads(BeginFlush(old(Abs(Select)), resume), trace, Abs(PhaseAfter(resume)))
      ensures buffer == [] && channel == old(channel) && accepted == old(accepted) && decided == old(decided)
      ensures delivered + Chunks(channel) == old(delivered + Chunks(buffer + channel))
    {
      ChunksFirst(delivered, buffer, channel);
      trace := FlushBuffer(backend, jitter, now, resume);
    }

    /** The part of a drain round after something was, or was not, taken from the channel. */
    method EndRound(drained: nat, ghost room: nat, backend: Backend, jitter: nat -> nat, now: nat)
      returns (ghost trace: seq<Action>)
      requires |buffer| <= MAX_BATCH_SIZE && forall i :: jitter(i) < INITIAL_RETRY_DELAY
      requires |buffer| + room == MAX_BATCH_SIZE && (room == 0 || channel == [])
      modifies this, breaker
      ensures Leads(old(Abs(Receiving(room, drained))), trace, Abs(if drained == 0 then Select else DrainTop))
      ensures |buffer| <= MAX_BATCH_SIZE && channel == old(channel)
      ensures accepted == old(accepted) && decided == old(decided)
      ensures delivered + Chunks(buffer + channel) == old(delivered + Chunks(buffer + channel))
      ensures drained == 0 ==> buffer == []
    {
      ghost var start := Abs(Receiving(room, drained));
      trace := [EndReceiving];
      LeadsOne(start, EndReceiving);
      if buffer != [] && (drained == 0 || |buffer| >= MAX_BATCH_SIZE) {
        ghost var mid := Next(start, EndReceiving);
        ghost var flush := FlushChunk(backend, jitter, now, if drained == 0 then ToSelect else ToDrain);
        LeadsConcat(start, trace, mid, flush, Abs(if drained == 0 then Select else DrainTop));
        trace := trace + flush;
        assert buffer + channel == channel;
      }
    }

    /** One round of the drain loop; `more` is false when the loop ends. */
    method DrainRound(backend: Backend, jitter: nat -> nat, now: nat) returns (more: bool, ghost trace: seq<Action>)
      requires |buffer| <= MAX_BATCH_SIZE && forall i :: jitter(i) < INITIAL_RETRY_DELAY
      modifies this, breaker
      ensures Leads(old(Abs(DrainTop)), trace, Abs(if more then DrainTop else Select))
      ensures |buffer| <= MAX_BATCH_SIZE && accepted == old(accepted) && decided == old(decided)
      ensures delivered + Chunks(buffer + channel) == old(delivered + Chunks(buffer + channel))
      ensures if more then |channel| < |old(channel)| || (channel == old(channel) && |buffer| < |old(buffer)|)
              else buffer == [] && channel == []
    {
      ghost var start := Abs(DrainTop);
      var room := if MAX_BATCH_SIZE >= |buffer| then MAX_BATCH_SIZE - |buffer| else 0;
      ghost var mid := Next(start, StartDrain);
      LeadsOne(start, StartDrain);
      if room == 0 {
        assert mid == BeginFlush(Abs(Select), ToDrain);
        ghost var flush := FlushChunk(backend, jitter, now, ToDrain);
        LeadsConcat(start, [StartDrain], mid, flush, Abs(DrainTop));
        trace := [StartDrain] + flush;
        assert buffer + channel == channel;
        more := true;
      } else {
        assert mid == Abs(Receiving(room, 0));
        var drained, take := TakeAvailable(room);
        ghost var full := Abs(Receiving(room - drained, drained));
        ghost var end := EndRound(drained, room - drained, backend, jitter, now);
        more := drained != 0;
        LeadsConcat(start, [StartDrain], mid, take, full);
        LeadsConcat(start, [StartDrain] + take, full, end, Abs(if more then DrainTop else Select));
        trace := [StartDrain] + take + end;
      }
    }

    /**
      With no producer active the drain ends with buffer and channel empty, having handed over everything
      in order, cut into batches of the maximal size.
    */
    method DrainAndFlush(backend: Backend, jitter: nat -> nat, now: nat) returns (ghost trace: seq<Action>)
      requires |buffer| <= MAX_BATCH_SIZE && forall i :: jitter(i) < INITIAL_RETRY_DELAY
      modifies this, breaker
      ensures Leads(old(Abs(DrainTop)), trace, Abs(Select))
      ensures buffer == [] && channel == [] && accepted == old(accepted) && decided == old(decided)
      ensures delivered == old(delivered) + Chunks(old(buffer) + old(channel))
    {
      ghost var start := Abs(DrainTop);
      ghost var all := delivered + Chunks(buffer + channel);
      var more := true;
      trace := [];
      while more
        invariant Leads(start, trace, Abs(if more then DrainTop else Select))
        invariant |buffer| <= MAX_BATCH_SIZE && accepted == start.accepted && decided == start.decided
        invariant delivered + Chunks(buffer + channel) == all
        invariant !more ==> buffer == [] && channel == []
        decreases more, |channel|, |buffer|
      {
        ghost var mid := Abs(DrainTop);
        ghost var round;
        more, round := DrainRound(backend, jitter, now);
        LeadsConcat(start, trace, mid, round, Abs(if more then DrainTop else Select));
        trace := trace + round;
      }
      assert delivered + Chunks([] + []) == delivered;
    }

    /** The receive arm: one event from the channel, then a flush or a drain once the batch size is reached. */
    method ReceiveArm(backend: Backend, jitter: nat -> nat, now: nat) returns (ghost trace: seq<Action>)
      requires channel != [] && |buffer| < MAX_BATCH_SIZE && forall i :: jitter(i) < INITIAL_RETRY_DELAY
      modifies this, breaker
      ensures Leads(old(Abs(Select)), trace, Abs(Select))
      ensures |buffer| < MAX_BATCH_SIZE && (buffer == [] || |buffer| < batchSize)
      ensures |channel| < |old(channel)| && accepted == old(accepted) && decided == old(decided)
    {
      ghost var start := Abs(Select);
      buffer := buffer + [channel[0]];
      channel := channel[1..];
      permitsHeld := permitsHeld + 1;
      ghost var mid := AfterReceive(Abs(Select));
      assert mid == Next(start, Receive);
      LeadsOne(start, Receive);
      trace := [Receive];
      if |buffer| >= batchSize || |buffer| >= MAX_BATCH_SIZE {
        ghost var rest;
        if |buffer| >= MAX_BATCH_SIZE {
          rest := FlushBuffer(backend, jitter, now, ToSelect);
        } else {
          rest := DrainAndFlush(backend, jitter, now);
        }
        LeadsConcat(start, trace, mid, rest, Abs(Select));
        trace := trace + rest;
      }
    }

    /** The timer arm. */
    method TimerArm(backend: Backend, jitter: nat -> nat, now: nat) returns (ghost trace: seq<Action>)
      requires |buffer| < MAX_BATCH_SIZE && forall i :: jitter(i) < INITIAL_RETRY_DELAY
      modifies this, breaker
      ensures Leads(old(Abs(Select)), trace, Abs(Select))
      ensures buffer == [] && accepted == old(accepted) && decided == old(decided)
    {
      ghost var start := Abs(Select);
      trace := [];
      if buffer != [] {
        LeadsOne(start, FlushTimer);
        ghost var rest := DrainAndFlush(backend, jitter, now);
        LeadsConcat(start, [FlushTimer], Next(start, FlushTimer), rest, Abs(Select));
        trace := [FlushTimer] + rest;
      }
    }

    /** The arm of a closed channel. */
    method ClosedArm(backend: Backend, jitter: nat -> nat, now: nat) returns (ghost trace: seq<Action>)
      requires channel == [] && forall i :: jitter(i) < INITIAL_RETRY_DELAY
      modifies this, breaker
      ensures Leads(old(Abs(Select)), trace, Abs(Stopped))
      ensures buffer == [] && channel == [] && decided == old(decided)
    {
      ghost var start := Abs(Select);
      LeadsOne(start, ChannelClosed);
      trace := [ChannelClosed];
      if buffer != [] {
        ghost var rest := FlushBuffer(backend, jitter, now, ToStop);
        LeadsConcat(start, trace, Next(start, ChannelClosed), rest, Abs(Stopped));
        trace := trace + rest;
      }
    }

    /** What can wake the consumer or call the buffer, one after another. */
    method Serve(signal: Signal, backend: Backend, jitter: nat -> nat) returns (ghost trace: seq<Action>)
      requires |channel| + permitsHeld + free == capacity
      requires |buffer| < MAX_BATCH_SIZE && forall i :: jitter(i) < INITIAL_RETRY_DELAY
      modifies this, breaker
      ensures Leads(old(Abs(Select)), trace, Abs(Select))
      ensures |buffer| < MAX_BATCH_SIZE
      ensures decided == old(decided) + Calls([signal])
    {
      trace := [];
      match signal {
        case Call(e, now) =>
          var r;
          r, trace := AddEvent(e, now);
        case Wake(now) =>
          if channel != [] {
            trace := ReceiveArm(backend, jitter, now);
          }
        case Tick(now) =>
          trace := TimerArm(backend, jitter, now);
      }
      CallsOne(signal);
    }

    /**
      The whole life of a new buffer, with calls and wake-ups in any order and then the channel closed.
      Whatever the backend answers, every accepted event has been handed over once and in order, every
      permit is back, and every call is counted as processed or dropped, up to what the backend over-reported.
    */
    method Run(script: seq<Signal>, backend: Backend, jitter: nat -> nat, end: nat)
      returns (ghost trace: seq<Action>)
      requires Abs(Select) == Initial(capacity, batchSize) && forall i :: jitter(i) < INITIAL_RETRY_DELAY
      modifies this, breaker
      ensures Leads(Initial(capacity, batchSize), trace, Abs(Stopped))
      ensures Concat(delivered) == accepted && free == capacity
      ensures stats.processed + stats.dropped == Calls(script) + overReported
      ensures Tallied(Abs(Stopped), trace)
    {
      ghost var start := Abs(Select);
      trace := [];
      for i := 0 to |script|
        invariant Leads(start, trace, Abs(Select)) && |buffer| < MAX_BATCH_SIZE
        invariant decided == Calls(script[..i])
      {
        CountsPermits(start, trace, Abs(Select));
        ghost var mid := Abs(Select);
        ghost var served := Serve(script[i], backend, jitter);
        LeadsConcat(start, trace, mid, served, Abs(Select));
        trace := trace + served;
        assert script[..i + 1] == script[..i] + [script[i]];
        CallsConcat(script[..i], [script[i]]);
      }
      assert script[..|script|] == script;
      while channel != []
        invariant Leads(start, trace, Abs(Select)) && |buffer| < MAX_BATCH_SIZE
        invariant decided == Calls(script)
        decreases |channel|
      {
        ghost var mid := Abs(Select);
        ghost var received := ReceiveArm(backend, jitter, end);
        LeadsConcat(start, trace, mid, received, Abs(Select));
        trace := trace + received;
      }
      ghost var mid := Abs(Select);
      ghost var closed := ClosedArm(backend, jitter, end);
      LeadsConcat(start, trace, mid, closed, Abs(Stopped));
      trace := trace + closed;
      AtRestAccounts(capacity, batchSize, trace);
      RunKeepsInv(capacity, batchSize, trace);
      RunTallies(capacity, batchSize, trace);
    }
  }

  datatype Signal = Call(e: Event, at: nat) | Wake(at: nat) | Tick(at: nat)

  /** The number of `add_event` calls in a script. */
  function Calls(script: seq<Signal>): nat {
    if script == [] then 0 else (if script[0].Call? then 1 else 0) + Calls(script[1..])
  }

  lemma CallsOne(signal: Signal)
    ensures Calls([signal]) == if signal.Call? then 1 else 0
  {
    assert [signal][1..] == [];
  }

  lemma {:induction false} CallsConcat(s: seq<Signal>, t: seq<Signal>)
    ensures Calls(s + t) == Calls(s) + Calls(t)
  {
    if s == [] {
      assert s + t == t;
    } else {
      assert (s + t)[1..] == s[1..] + t;
      CallsConcat(s[1..], t);
    }
  }

  /** Between two signals every permit is free, in the channel or held by the consumer. */
  lemma CountsPermits(start: State, trace: seq<Action>, s: State)
    requires start == Initial(start.capacity, start.batchSize) && Leads(start, trace, s)
    ensures s.free + |s.permitted| + |s.channel| + s.permitsHeld == start.capacity
  {
    RunKeepsInv(start.capacity, start.batchSize, trace);
    CapacityStays(start, trace);
  }

  /** An event added by a producer that is alone. */
  function Accepted(s: State, e: Event): State {
    s.(free := Lower(s.free, 1), channel := s.channel + [e], accepted := s.accepted + [e],
       decided := s.decided + 1, memory := s.memory + e.bytes,
       stats := s.stats.(received := s.stats.received + 1, currentSize := s.stats.currentSize + 1))
  }

  /** Without other producers an accepted call is these three steps. */
  lemma AddedRun(s: State, e: Event)
    requires s.phase == Select && s.free > 0 && s.permitted == [] && s.sent == [] && |s.channel| < s.capacity
    ensures Leads(s, [Acquire(e), Send(0), Account(0)], Accepted(s, e))
  {
    var s1 := s.(free := s.free - 1, permitted := [e]);
    assert Next(s, Acquire(e)) == s1 by { assert [] + [e] == [e]; }
    assert Without([e], 0) == [];
    var s2 := s.(free := s.free - 1, sent := [e], channel := s.channel + [e], accepted := s.accepted + [e],
                 decided := s.decided + 1);
    assert Next(s1, Send(0)) == s2;
    assert Next(s2, Account(0)) == Accepted(s, e);
    LeadsThree(s, Acquire(e), Send(0), Account(0));
  }

  /** A batch flushed to the end while no producer interferes. */
  function Finished(s: State, answer: Option<nat>, retries: nat): State
    requires s.phase.Processing?
  {
    var n := |s.phase.batch|;
    var bytes := Bytes(s.phase.batch);
    s.(phase := PhaseAfter(s.phase.resume),
       stats := CountAnswer(s.stats, n, answer, retries),
       overReported := s.overReported + if answer.Some? then Lower(answer.value, n) else 0,
       sizeReset := s.sizeReset || s.stats.currentSize < n,
       memory := Lower(s.memory, bytes), memoryReset := s.memoryReset || s.memory < bytes,
       free := s.free + s.permitsHeld, permitsHeld := 0)
  }

  lemma FlushedRun(s: State, answer: Option<nat>, retries: nat)
    requires s.phase.Processing?
    ensures Leads(s, [BackendDone(answer, retries), ReleaseMemory, ReleasePermits], Finished(s, answer, retries))
  {
    var s1 := Next(s, BackendDone(answer, retries));
    var s2 := Next(s1, ReleaseMemory);
    assert Next(s2, ReleasePermits) == Finished(s, answer, retries);
    LeadsThree(s, BackendDone(answer, retries), ReleaseMemory, ReleasePermits);
  }
}
