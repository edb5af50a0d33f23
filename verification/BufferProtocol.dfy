/**
  The event buffer as a transition system (crates/buffer/src/lib.rs, lines 201-303 and 414-688): any
  number of producers inside `add_event`, a bounded channel, a permit semaphore and one batching consumer.
  Sending, the producer's accounting, the backend's answer, the release of memory and the release of
  permits are separate steps, interleaved in any order.
*/
module BufferProtocol {
  import opened Wrappers

  const MAX_BATCH_SIZE: nat := 10000
  const MAX_MEMORY_BYTES: nat := 1000 * 1024 * 1024

  /** An event and its estimated size. */
  datatype Event = Event(id: nat, bytes: nat)

  datatype Stats = Stats(
    received: nat,
    processed: nat,
    errors: nat,
    dropped: nat,
    retries: nat,
    currentSize: nat,
    backpressure: nat)

  /** Where the consumer goes after a flush. */
  datatype Resume = ToSelect | ToDrain | ToStop

  /** The consumer's place in its loops. */
  datatype Phase =
    | Select
    | DrainTop
    | Receiving(left: nat, drained: nat)
    | Processing(batch: seq<Event>, resume: Resume)
    | Counted(batch: seq<Event>, resume: Resume)
    | Released(batch: seq<Event>, resume: Resume)
    | Stopped

  /**
    `permitted` are calls that hold a permit and have not sent, `sent` those that have sent and not yet
    counted. `accepted`, `delivered`, `decided` and `overReported` are history: the events sent, the batches
    handed to the backend, the calls whose fate is decided, and what the backend claimed beyond its batches.
    The two flags remember whether a counter was reset to zero instead of being lowered.
  */
  datatype State = State(
    capacity: nat,
    batchSize: nat,
    free: nat,
    permitted: seq<Event>,
    sent: seq<Event>,
    channel: seq<Event>,
    buffer: seq<Event>,
    permitsHeld: nat,
    phase: Phase,
    memory: nat,
    stats: Stats,
    accepted: seq<Event>,
    delivered: seq<seq<Event>>,
    decided: nat,
    overReported: nat,
    memoryReset: bool,
    sizeReset: bool)

  datatype Action =
    | Refuse(underPressure: bool)
    | Acquire(e: Event)
    | Send(i: nat)
    | GiveUp(i: nat)
    | Account(i: nat)
    | Receive
    | FlushTimer
    | StartDrain
    | TryReceive
    | EndReceiving
    | BackendDone(answer: Option<nat>, retries: nat)
    | ReleaseMemory
    | ReleasePermits
    | ChannelClosed

  function Without(s: seq<Event>, i: nat): seq<Event>
    requires i < |s|
  {
    s[..i] + s[i + 1..]
  }

  /** Hands the whole buffer over as one batch. */
  function BeginFlush(s: State, resume: Resume): State {
    s.(buffer := [], phase := Processing(s.buffer, resume), delivered := s.delivered + [s.buffer])
  }

  function Lower(value: nat, amount: nat): nat {
    if value >= amount then value - amount else 0
  }

  /** Every sender is gone; no call can begin any more. */
  predicate Closing(s: State) {
    match s.phase
    case Processing(_, resume) => resume == ToStop
    case Counted(_, resume) => resume == ToStop
    case Released(_, resume) => resume == ToStop
    case Stopped => true
    case _ => false
  }

  predicate Enabled(s: State, act: Action) {
    match act
    case Refuse(_) => !Closing(s)
    case Acquire(_) => s.free > 0 && !Closing(s)
    case Send(i) => i < |s.permitted| && |s.channel| < s.capacity
    case GiveUp(i) => i < |s.permitted|
    case Account(i) => i < |s.sent|
    case Receive => s.phase == Select && s.channel != []
    case FlushTimer => s.phase == Select && s.buffer != []
    case StartDrain => s.phase == DrainTop
    case TryReceive => s.phase.Receiving? && s.phase.left > 0 && s.channel != []
    case EndReceiving => s.phase.Receiving? && (s.phase.left == 0 || s.channel == [])
    case BackendDone(_, _) => s.phase.Processing?
    case ReleaseMemory => s.phase.Counted?
    case ReleasePermits => s.phase.Released?
    case ChannelClosed => s.phase == Select && s.channel == [] && s.permitted == [] && s.sent == []
  }

  /** The first event of the channel has moved to the buffer, with its permit. */
  function Taking(s: State): State
    requires s.channel != []
  {
    s.(channel := s.channel[1..], buffer := s.buffer + [s.channel[0]], permitsHeld := s.permitsHeld + 1)
  }

  function AfterReceive(s: State): State {
    if |s.buffer| >= MAX_BATCH_SIZE then BeginFlush(s, ToSelect)
    else if |s.buffer| >= s.batchSize then s.(phase := DrainTop)
    else s
  }

  function AfterDrain(s: State, drained: nat): State {
    if s.buffer != [] && (drained == 0 || |s.buffer| >= MAX_BATCH_SIZE) then
      BeginFlush(s, if drained == 0 then ToSelect else ToDrain)
    else s.(phase := if drained == 0 then Select else DrainTop)
  }

  /** The counters after the backend answered for a batch of `n` events. */
  function CountAnswer(stats: Stats, n: nat, answer: Option<nat>, retries: nat): Stats {
    var lowered := stats.(currentSize := Lower(stats.currentSize, n), retries := stats.retries + retries);
    match answer
    case Some(done) =>
      lowered.(processed := stats.processed + done, dropped := stats.dropped + Lower(n, done))
    case None =>
      lowered.(errors := stats.errors + n, dropped := stats.dropped + n)
  }

  function PhaseAfter(resume: Resume): Phase {
    match resume
    case ToSelect => Select
    case ToDrain => DrainTop
    case ToStop => Stopped
  }

  function Next(s: State, act: Action): State
    requires Enabled(s, act)
  {
    match act
    case Refuse(underPressure) =>
      s.(decided := s.decided + 1,
         stats := s.stats.(dropped := s.stats.dropped + 1,
                           backpressure := s.stats.backpressure + if underPressure then 1 else 0))
    case Acquire(e) => s.(free := s.free - 1, permitted := s.permitted + [e])
    case Send(i) =>
      var e := s.permitted[i];
      s.(permitted := Without(s.permitted, i), sent := s.sent + [e], channel := s.channel + [e],
         accepted := s.accepted + [e], decided := s.decided + 1)
    case GiveUp(i) =>
      s.(permitted := Without(s.permitted, i), free := s.free + 1, decided := s.decided + 1,
         stats := s.stats.(dropped := s.stats.dropped + 1, backpressure := s.stats.backpressure + 1))
    case Account(i) =>
      s.(sent := Without(s.sent, i), memory := s.memory + s.sent[i].bytes,
         stats := s.stats.(received := s.stats.received + 1, currentSize := s.stats.currentSize + 1))
    case Receive =>
      AfterReceive(Taking(s))
    case FlushTimer => s.(phase := DrainTop)
    case StartDrain =>
      if |s.buffer| >= MAX_BATCH_SIZE then BeginFlush(s, ToDrain)
      else s.(phase := Receiving(MAX_BATCH_SIZE - |s.buffer|, 0))
    case TryReceive =>
      Taking(s).(phase := Receiving(s.phase.left - 1, s.phase.drained + 1))
    case EndReceiving => AfterDrain(s, s.phase.drained)
    case BackendDone(answer, retries) =>
      var n := |s.phase.batch|;
      s.(phase := Counted(s.phase.batch, s.phase.resume),
         stats := CountAnswer(s.stats, n, answer, retries),
         overReported := s.overReported + if answer.Some? then Lower(answer.value, n) else 0,
         sizeReset := s.sizeReset || s.stats.currentSize < n)
    case ReleaseMemory =>
      var n := Bytes(s.phase.batch);
      s.(phase := Released(s.phase.batch, s.phase.resume),
         memory := Lower(s.memory, n), memoryReset := s.memoryReset || s.memory < n)
    case ReleasePermits =>
      s.(phase := PhaseAfter(s.phase.resume), free := s.free + s.permitsHeld, permitsHeld := 0)
    case ChannelClosed =>
      if s.buffer == [] then s.(phase := Stopped) else BeginFlush(s, ToStop)
  }

  predicate Runs(s: State, acts: seq<Action>)
    decreases |acts|
  {
    acts == [] || (Enabled(s, acts[0]) && Runs(Next(s, acts[0]), acts[1..]))
  }

  function After(s: State, acts: seq<Action>): State
    requires Runs(s, acts)
    decreases |acts|
  {
    if acts == [] then s else After(Next(s, acts[0]), acts[1..])
  }

  function Initial(capacity: nat, batchSize: nat): State {
    State(capacity, batchSize, capacity, [], [], [], [], 0, Select, 0, Stats(0, 0, 0, 0, 0, 0, 0),
          [], [], 0, 0, false, false)
  }

  // ---- sums ----

  function Bytes(s: seq<Event>): nat {
    if s == [] then 0 else s[0].bytes + Bytes(s[1..])
  }

  lemma {:induction false} BytesConcat(s: seq<Event>, t: seq<Event>)
    ensures Bytes(s + t) == Bytes(s) + Bytes(t)
  {
    if s == [] {
      assert s + t == t;
    } else {
      assert (s + t)[1..] == s[1..] + t;
      BytesConcat(s[1..], t);
    }
  }

  lemma BytesOne(e: Event)
    ensures Bytes([e]) == e.bytes
  {
    assert [e][1..] == [];
  }

  lemma {:induction false} BytesWithout(s: seq<Event>, i: nat)
    requires i < |s|
    ensures Bytes(s) == Bytes(Without(s, i)) + s[i].bytes
  {
    if i == 0 {
      assert Without(s, 0) == s[1..];
    } else {
      assert Without(s, i) == [s[0]] + Without(s[1..], i - 1);
      assert Without(s, i)[1..] == Without(s[1..], i - 1);
      BytesWithout(s[1..], i - 1);
    }
  }

  lemma BytesFirst(s: seq<Event>)
    requires s != []
    ensures Bytes(s) == s[0].bytes + Bytes(s[1..])
  {
  }

  lemma BytesLast(s: seq<Event>, e: Event)
    ensures Bytes(s + [e]) == Bytes(s) + e.bytes
  {
    BytesConcat(s, [e]);
    BytesOne(e);
  }

  /** All batches, end to end. */
  function Concat(batches: seq<seq<Event>>): seq<Event> {
    if batches == [] then [] else Concat(batches[..|batches| - 1]) + batches[|batches| - 1]
  }

  lemma ConcatAdd(batches: seq<seq<Event>>, b: seq<Event>)
    ensures Concat(batches + [b]) == Concat(batches) + b
  {
    assert (batches + [b])[..|batches|] == batches;
  }

  // ---- the invariants ----

  /** Events taken from the buffer whose fate the counters do not show yet. */
  function Uncounted(s: State): seq<Event> {
    if s.phase.Processing? then s.phase.batch else []
  }

  /** Events taken from the buffer whose memory is still counted. */
  function Unreleased(s: State): seq<Event> {
    if s.phase.Processing? || s.phase.Counted? then s.phase.batch else []
  }

  /** Events taken from the buffer whose permits are still held. */
  function InFlight(s: State): seq<Event> {
    if s.phase.Processing? || s.phase.Counted? || s.phase.Released? then s.phase.batch else []
  }

  /** The batches, then the buffer, then the channel: every accepted event once, in order. */
  predicate InOrder(s: State) {
    Concat(s.delivered) + s.buffer + s.channel == s.accepted
  }

  predicate BatchesFit(s: State) {
    forall b :: b in s.delivered ==> 0 < |b| <= MAX_BATCH_SIZE
  }

  /** What each place of the consumer's loops knows about the buffer. */
  predicate BufferFits(s: State) {
    && |s.buffer| <= MAX_BATCH_SIZE
    && (s.phase == Select ==> |s.buffer| < MAX_BATCH_SIZE)
    && (s.phase.Receiving? ==> |s.buffer| + s.phase.left == MAX_BATCH_SIZE && s.phase.drained <= |s.buffer|)
    && (s.phase.Receiving? ==> s.phase.left + s.phase.drained > 0)
    && (s.phase.Processing? || s.phase.Counted? || s.phase.Released? || s.phase == Stopped ==> s.buffer == [])
    && (s.phase.Processing? ==> s.phase.batch != [])
  }

  /** Every permit is free, or travels with one event. */
  predicate PermitsConserved(s: State) {
    && s.permitsHeld == |s.buffer| + |InFlight(s)|
    && s.free + |s.permitted| + |s.channel| + s.permitsHeld == s.capacity
  }

  /** Every decided call is processed, dropped or still waiting, up to what the backend over-reported. */
  predicate EventsConserved(s: State) {
    s.stats.processed + s.stats.dropped + |s.channel| + |s.buffer| + |Uncounted(s)| == s.decided + s.overReported
  }

  /** Memory counted or about to be counted, beyond the bytes that are waiting. */
  function MemorySlack(s: State): int {
    s.memory + Bytes(s.sent) - (Bytes(s.channel) + Bytes(s.buffer) + Bytes(Unreleased(s)))
  }

  /** The same for the event count. */
  function SizeSlack(s: State): int {
    s.stats.currentSize + |s.sent| - (|s.channel| + |s.buffer| + |Uncounted(s)|)
  }

  /** The memory counter never lags behind, and is exact exactly until it is first reset. */
  predicate MemoryAccounted(s: State) {
    MemorySlack(s) >= 0 && (MemorySlack(s) == 0 <==> !s.memoryReset)
  }

  predicate SizeAccounted(s: State) {
    SizeSlack(s) >= 0 && (SizeSlack(s) == 0 <==> !s.sizeReset)
  }

  predicate Inv(s: State) {
    && InOrder(s)
    && BatchesFit(s)
    && BufferFits(s)
    && PermitsConserved(s)
    && EventsConserved(s)
    && MemoryAccounted(s)
    && SizeAccounted(s)
  }

  lemma InitialInv(capacity: nat, batchSize: nat)
    ensures Inv(Initial(capacity, batchSize))
  {
  }

  // ---- each invariant over one step ----

  lemma MoveFirst(x: seq<Event>, buffer: seq<Event>, channel: seq<Event>)
    requires channel != []
    ensures x + (buffer + [channel[0]]) + channel[1..] == x + buffer + channel
  {
  }

  lemma FlushKeepsOrder(s: State, resume: Resume)
    requires InOrder(s)
    ensures InOrder(BeginFlush(s, resume))
  {
    ConcatAdd(s.delivered, s.buffer);
    assert Concat(s.delivered) + s.buffer + [] == Concat(s.delivered) + s.buffer;
  }

  lemma TakeKeepsOrder(s: State)
    requires InOrder(s) && s.channel != []
    ensures InOrder(Taking(s))
  {
    MoveFirst(Concat(s.delivered), s.buffer, s.channel);
  }

  lemma OrderStep(s: State, act: Action)
    requires InOrder(s) && Enabled(s, act)
    ensures InOrder(Next(s, act))
  {
    match act {
      case Send(i) =>
        var x := Concat(s.delivered) + s.buffer;
        assert x + (s.channel + [s.permitted[i]]) == x + s.channel + [s.permitted[i]];
      case Receive =>
        TakeKeepsOrder(s);
        FlushKeepsOrder(Taking(s), ToSelect);
      case TryReceive =>
        TakeKeepsOrder(s);
      case StartDrain => FlushKeepsOrder(s, ToDrain);
      case EndReceiving => FlushKeepsOrder(s, if s.phase.drained == 0 then ToSelect else ToDrain);
      case ChannelClosed => FlushKeepsOrder(s, ToStop);
      case _ =>
    }
  }

  lemma BatchStep(s: State, act: Action)
    requires BatchesFit(s) && BufferFits(s) && Enabled(s, act)
    ensures BatchesFit(Next(s, act)) && BufferFits(Next(s, act))
  {
  }

  /** The steps of the consumer's loops. */
  predicate OfConsumer(act: Action) {
    !(act.Refuse? || act.Acquire? || act.Send? || act.GiveUp? || act.Account?)
  }

  lemma PermitStepProducer(s: State, act: Action)
    requires PermitsConserved(s) && Enabled(s, act) && !OfConsumer(act)
    ensures PermitsConserved(Next(s, act))
  {
  }

  lemma PermitStepConsumer(s: State, act: Action)
    requires PermitsConserved(s) && BufferFits(s) && Enabled(s, act) && OfConsumer(act)
    ensures PermitsConserved(Next(s, act))
  {
  }

  lemma PermitStep(s: State, act: Action)
    requires PermitsConserved(s) && BufferFits(s) && Enabled(s, act)
    ensures PermitsConserved(Next(s, act))
  {
    if OfConsumer(act) {
      PermitStepConsumer(s, act);
    } else {
      PermitStepProducer(s, act);
    }
  }

  lemma EventStep(s: State, act: Action)
    requires EventsConserved(s) && BufferFits(s) && Enabled(s, act)
    ensures EventsConserved(Next(s, act))
  {
  }

  lemma SizeStep(s: State, act: Action)
    requires SizeAccounted(s) && BufferFits(s) && Enabled(s, act)
    ensures SizeAccounted(Next(s, act))
  {
  }

  lemma SendSlack(s: State, i: nat)
    requires Enabled(s, Send(i))
    ensures MemorySlack(Next(s, Send(i))) == MemorySlack(s)
  {
    BytesLast(s.sent, s.permitted[i]);
    BytesLast(s.channel, s.permitted[i]);
  }

  lemma TakeSlack(s: State)
    requires s.channel != []
    ensures Bytes(s.channel[1..]) + Bytes(s.buffer + [s.channel[0]]) == Bytes(s.channel) + Bytes(s.buffer)
  {
    BytesFirst(s.channel);
    BytesLast(s.buffer, s.channel[0]);
  }

  lemma HandOverSlack(s: State, act: Action)
    requires BufferFits(s) && Enabled(s, act) && (act.StartDrain? || act.EndReceiving? || act.ChannelClosed?)
    ensures MemorySlack(Next(s, act)) == MemorySlack(s)
  {
  }

  lemma ReceiveSlack(s: State, act: Action)
    requires BufferFits(s) && Enabled(s, act) && (act.Receive? || act.TryReceive?)
    ensures MemorySlack(Next(s, act)) == MemorySlack(s)
  {
    TakeSlack(s);
  }

  /** The slack of the memory counter changes only when the counter is reset, and then it grows. */
  lemma MemorySlackStep(s: State, act: Action)
    requires BufferFits(s) && Enabled(s, act)
    ensures MemorySlack(Next(s, act))
         == MemorySlack(s)
            + if act.ReleaseMemory? && s.memory < Bytes(s.phase.batch) then Bytes(s.phase.batch) - s.memory else 0
  {
    if act.StartDrain? || act.EndReceiving? || act.ChannelClosed? {
      HandOverSlack(s, act);
    } else if act.Receive? || act.TryReceive? {
      ReceiveSlack(s, act);
    } else if act.Send? {
      SendSlack(s, act.i);
    } else if act.Account? {
      BytesWithout(s.sent, act.i);
    }
  }

  lemma MemoryStep(s: State, act: Action)
    requires MemoryAccounted(s) && BufferFits(s) && Enabled(s, act)
    ensures MemoryAccounted(Next(s, act))
  {
    MemorySlackStep(s, act);
  }

  lemma StepKeepsInv(s: State, act: Action)
    requires Inv(s) && Enabled(s, act)
    ensures Inv(Next(s, act))
  {
    OrderStep(s, act);
    BatchStep(s, act);
    PermitStep(s, act);
    EventStep(s, act);
    MemoryStep(s, act);
    SizeStep(s, act);
  }

  lemma {:induction false} RunFrom(s: State, acts: seq<Action>)
    requires Inv(s) && Runs(s, acts)
    ensures Inv(After(s, acts))
    decreases |acts|
  {
    if acts != [] {
      StepKeepsInv(s, acts[0]);
      RunFrom(Next(s, acts[0]), acts[1..]);
    }
  }

  /** Order, batch bounds, permit and event conservation and accounting hold in every reachable state. */
  lemma RunKeepsInv(capacity: nat, batchSize: nat, acts: seq<Action>)
    requires Runs(Initial(capacity, batchSize), acts)
    ensures Inv(After(Initial(capacity, batchSize), acts))
  {
    InitialInv(capacity, batchSize);
    RunFrom(Initial(capacity, batchSize), acts);
  }

  // ---- what follows in every reachable state ----

  /** A producer that holds a permit always finds room: a send never waits and never times out. */
  lemma ChannelNeverFullAtSend(capacity: nat, batchSize: nat, acts: seq<Action>, i: nat)
    requires Runs(Initial(capacity, batchSize), acts)
    requires i < |After(Initial(capacity, batchSize), acts).permitted|
    ensures Enabled(After(Initial(capacity, batchSize), acts), Send(i))
  {
    RunKeepsInv(capacity, batchSize, acts);
    CapacityStays(Initial(capacity, batchSize), acts);
  }

  lemma {:induction false} CapacityStays(s: State, acts: seq<Action>)
    requires Runs(s, acts)
    ensures After(s, acts).capacity == s.capacity
    decreases |acts|
  {
    if acts != [] {
      CapacityStays(Next(s, acts[0]), acts[1..]);
    }
  }

  /** Events sent and not yet flushed to the end never exceed the capacity. */
  lemma WithinCapacity(capacity: nat, batchSize: nat, acts: seq<Action>)
    requires Runs(Initial(capacity, batchSize), acts)
    ensures
      var s := After(Initial(capacity, batchSize), acts);
      |s.channel| + |s.buffer| + |InFlight(s)| <= capacity
  {
    RunKeepsInv(capacity, batchSize, acts);
    CapacityStays(Initial(capacity, batchSize), acts);
  }

  /** The end of a flush gives back exactly the permits of its batch. */
  lemma FlushReturnsItsPermits(s: State)
    requires Inv(s) && Enabled(s, ReleasePermits)
    ensures Next(s, ReleasePermits).free == s.free + |s.phase.batch|
  {
  }

  /** Nothing is waiting anywhere and no producer is inside `add_event`. */
  predicate AtRest(s: State) {
    s.permitted == [] && s.sent == [] && s.channel == [] && s.buffer == [] && InFlight(s) == []
  }

  /**
    At rest every accepted event has been handed over exactly once and in order, all permits are free, and
    every decided call is processed or dropped exactly when the backend never over-reported.
  */
  lemma AtRestAccounts(capacity: nat, batchSize: nat, acts: seq<Action>)
    requires Runs(Initial(capacity, batchSize), acts) && AtRest(After(Initial(capacity, batchSize), acts))
    ensures
      var s := After(Initial(capacity, batchSize), acts);
      && Concat(s.delivered) == s.accepted
      && s.free == capacity
      && (s.stats.processed + s.stats.dropped == s.decided <==> s.overReported == 0)
  {
    RunKeepsInv(capacity, batchSize, acts);
    CapacityStays(Initial(capacity, batchSize), acts);
    var s := After(Initial(capacity, batchSize), acts);
    assert Concat(s.delivered) + [] + [] == Concat(s.delivered);
  }

  // ---- exactly which schedules leave the counters behind ----

  /** The bytes of one flush are taken off while the uncounted events outweigh those in the channel. */
  predicate ReleasesEarly(s: State, act: Action) {
    act.ReleaseMemory? && Bytes(s.sent) > Bytes(s.channel)
  }

  /** The events of one batch are taken off while more events are uncounted than are in the channel. */
  predicate CountsEarly(s: State, act: Action) {
    act.BackendDone? && |s.sent| > |s.channel|
  }

  predicate EverReleasesEarly(s: State, acts: seq<Action>)
    requires Runs(s, acts)
    decreases |acts|
  {
    acts != [] && (ReleasesEarly(s, acts[0]) || EverReleasesEarly(Next(s, acts[0]), acts[1..]))
  }

  predicate EverCountsEarly(s: State, acts: seq<Action>)
    requires Runs(s, acts)
    decreases |acts|
  {
    acts != [] && (CountsEarly(s, acts[0]) || EverCountsEarly(Next(s, acts[0]), acts[1..]))
  }

  lemma ResetStepIff(s: State, act: Action)
    requires Inv(s) && Enabled(s, act)
    ensures Next(s, act).memoryReset <==> s.memoryReset || ReleasesEarly(s, act)
    ensures Next(s, act).sizeReset <==> s.sizeReset || CountsEarly(s, act)
  {
  }

  /** A counter is reset in the course of a run exactly by the first step of that kind. */
  lemma {:induction false} ResetIff(s: State, acts: seq<Action>)
    requires Inv(s) && Runs(s, acts)
    ensures After(s, acts).memoryReset <==> s.memoryReset || EverReleasesEarly(s, acts)
    ensures After(s, acts).sizeReset <==> s.sizeReset || EverCountsEarly(s, acts)
    decreases |acts|
  {
    if acts != [] {
      StepKeepsInv(s, acts[0]);
      ResetStepIff(s, acts[0]);
      ResetIff(Next(s, acts[0]), acts[1..]);
    }
  }

  /**
    At rest the memory counter is back at zero if and only if no flush released its memory while the events
    sent and not yet counted outweighed those in the channel, and the event count if and only if no batch
    was answered while more events were sent and not yet counted than were in the channel. Otherwise they
    stay above zero although nothing is stored.
  */
  lemma AtRestMemory(capacity: nat, batchSize: nat, acts: seq<Action>)
    requires Runs(Initial(capacity, batchSize), acts) && AtRest(After(Initial(capacity, batchSize), acts))
    ensures
      var first := Initial(capacity, batchSize);
      && (After(first, acts).memory == 0 <==> !EverReleasesEarly(first, acts))
      && (After(first, acts).stats.currentSize == 0 <==> !EverCountsEarly(first, acts))
  {
    RunKeepsInv(capacity, batchSize, acts);
    InitialInv(capacity, batchSize);
    ResetIff(Initial(capacity, batchSize), acts);
  }

  /** A surplus of counted memory is never worked off. */
  lemma {:induction false} LeakStays(s: State, acts: seq<Action>)
    requires Inv(s) && Runs(s, acts)
    ensures MemorySlack(After(s, acts)) >= MemorySlack(s)
    decreases |acts|
  {
    if acts != [] {
      MemorySlackStep(s, acts[0]);
      StepKeepsInv(s, acts[0]);
      LeakStays(Next(s, acts[0]), acts[1..]);
    }
  }

  /** In this run no flush lowers the counters while a producer has sent an event but not counted it. */
  predicate NoneMidway(s: State, acts: seq<Action>)
    requires Runs(s, acts)
    decreases |acts|
  {
    acts == []
    || ((acts[0].BackendDone? || acts[0].ReleaseMemory? ==> s.sent == []) && NoneMidway(Next(s, acts[0]), acts[1..]))
  }

  lemma {:induction false} NoneMidwayNoneEarly(s: State, acts: seq<Action>)
    requires Runs(s, acts) && NoneMidway(s, acts)
    ensures !EverReleasesEarly(s, acts) && !EverCountsEarly(s, acts)
    decreases |acts|
  {
    if acts != [] {
      NoneMidwayNoneEarly(Next(s, acts[0]), acts[1..]);
    }
  }

  /** Then both counters are back at zero at rest. */
  lemma NoneMidwayNoLeak(capacity: nat, batchSize: nat, acts: seq<Action>)
    requires Runs(Initial(capacity, batchSize), acts) && NoneMidway(Initial(capacity, batchSize), acts)
    requires AtRest(After(Initial(capacity, batchSize), acts))
    ensures
      var s := After(Initial(capacity, batchSize), acts);
      s.memory == 0 && s.stats.currentSize == 0
  {
    NoneMidwayNoneEarly(Initial(capacity, batchSize), acts);
    AtRestMemory(capacity, batchSize, acts);
  }

  // ---- composing runs ----

  lemma {:induction false} RunsConcat(s: State, x: seq<Action>, y: seq<Action>)
    requires Runs(s, x) && Runs(After(s, x), y)
    ensures Runs(s, x + y) && After(s, x + y) == After(After(s, x), y)
    decreases |x|
  {
    if x == [] {
      assert x + y == y;
    } else {
      assert (x + y)[1..] == x[1..] + y;
      RunsConcat(Next(s, x[0]), x[1..], y);
    }
  }

  lemma RunsOne(s: State, act: Action)
    requires Enabled(s, act)
    ensures Runs(s, [act]) && After(s, [act]) == Next(s, act)
  {
    assert [act][1..] == [];
  }

  lemma RunsAdd(s: State, x: seq<Action>, act: Action)
    requires Runs(s, x) && Enabled(After(s, x), act)
    ensures Runs(s, x + [act]) && After(s, x + [act]) == Next(After(s, x), act)
  {
    RunsOne(After(s, x), act);
    RunsConcat(s, x, [act]);
  }

  /** The actions can be done one after another from `s` and end in `t`. */
  predicate Leads(s: State, acts: seq<Action>, t: State) {
    Runs(s, acts) && After(s, acts) == t
  }

  lemma LeadsOne(s: State, act: Action)
    requires Enabled(s, act)
    ensures Leads(s, [act], Next(s, act))
  {
    RunsOne(s, act);
  }

  lemma LeadsAdd(s: State, x: seq<Action>, t: State, act: Action)
    requires Leads(s, x, t) && Enabled(t, act)
    ensures Leads(s, x + [act], Next(t, act))
  {
    RunsAdd(s, x, act);
  }

  lemma LeadsConcat(s: State, x: seq<Action>, t: State, y: seq<Action>, u: State)
    requires Leads(s, x, t) && Leads(t, y, u)
    ensures Leads(s, x + y, u)
  {
    RunsConcat(s, x, y);
  }

  lemma LeadsThree(s: State, a: Action, b: Action, c: Action)
    requires Enabled(s, a) && Enabled(Next(s, a), b) && Enabled(Next(Next(s, a), b), c)
    ensures Leads(s, [a, b, c], Next(Next(Next(s, a), b), c))
  {
    LeadsOne(s, a);
    LeadsAdd(s, [a], Next(s, a), b);
    assert [a] + [b] == [a, b];
    LeadsAdd(s, [a, b], Next(Next(s, a), b), c);
    assert [a, b] + [c] == [a, b, c];
  }

  // ---- the counters can be left behind ----

  /** One event, taken from the channel before its producer has counted it. */
  function Taken(e: Event): State {
    Initial(1, 1).(free := 0, sent := [e], buffer := [e], permitsHeld := 1, phase := DrainTop,
                   accepted := [e], decided := 1)
  }

  /** The same event flushed to the end, still uncounted by its producer. */
  function Flushed(e: Event): State {
    Taken(e).(free := 1, buffer := [], permitsHeld := 0, phase := Select, delivered := [[e]],
              stats := Stats(0, 1, 0, 0, 0, 0, 0), memoryReset := true, sizeReset := true)
  }

  lemma TakeUncounted(e: Event)
    ensures Runs(Initial(1, 1), [Acquire(e), Send(0), Receive])
    ensures After(Initial(1, 1), [Acquire(e), Send(0), Receive]) == Taken(e)
  {
    var s0 := Initial(1, 1);
    var s1 := s0.(free := 0, permitted := [e]);
    var s2 := s0.(free := 0, sent := [e], channel := [e], accepted := [e], decided := 1);
    assert Next(s0, Acquire(e)) == s1;
    assert Next(s1, Send(0)) == s2;
    assert Next(s2, Receive) == Taken(e);
    UnfoldThree(s0, [Acquire(e), Send(0), Receive]);
  }

  function Handed(e: Event): State {
    Taken(e).(buffer := [], phase := Processing([e], ToSelect), delivered := [[e]])
  }

  lemma DrainUncounted(e: Event)
    ensures Runs(Taken(e), [StartDrain, EndReceiving])
    ensures After(Taken(e), [StartDrain, EndReceiving]) == Handed(e)
  {
    var s1 := Taken(e).(phase := Receiving(MAX_BATCH_SIZE - 1, 0));
    assert Next(Taken(e), StartDrain) == s1;
    assert Next(s1, EndReceiving) == Handed(e);
    UnfoldTwo(Taken(e), [StartDrain, EndReceiving]);
  }

  lemma FlushUncounted(e: Event)
    requires e.bytes > 0
    ensures Runs(Handed(e), [BackendDone(Some(1), 0), ReleaseMemory, ReleasePermits])
    ensures After(Handed(e), [BackendDone(Some(1), 0), ReleaseMemory, ReleasePermits]) == Flushed(e)
  {
    BytesOne(e);
    var s3 := Next(Handed(e), BackendDone(Some(1), 0));
    assert s3 == Handed(e).(phase := Counted([e], ToSelect), stats := Stats(0, 1, 0, 0, 0, 0, 0), sizeReset := true);
    var s4 := Next(s3, ReleaseMemory);
    assert s4 == s3.(phase := Released([e], ToSelect), memoryReset := true);
    assert Next(s4, ReleasePermits) == Flushed(e);
    UnfoldThree(Handed(e), [BackendDone(Some(1), 0), ReleaseMemory, ReleasePermits]);
  }

  /** A run with one event after which nothing is stored any more but its memory is counted. */
  lemma LeakHappens(e: Event) returns (acts: seq<Action>)
    requires e.bytes > 0
    ensures Runs(Initial(1, 1), acts)
    ensures AtRest(After(Initial(1, 1), acts)) && After(Initial(1, 1), acts).memory == e.bytes
  {
    var take := [Acquire(e), Send(0), Receive];
    var drain := [StartDrain, EndReceiving];
    var flush := [BackendDone(Some(1), 0), ReleaseMemory, ReleasePermits];
    TakeUncounted(e);
    DrainUncounted(e);
    FlushUncounted(e);
    RunsConcat(Initial(1, 1), take, drain);
    RunsConcat(Initial(1, 1), take + drain, flush);
    RunsAdd(Initial(1, 1), take + drain + flush, Account(0));
    acts := take + drain + flush + [Account(0)];
  }

  lemma UnfoldTwo(s: State, acts: seq<Action>)
    requires |acts| >= 2 && Enabled(s, acts[0]) && Enabled(Next(s, acts[0]), acts[1])
    ensures
      var t := Next(Next(s, acts[0]), acts[1]);
      (Runs(s, acts) <==> Runs(t, acts[2..])) && (Runs(s, acts) ==> After(s, acts) == After(t, acts[2..]))
  {
    assert acts[1..][1..] == acts[2..];
  }

  lemma UnfoldThree(s: State, acts: seq<Action>)
    requires |acts| >= 3 && Enabled(s, acts[0]) && Enabled(Next(s, acts[0]), acts[1])
    requires Enabled(Next(Next(s, acts[0]), acts[1]), acts[2])
    ensures
      var t := Next(Next(Next(s, acts[0]), acts[1]), acts[2]);
      (Runs(s, acts) <==> Runs(t, acts[3..])) && (Runs(s, acts) ==> After(s, acts) == After(t, acts[3..]))
  {
    UnfoldTwo(s, acts);
    assert acts[2..][1..] == acts[3..];
  }
}
