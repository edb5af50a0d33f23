/**
  The event buffer comes to rest (crates/buffer/src/lib.rs, lines 201-303 and 414-688): while no new call
  arrives every step brings it closer, and until it is at rest there is a step to take. So nothing that was
  accepted stays behind in the channel or the buffer.
*/
module BufferProgress {
  import opened BufferProtocol
  import opened Wrappers

  /** Takes in nothing new. */
  predicate Quiet(act: Action) {
    !act.Acquire? && !act.Refuse?
  }

  /** How far the consumer is from waiting for work. */
  function Distance(s: State): nat {
    match s.phase
    case Processing(_, _) => 10
    case Counted(_, _) => 9
    case Released(_, _) => 8
    case Receiving(_, drained) => if drained > 0 then 7 else 4
    case Select => if s.buffer != [] then 6 else 1
    case DrainTop => 5
    case Stopped => 0
  }

  /** Fewer permits waiting to send, else fewer events uncounted, else fewer in the channel, and so on. */
  predicate Closer(t: State, s: State) {
    || |t.permitted| < |s.permitted|
    || (|t.permitted| == |s.permitted|
        && (|| |t.sent| < |s.sent|
            || (|t.sent| == |s.sent|
                && (|| |t.channel| < |s.channel|
                    || (|t.channel| == |s.channel|
                        && (|| |t.buffer| < |s.buffer|
                            || (|t.buffer| == |s.buffer| && Distance(t) < Distance(s))))))))
  }

  /** Every step but a new call brings the buffer closer to rest, so that such steps come to an end. */
  lemma QuietStepsCloser(s: State, act: Action)
    requires BufferFits(s) && Enabled(s, act) && Quiet(act)
    ensures Closer(Next(s, act), s)
  {
  }

  /** Once the consumer is stopping, nothing is left to send, to count or to receive. */
  predicate NothingAfterClosing(s: State) {
    Closing(s) ==> s.permitted == [] && s.sent == [] && s.channel == []
  }

  lemma {:induction false} ClosingFrom(s: State, acts: seq<Action>)
    requires NothingAfterClosing(s) && Runs(s, acts)
    ensures NothingAfterClosing(After(s, acts))
    decreases |acts|
  {
    if acts != [] {
      ClosingFrom(Next(s, acts[0]), acts[1..]);
    }
  }

  /** A step of the consumer, or of a producer inside a call. */
  lemma QuietStep(s: State) returns (act: Action)
    requires Inv(s) && NothingAfterClosing(s) && !AtRest(s)
    ensures Enabled(s, act) && Quiet(act) && !act.GiveUp?
  {
    if s.permitted != [] {
      act := Send(0);
    } else if s.sent != [] {
      act := Account(0);
    } else {
      match s.phase {
        case Processing(_, _) => act := BackendDone(None, 0);
        case Counted(_, _) => act := ReleaseMemory;
        case Released(_, _) => act := ReleasePermits;
        case Receiving(left, _) => act := if left > 0 && s.channel != [] then TryReceive else EndReceiving;
        case Select => act := if s.channel != [] then Receive else FlushTimer;
        case DrainTop => act := StartDrain;
        case Stopped => assert false;
      }
    }
  }

  ghost predicate AllQuiet(acts: seq<Action>) {
    forall i :: 0 <= i < |acts| ==> Quiet(acts[i]) && !acts[i].GiveUp?
  }

  lemma QuietNext(s: State) returns (act: Action, next: State)
    requires Inv(s) && NothingAfterClosing(s) && !AtRest(s)
    ensures Enabled(s, act) && Quiet(act) && !act.GiveUp? && next == Next(s, act)
    ensures Inv(next) && NothingAfterClosing(next) && Closer(next, s)
  {
    act := QuietStep(s);
    next := Next(s, act);
    QuietStepsCloser(s, act);
    StepKeepsInv(s, act);
    ClosingFrom(s, [act]);
    RunsOne(s, act);
  }

  lemma Prepend(s: State, act: Action, next: State, rest: seq<Action>) returns (acts: seq<Action>)
    requires Enabled(s, act) && Quiet(act) && !act.GiveUp? && next == Next(s, act)
    requires Runs(next, rest) && AllQuiet(rest)
    ensures Runs(s, acts) && AllQuiet(acts) && After(s, acts) == After(next, rest)
  {
    acts := [act] + rest;
    assert acts[1..] == rest;
  }

  lemma {:induction false} RestFrom(s: State) returns (acts: seq<Action>)
    requires Inv(s) && NothingAfterClosing(s)
    ensures Runs(s, acts) && AllQuiet(acts) && AtRest(After(s, acts))
    decreases |s.permitted|, |s.sent|, |s.channel|, |s.buffer|, Distance(s)
  {
    if AtRest(s) {
      acts := [];
    } else {
      var act, next := QuietNext(s);
      var rest := RestFrom(next);
      acts := Prepend(s, act, next, rest);
    }
  }

  /**
    From every reachable state the calls under way and the consumer can go on, without any of them giving up,
    until everything that was sent has been handed over in order, all permits are free and nothing is stored.
  */
  lemma ComesToRest(capacity: nat, batchSize: nat, before: seq<Action>) returns (acts: seq<Action>)
    requires Runs(Initial(capacity, batchSize), before)
    ensures
      var s := After(Initial(capacity, batchSize), before);
      && Runs(s, acts) && AllQuiet(acts)
      && AtRest(After(s, acts)) && After(s, acts).free == capacity
      && Concat(After(s, acts).delivered) == After(s, acts).accepted
  {
    var first := Initial(capacity, batchSize);
    RunKeepsInv(capacity, batchSize, before);
    ClosingFrom(first, before);
    acts := RestFrom(After(first, before));
    RunsConcat(first, before, acts);
    AtRestAccounts(capacity, batchSize, before + acts);
  }

  /** In every reachable state each call that holds a permit can send, and can give up instead. */
  lemma CallsCanGoOn(capacity: nat, batchSize: nat, acts: seq<Action>, i: nat, underPressure: bool)
    requires Runs(Initial(capacity, batchSize), acts)
    ensures
      var s := After(Initial(capacity, batchSize), acts);
      && (i < |s.permitted| ==> Enabled(s, Send(i)) && Enabled(s, GiveUp(i)))
      && (i < |s.sent| ==> Enabled(s, Account(i)))
      && (!Closing(s) ==> Enabled(s, Refuse(underPressure)))
      && (!Closing(s) && |s.permitted| + |s.channel| + |s.buffer| + |InFlight(s)| < capacity ==>
            forall e :: Enabled(s, Acquire(e)))
  {
    RunKeepsInv(capacity, batchSize, acts);
    CapacityStays(Initial(capacity, batchSize), acts);
  }
}
