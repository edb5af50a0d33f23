/**
  What the statistics of the event buffer count (crates/buffer/src/lib.rs, lines 201-303 and 592-721), read
  off the history of a run: the actions taken so far and the batches handed over. The n-th answer of the
  backend is the answer for the n-th batch.
*/
module BufferCounts {
  import opened Wrappers
  import opened BufferProtocol

  function Init(acts: seq<Action>): seq<Action>
    requires acts != []
  {
    acts[..|acts| - 1]
  }

  function Final(acts: seq<Action>): Action
    requires acts != []
  {
    acts[|acts| - 1]
  }

  /** The backend's answers, oldest first. */
  function Answers(acts: seq<Action>): seq<Option<nat>> {
    if acts == [] then []
    else Answers(Init(acts)) + if Final(acts).BackendDone? then [Final(acts).answer] else []
  }

  function Retries(acts: seq<Action>): nat {
    if acts == [] then 0
    else Retries(Init(acts)) + if Final(acts).BackendDone? then Final(acts).retries else 0
  }

  /** Calls that were turned away before they had a permit, and calls that gave up with one. */
  function TurnedAway(acts: seq<Action>): nat {
    if acts == [] then 0
    else TurnedAway(Init(acts)) + if Final(acts).Refuse? || Final(acts).GiveUp? then 1 else 0
  }

  /** Those of them that failed for want of room: no permit in time, or no place in the channel in time. */
  function UnderPressure(acts: seq<Action>): nat {
    if acts == [] then 0
    else
      UnderPressure(Init(acts))
      + if Final(acts).GiveUp? || (Final(acts).Refuse? && Final(acts).underPressure) then 1 else 0
  }

  function Counts(acts: seq<Action>): nat {
    if acts == [] then 0 else Counts(Init(acts)) + if Final(acts).Account? then 1 else 0
  }

  /** What the backend says it processed. */
  function Claimed(answers: seq<Option<nat>>): nat {
    if answers == [] then 0
    else
      var last := answers[|answers| - 1];
      Claimed(answers[..|answers| - 1]) + if last.Some? then last.value else 0
  }

  /** Events of batches whose every attempt failed. */
  function FailedEvents(answers: seq<Option<nat>>, batches: seq<seq<Event>>): nat
    requires |answers| <= |batches|
  {
    if answers == [] then 0
    else
      var n := |answers| - 1;
      FailedEvents(answers[..n], batches) + if answers[n].None? then |batches[n]| else 0
  }

  /** By how much the answers fall short of the batches they are for. */
  function Shortfalls(answers: seq<Option<nat>>, batches: seq<seq<Event>>): nat
    requires |answers| <= |batches|
  {
    if answers == [] then 0
    else
      var n := |answers| - 1;
      Shortfalls(answers[..n], batches)
      + if answers[n].Some? && answers[n].value < |batches[n]| then |batches[n]| - answers[n].value else 0
  }

  /** Every batch but the one being processed has been answered. */
  predicate Answered(s: State, past: seq<Action>) {
    && |Answers(past)| + (if s.phase.Processing? then 1 else 0) == |s.delivered|
    && (s.phase.Processing? ==> s.delivered[|s.delivered| - 1] == s.phase.batch)
  }

  /** Each counter is what the history says. */
  predicate Tallied(s: State, past: seq<Action>) {
    && Answered(s, past)
    && var answers := Answers(past);
    && s.stats.received == Counts(past)
    && s.stats.processed == Claimed(answers)
    && s.stats.dropped == TurnedAway(past) + FailedEvents(answers, s.delivered) + Shortfalls(answers, s.delivered)
    && s.stats.errors == FailedEvents(answers, s.delivered)
    && s.stats.retries == Retries(past)
    && s.stats.backpressure == UnderPressure(past)
  }

  lemma {:induction false} MoreBatches(answers: seq<Option<nat>>, batches: seq<seq<Event>>, b: seq<Event>)
    requires |answers| <= |batches|
    ensures FailedEvents(answers, batches + [b]) == FailedEvents(answers, batches)
    ensures Shortfalls(answers, batches + [b]) == Shortfalls(answers, batches)
    decreases |answers|
  {
    if answers != [] {
      MoreBatches(answers[..|answers| - 1], batches, b);
    }
  }

  lemma AnswerAdds(answers: seq<Option<nat>>, answer: Option<nat>, batches: seq<seq<Event>>)
    requires |answers| < |batches|
    ensures
      var all, n := answers + [answer], |batches[|answers|]|;
      && Claimed(all) == Claimed(answers) + (if answer.Some? then answer.value else 0)
      && FailedEvents(all, batches) == FailedEvents(answers, batches) + (if answer.None? then n else 0)
      && Shortfalls(all, batches)
         == Shortfalls(answers, batches) + (if answer.Some? && answer.value < n then n - answer.value else 0)
  {
    assert (answers + [answer])[..|answers|] == answers;
  }

  lemma Extend(past: seq<Action>, act: Action)
    ensures
      var all := past + [act];
      && Answers(all) == (if act.BackendDone? then Answers(past) + [act.answer] else Answers(past))
      && Retries(all) == Retries(past) + (if act.BackendDone? then act.retries else 0)
      && TurnedAway(all) == TurnedAway(past) + (if act.Refuse? || act.GiveUp? then 1 else 0)
      && UnderPressure(all)
         == UnderPressure(past) + (if act.GiveUp? || (act.Refuse? && act.underPressure) then 1 else 0)
      && Counts(all) == Counts(past) + (if act.Account? then 1 else 0)
  {
    assert Init(past + [act]) == past && Final(past + [act]) == act;
    assert Answers(past) + [] == Answers(past);
  }

  /** A step hands over at most one batch, and leaves the statistics alone unless it is one of five. */
  lemma OtherSteps(s: State, act: Action)
    requires Enabled(s, act)
    requires !(act.Refuse? || act.GiveUp? || act.Account? || act.BackendDone?)
    ensures Next(s, act).stats == s.stats
    ensures !s.phase.Processing? ==>
              if Next(s, act).phase.Processing? then Next(s, act).delivered == s.delivered + [Next(s, act).phase.batch]
              else Next(s, act).delivered == s.delivered
    ensures s.phase.Processing? ==> Next(s, act).delivered == s.delivered && Next(s, act).phase == s.phase
  {
  }

  lemma AnswerTally(s: State, past: seq<Action>, answer: Option<nat>, retries: nat)
    requires Tallied(s, past) && Enabled(s, BackendDone(answer, retries))
    ensures Tallied(Next(s, BackendDone(answer, retries)), past + [BackendDone(answer, retries)])
  {
    Extend(past, BackendDone(answer, retries));
    AnswerAdds(Answers(past), answer, s.delivered);
  }

  lemma CallTally(s: State, past: seq<Action>, act: Action)
    requires Tallied(s, past) && Enabled(s, act) && (act.Refuse? || act.GiveUp? || act.Account?)
    ensures Tallied(Next(s, act), past + [act])
  {
    Extend(past, act);
  }

  lemma OtherTally(s: State, past: seq<Action>, act: Action)
    requires Tallied(s, past) && Enabled(s, act)
    requires !(act.Refuse? || act.GiveUp? || act.Account? || act.BackendDone?)
    ensures Tallied(Next(s, act), past + [act])
  {
    Extend(past, act);
    OtherSteps(s, act);
    var next := Next(s, act);
    if next.delivered != s.delivered {
      MoreBatches(Answers(past), s.delivered, next.phase.batch);
    }
  }

  lemma TallyStep(s: State, past: seq<Action>, act: Action)
    requires Tallied(s, past) && Enabled(s, act)
    ensures Tallied(Next(s, act), past + [act])
  {
    if act.BackendDone? {
      AnswerTally(s, past, act.answer, act.retries);
    } else if act.Refuse? || act.GiveUp? || act.Account? {
      CallTally(s, past, act);
    } else {
      OtherTally(s, past, act);
    }
  }

  lemma {:induction false} TallyFrom(s: State, past: seq<Action>, acts: seq<Action>)
    requires Tallied(s, past) && Runs(s, acts)
    ensures Tallied(After(s, acts), past + acts)
    decreases |acts|
  {
    if acts == [] {
      assert past + acts == past;
    } else {
      TallyStep(s, past, acts[0]);
      TallyFrom(Next(s, acts[0]), past + [acts[0]], acts[1..]);
      assert past + [acts[0]] + acts[1..] == past + acts;
    }
  }

  /**
    In every run: received counts the calls that were counted after sending, processed what the backend
    claimed, errors the events of failed batches, dropped those, the shortfalls and the calls turned away,
    retries the repeated attempts, and backpressure the calls that failed for want of room.
  */
  lemma RunTallies(capacity: nat, batchSize: nat, acts: seq<Action>)
    requires Runs(Initial(capacity, batchSize), acts)
    ensures Tallied(After(Initial(capacity, batchSize), acts), acts)
  {
    TallyFrom(Initial(capacity, batchSize), [], acts);
    assert [] + acts == acts;
  }
}
