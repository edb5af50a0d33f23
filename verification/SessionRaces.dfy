/**
  The agent job database under interleaving (crates/coordinator/src/agent.rs, lines 170-369 and 432-485).
  Every lock section is one step: two to add a job, two to take one, four to fail a session, one to remove
  a job by its id. Any number of these operations may be under way at the same time.
*/
module SessionRaces {
  import opened Wrappers
  import opened AgentJobs

  /** The next section of a bulk failure that is under way. */
  datatype Stage = Copying | Removing | Dropping

  datatype Failure = Failure(session: string, stage: Stage, ids: seq<string>, collected: seq<AgentJob>)

  /**
    `jobs` are all jobs ever added, by id. `taking` have left the waiting map and not reached the running
    map, `unpushed` are in a map and not yet in the index, `returned` have been handed back to a caller.
  */
  datatype World = World(
    db: Db,
    jobs: map<string, AgentJob>,
    taking: map<string, AgentJob>,
    unpushed: map<string, AgentJob>,
    failing: map<nat, Failure>,
    returned: set<string>)

  datatype Action =
    | AddWaits(job: AgentJob)
    | AddRuns(job: AgentJob)
    | PushIndex(id: string)
    | TakeWaiting(key: AgentKey, session: string)
    | PutRunning(id: string)
    | Remove(id: string)
    | FailWaiting(op: nat, session: string)
    | CopyIndex(op: nat)
    | FailRunning(op: nat)
    | EndFailure(op: nat)

  const START: World := World(EMPTY, map[], map[], map[], map[], {})

  /** Job ids are fresh: they are hashes over the sequence of the job. */
  predicate Enabled(w: World, action: Action) {
    match action
    case AddWaits(job) => job.id !in w.jobs
    case AddRuns(job) => job.id !in w.jobs
    case PushIndex(id) => id in w.unpushed
    case TakeWaiting(key, session) => Matches(w.db, key, session)
    case PutRunning(id) => id in w.taking
    case Remove(_) => true
    case FailWaiting(op, _) => op !in w.failing
    case CopyIndex(op) => op in w.failing && w.failing[op].stage == Copying
    case FailRunning(op) => op in w.failing && w.failing[op].stage == Removing
    case EndFailure(op) => op in w.failing && w.failing[op].stage == Dropping
  }

  function JobIds(jobs: seq<AgentJob>): set<string> {
    set job | job in jobs :: job.id
  }

  function Next(w: World, action: Action): World
    requires Enabled(w, action)
  {
    match action
    case AddWaits(job) =>
      w.(db := InsertWaiting(w.db, job), jobs := w.jobs[job.id := job], unpushed := w.unpushed[job.id := job])
    case AddRuns(job) =>
      w.(db := InsertRunning(w.db, job), jobs := w.jobs[job.id := job], unpushed := w.unpushed[job.id := job])
    case PushIndex(id) => w.(db := Push(w.db, w.unpushed[id]), unpushed := w.unpushed - {id})
    case TakeWaiting(_, session) =>
      var job := w.db.waiting[session];
      w.(db := TakeOut(w.db, session), taking := w.taking[job.id := job])
    case PutRunning(id) => w.(db := InsertRunning(w.db, w.taking[id]), taking := w.taking - {id})
    case Remove(id) => w.(db := Finish(w.db, id), returned := w.returned + w.db.running.Keys * {id})
    case FailWaiting(op, session) =>
      var job := WaitingFor(w.db, session);
      w.(db := TakeOut(w.db, session),
         failing := w.failing[op := Failure(session, Copying, [], job)],
         returned := w.returned + JobIds(job))
    case CopyIndex(op) =>
      var f := w.failing[op];
      w.(failing := w.failing[op := f.(stage := Removing, ids := Indexed(w.db.index, f.session))])
    case FailRunning(op) =>
      var f := w.failing[op];
      var found := Found(w.db.running, f.ids);
      w.(db := RemoveIds(w.db, f.ids),
         failing := w.failing[op := f.(stage := Dropping, collected := f.collected + found)],
         returned := w.returned + JobIds(found))
    case EndFailure(op) => w.(db := DropIndex(w.db, w.failing[op].session), failing := w.failing - {op})
  }

  // ---- where a job is ----

  predicate Waits(w: World, id: string) {
    id in w.jobs && var s := w.jobs[id].session; s in w.db.waiting && w.db.waiting[s].id == id
  }

  /** Waiting, running, or on its way from one to the other. */
  predicate Alive(w: World, id: string) {
    Waits(w, id) || id in w.taking || id in w.db.running
  }

  predicate IsIndexed(w: World, id: string) {
    id in w.jobs && id in Indexed(w.db.index, w.jobs[id].session)
  }

  /** Alive, in no index entry, and nobody is about to put it there. */
  predicate Adrift(w: World, id: string) {
    Alive(w, id) && !IsIndexed(w, id) && id !in w.unpushed
  }

  // ---- the invariant ----

  predicate Registered(w: World, job: AgentJob) {
    job.id in w.jobs && w.jobs[job.id] == job
  }

  ghost predicate MapsAgree(w: World) {
    && (forall id :: id in w.jobs ==> w.jobs[id].id == id)
    && (forall s :: s in w.db.waiting ==> w.db.waiting[s].session == s && Registered(w, w.db.waiting[s]))
    && (forall id :: id in w.db.running ==> w.db.running[id].id == id && Registered(w, w.db.running[id]))
    && (forall id :: id in w.taking ==> w.taking[id].id == id && Registered(w, w.taking[id]))
    && (forall id :: id in w.unpushed ==> w.unpushed[id].id == id && Registered(w, w.unpushed[id]))
  }

  /** A job is in one place only, and one that was handed back is in none. */
  ghost predicate OnePlace(w: World) {
    && (forall id :: Waits(w, id) ==> id !in w.taking && id !in w.db.running)
    && (forall id :: id in w.taking ==> id !in w.db.running)
    && (forall id :: id in w.returned ==> id in w.jobs && !Alive(w, id))
  }

  ghost predicate IndexAgrees(w: World) {
    forall s :: s in w.db.index ==>
      && NoRepeats(w.db.index[s])
      && forall id :: id in w.db.index[s] ==> id in w.jobs && w.jobs[id].session == s && id !in w.unpushed
  }

  ghost predicate Inv(w: World) {
    MapsAgree(w) && OnePlace(w) && IndexAgrees(w)
  }

  // ---- every section keeps it ----

  lemma FoundRunning(w: World, ids: seq<string>)
    requires MapsAgree(w)
    ensures JobIds(Found(w.db.running, ids)) == SetOf(ids) * w.db.running.Keys
  {
    var found := Found(w.db.running, ids);
    forall id | id in JobIds(found)
      ensures id in SetOf(ids) * w.db.running.Keys
    {
      var job :| job in found && job.id == id;
      FoundIff(w.db.running, ids, job);
    }
    forall id | id in SetOf(ids) * w.db.running.Keys
      ensures id in JobIds(found)
    {
      FoundIff(w.db.running, ids, w.db.running[id]);
      assert w.db.running[id] in found;
    }
  }

  lemma WaitingId(w: World, s: string)
    requires MapsAgree(w)
    ensures JobIds(WaitingFor(w.db, s)) == if s in w.db.waiting then {w.db.waiting[s].id} else {}
    ensures s in w.db.waiting ==> Waits(w, w.db.waiting[s].id)
  {
    if s in w.db.waiting {
      assert w.db.waiting[s] in WaitingFor(w.db, s);
    }
  }

  /** A fresh id is nowhere yet. */
  lemma FreshIsNowhere(w: World, id: string)
    requires Inv(w) && id !in w.jobs
    ensures !Alive(w, id) && id !in w.unpushed && id !in w.returned
    ensures forall s :: s in w.db.waiting ==> w.db.waiting[s].id != id
    ensures forall s :: s in w.db.index ==> id !in w.db.index[s]
  {
  }

  lemma AddWaitsMaps(w: World, job: AgentJob)
    requires Inv(w) && Enabled(w, AddWaits(job))
    ensures MapsAgree(Next(w, AddWaits(job)))
  {
    FreshIsNowhere(w, job.id);
  }

  lemma AddRunsMaps(w: World, job: AgentJob)
    requires Inv(w) && Enabled(w, AddRuns(job))
    ensures MapsAgree(Next(w, AddRuns(job)))
  {
    FreshIsNowhere(w, job.id);
  }

  lemma AddIndexAgrees(w: World, action: Action)
    requires Inv(w) && Enabled(w, action) && (action.AddWaits? || action.AddRuns?)
    ensures IndexAgrees(Next(w, action))
  {
    FreshIsNowhere(w, action.job.id);
  }

  lemma AddWaitsOnePlace(w: World, job: AgentJob)
    requires Inv(w) && Enabled(w, AddWaits(job))
    ensures OnePlace(Next(w, AddWaits(job)))
  {
    FreshIsNowhere(w, job.id);
    var w' := Next(w, AddWaits(job));
    forall id | id != job.id
      ensures Waits(w', id) ==> Waits(w, id)
    {
    }
  }

  lemma AddRunsOnePlace(w: World, job: AgentJob)
    requires Inv(w) && Enabled(w, AddRuns(job))
    ensures OnePlace(Next(w, AddRuns(job)))
  {
    FreshIsNowhere(w, job.id);
    var w' := Next(w, AddRuns(job));
    forall id
      ensures Waits(w', id) ==> Waits(w, id) && id != job.id
    {
    }
  }

  lemma AddStep(w: World, action: Action)
    requires Inv(w) && Enabled(w, action) && (action.AddWaits? || action.AddRuns?)
    ensures Inv(Next(w, action))
  {
    AddIndexAgrees(w, action);
    if action.AddWaits? {
      AddWaitsMaps(w, action.job);
      AddWaitsOnePlace(w, action.job);
    } else {
      AddRunsMaps(w, action.job);
      AddRunsOnePlace(w, action.job);
    }
  }

  lemma PushStep(w: World, id: string)
    requires Inv(w) && Enabled(w, PushIndex(id))
    ensures Inv(Next(w, PushIndex(id)))
  {
  }

  lemma TakeStep(w: World, key: AgentKey, session: string)
    requires Inv(w) && Enabled(w, TakeWaiting(key, session))
    ensures Inv(Next(w, TakeWaiting(key, session)))
  {
    WaitingId(w, session);
  }

  lemma PutStep(w: World, id: string)
    requires Inv(w) && Enabled(w, PutRunning(id))
    ensures Inv(Next(w, PutRunning(id)))
  {
  }

  lemma FailWaitingStep(w: World, op: nat, session: string)
    requires Inv(w) && Enabled(w, FailWaiting(op, session))
    ensures Inv(Next(w, FailWaiting(op, session)))
  {
    WaitingId(w, session);
  }

  lemma FailRunningStep(w: World, op: nat)
    requires Inv(w) && Enabled(w, FailRunning(op))
    ensures Inv(Next(w, FailRunning(op)))
  {
    FoundRunning(w, w.failing[op].ids);
  }

  lemma RemoveStep(w: World, id: string)
    requires Inv(w)
    ensures Inv(Next(w, Remove(id)))
  {
  }

  lemma CopyStep(w: World, op: nat)
    requires Inv(w) && Enabled(w, CopyIndex(op))
    ensures Inv(Next(w, CopyIndex(op)))
  {
  }

  lemma EndStep(w: World, op: nat)
    requires Inv(w) && Enabled(w, EndFailure(op))
    ensures Inv(Next(w, EndFailure(op)))
  {
  }

  lemma StepKeepsInv(w: World, action: Action)
    requires Inv(w) && Enabled(w, action)
    ensures Inv(Next(w, action))
  {
    match action {
      case AddWaits(_) => AddStep(w, action);
      case AddRuns(_) => AddStep(w, action);
      case PushIndex(id) => PushStep(w, id);
      case TakeWaiting(key, session) => TakeStep(w, key, session);
      case PutRunning(id) => PutStep(w, id);
      case Remove(id) => RemoveStep(w, id);
      case FailWaiting(op, session) => FailWaitingStep(w, op, session);
      case CopyIndex(op) => CopyStep(w, op);
      case FailRunning(op) => FailRunningStep(w, op);
      case EndFailure(op) => EndStep(w, op);
    }
  }

  // ---- runs ----

  /** The first `n` sections can happen one after another, starting with no job. */
  predicate Runs(actions: seq<Action>, n: nat)
    requires n <= |actions|
    decreases n, 0
  {
    n == 0 || (Runs(actions, n - 1) && Enabled(At(actions, n - 1), actions[n - 1]))
  }

  function At(actions: seq<Action>, n: nat): World
    requires n <= |actions| && Runs(actions, n)
    decreases n, 1
  {
    if n == 0 then START else Next(At(actions, n - 1), actions[n - 1])
  }

  /** In every interleaving jobs are filed consistently, in one place each, and handed back at most once. */
  lemma {:induction false} RunKeepsInv(actions: seq<Action>, n: nat)
    requires n <= |actions| && Runs(actions, n)
    ensures Inv(At(actions, n))
    decreases n
  {
    if n > 0 {
      RunKeepsInv(actions, n - 1);
      StepKeepsInv(At(actions, n - 1), actions[n - 1]);
    }
  }

  // ---- how a job stops waiting ----

  /** A job stops waiting by being taken with its own key, by a failure of its session, or by being overwritten. */
  lemma StopsWaitingIff(w: World, action: Action, id: string)
    requires Inv(w) && Enabled(w, action) && Waits(w, id)
    ensures
      var job := w.jobs[id];
      !Waits(Next(w, action), id)
      <==> || (action.TakeWaiting? && action.session == job.session && action.key == job.key)
           || (action.FailWaiting? && action.session == job.session)
           || (action.AddWaits? && action.job.session == job.session)
  {
    if action.TakeWaiting? {
      WaitingId(w, action.session);
    }
  }

  /**
    In every interleaving a take finds a job waiting for that session and for exactly the developer, agent and
    method that were asked for, and makes that job, and no other, leave the waiting map for the running map.
  */
  lemma TakenForItsKey(actions: seq<Action>, n: nat) returns (id: string)
    requires n < |actions| && Runs(actions, n + 1) && actions[n].TakeWaiting?
    ensures
      var w, w', action := At(actions, n), At(actions, n + 1), actions[n];
      && Waits(w, id) && w.jobs[id].session == action.session
      && w.jobs[id].key.developer == action.key.developer && w.jobs[id].key.agent == action.key.agent
      && w.jobs[id].key.agentMethod == action.key.agentMethod
      && !Waits(w', id) && w'.taking == w.taking[id := w.jobs[id]]
      && (forall other :: other != id && Waits(w, other) ==> Waits(w', other))
  {
    RunKeepsInv(actions, n);
    var w, action := At(actions, n), actions[n];
    id := w.db.waiting[action.session].id;
    WaitingId(w, action.session);
    StopsWaitingIff(w, action, id);
    forall other | other != id && Waits(w, other)
      ensures Waits(Next(w, action), other)
    {
      StopsWaitingIff(w, action, other);
    }
  }

  /** The two sections of a take, with nothing in between, do what the whole operation does on its own. */
  lemma TakenIsTake(w: World, key: AgentKey, session: string)
    requires Inv(w) && Enabled(w, TakeWaiting(key, session))
    ensures
      var mid, id := Next(w, TakeWaiting(key, session)), w.db.waiting[session].id;
      Enabled(mid, PutRunning(id)) && Next(mid, PutRunning(id)).db == Take(w.db, key, session)
  {
  }

  /** So do the two sections of adding a job, waiting or running, and the one of removing it. */
  lemma AddedIsAdd(w: World, job: AgentJob, id: string)
    requires Inv(w) && job.id !in w.jobs
    ensures
      var mid := Next(w, AddWaits(job));
      Enabled(mid, PushIndex(job.id)) && Next(mid, PushIndex(job.id)).db == AddWaiting(w.db, job)
    ensures
      var mid := Next(w, AddRuns(job));
      Enabled(mid, PushIndex(job.id)) && Next(mid, PushIndex(job.id)).db == AddRunning(w.db, job)
    ensures Next(w, Remove(id)).db == Finish(w.db, id)
  {
  }

  // ---- what one failure returns ----

  /** The values of a reachable database are keyed, so that its bulk failure is what `FailedIff` says. */
  lemma InvIsKeyed(w: World)
    requires Inv(w)
    ensures Keyed(w.db)
  {
    forall s | s in w.db.waiting
      ensures w.db.waiting[s].id !in w.db.running
    {
      assert Waits(w, w.db.waiting[s].id);
    }
  }

  /** The four sections of a failure, with nothing in between. */
  function Failed(w: World, op: nat, session: string): World
    requires op !in w.failing
  {
    Next(Next(Next(Next(w, FailWaiting(op, session)), CopyIndex(op)), FailRunning(op)), EndFailure(op))
  }

  /** They do what the whole operation does on its own. */
  lemma FailedIsFailAll(w: World, op: nat, session: string)
    requires op !in w.failing
    ensures Failed(w, op, session).db == FailAll(w.db, session)
    ensures
      var before := Next(Next(Next(w, FailWaiting(op, session)), CopyIndex(op)), FailRunning(op));
      before.failing[op].collected == FailedJobs(w.db, session)
  {
    assert TakeOut(w.db, session).index == w.db.index && TakeOut(w.db, session).running == w.db.running;
  }

  /** On its way to the running map, or running without being indexed. */
  predicate InGap(w: World, id: string) {
    id in w.taking || (id in w.db.running && !IsIndexed(w, id))
  }

  lemma ReturnedIff(w: World, session: string, id: string)
    requires Inv(w) && id in w.jobs
    ensures w.jobs[id] in FailedJobs(w.db, session) <==> w.jobs[id].session == session && Alive(w, id) && !InGap(w, id)
  {
    InvIsKeyed(w);
    FailedIff(w.db, session, w.jobs[id]);
    if session in w.db.waiting && w.db.waiting[session] == w.jobs[id] {
      assert Waits(w, id);
    }
  }

  /**
    In every state of every interleaving: a failure of a session returns every job of it, each once, if and
    only if none of its jobs is being taken, or runs without being indexed.
  */
  lemma FailReturnsAllIff(actions: seq<Action>, n: nat, session: string)
    requires n <= |actions| && Runs(actions, n)
    ensures
      var w := At(actions, n);
      && DistinctJobs(FailedJobs(w.db, session))
      && ((forall id :: id in w.jobs && w.jobs[id].session == session && Alive(w, id) ==>
             w.jobs[id] in FailedJobs(w.db, session))
          <==> (forall id :: id in w.jobs && w.jobs[id].session == session ==> !InGap(w, id)))
  {
    RunKeepsInv(actions, n);
    var w := At(actions, n);
    InvIsKeyed(w);
    FailedDistinct(w.db, session);
    forall id | id in w.jobs
      ensures w.jobs[id] in FailedJobs(w.db, session)
         <==> w.jobs[id].session == session && Alive(w, id) && !InGap(w, id)
    {
      ReturnedIff(w, session, id);
    }
    assert forall id :: InGap(w, id) ==> Alive(w, id);
  }

  // ---- how a job comes adrift ----

  /** The failure drops the index entry of a job that is still alive and listed in it. */
  predicate Strands(w: World, action: Action, id: string) {
    && action.EndFailure? && action.op in w.failing
    && IsIndexed(w, id) && w.jobs[id].session == w.failing[action.op].session
    && Alive(w, id)
  }

  lemma AddAdrift(w: World, action: Action, id: string)
    requires Inv(w) && Enabled(w, action) && (action.AddWaits? || action.AddRuns?)
    ensures Adrift(Next(w, action), id) ==> Adrift(w, id)
  {
  }

  lemma PushAdrift(w: World, pushed: string, id: string)
    requires Inv(w) && Enabled(w, PushIndex(pushed))
    ensures Adrift(Next(w, PushIndex(pushed)), id) ==> Adrift(w, id)
  {
    var w' := Next(w, PushIndex(pushed));
    assert Waits(w', id) ==> Waits(w, id);
    if id == pushed {
      assert id in Indexed(w'.db.index, w.jobs[id].session);
    }
  }

  /** A job comes adrift exactly when a failure of its session ends while the job is alive and indexed. */
  lemma AdriftIff(w: World, action: Action, id: string)
    requires Inv(w) && Enabled(w, action)
    ensures Adrift(Next(w, action), id) && !Adrift(w, id) <==> Strands(w, action, id)
  {
    var w' := Next(w, action);
    match action {
      case AddWaits(_) => AddAdrift(w, action, id);
      case AddRuns(_) => AddAdrift(w, action, id);
      case PushIndex(pushed) => PushAdrift(w, pushed, id);
      case TakeWaiting(_, session) => assert Waits(w', id) ==> Waits(w, id);
      case PutRunning(_) => assert Waits(w', id) ==> Waits(w, id);
      case Remove(_) => assert Waits(w', id) ==> Waits(w, id);
      case FailWaiting(_, _) => assert Waits(w', id) ==> Waits(w, id);
      case CopyIndex(_) =>
      case FailRunning(_) => assert Waits(w', id) ==> Waits(w, id);
      case EndFailure(op) =>
        assert Waits(w', id) <==> Waits(w, id);
        assert IsIndexed(w, id) ==> id !in w.unpushed;
    }
  }

  ghost predicate NoneAdrift(w: World) {
    forall id :: !Adrift(w, id)
  }

  /** No job ever comes adrift in the first `n` sections. */
  ghost predicate NeverAdrift(actions: seq<Action>, n: nat)
    requires n <= |actions| && Runs(actions, n)
    decreases n
  {
    NoneAdrift(At(actions, n)) && (n > 0 ==> NeverAdrift(actions, n - 1))
  }

  ghost predicate Clean(w: World, action: Action) {
    forall id :: !Strands(w, action, id)
  }

  /** No failure ends while a job of its session is alive and indexed. */
  ghost predicate CleanFailures(actions: seq<Action>, n: nat)
    requires n <= |actions| && Runs(actions, n)
    decreases n
  {
    n == 0
    || (CleanFailures(actions, n - 1) && Clean(At(actions, n - 1), actions[n - 1]))
  }

  /** In a run no job is ever adrift if and only if every failure ends clean. */
  lemma {:induction false} NeverAdriftIff(actions: seq<Action>, n: nat)
    requires n <= |actions| && Runs(actions, n)
    ensures NeverAdrift(actions, n) <==> CleanFailures(actions, n)
    decreases n
  {
    if n > 0 {
      NeverAdriftIff(actions, n - 1);
      RunKeepsInv(actions, n - 1);
      var w, action := At(actions, n - 1), actions[n - 1];
      forall id
        ensures Adrift(Next(w, action), id) && !Adrift(w, id) <==> Strands(w, action, id)
      {
        AdriftIff(w, action, id);
      }
      if CleanFailures(actions, n - 1) {
        assert NoneAdrift(w) by {
          NeverAdriftNow(actions, n - 1);
        }
      }
    }
  }

  lemma NeverAdriftNow(actions: seq<Action>, n: nat)
    requires n <= |actions| && Runs(actions, n) && NeverAdrift(actions, n)
    ensures NoneAdrift(At(actions, n))
  {
  }

  /** A failure with nothing in between strands exactly the indexed jobs of its session that are being taken. */
  lemma UninterruptedStrands(w: World, op: nat, session: string, id: string)
    requires Inv(w) && op !in w.failing && id in w.jobs
    ensures
      var last := Next(Next(Next(w, FailWaiting(op, session)), CopyIndex(op)), FailRunning(op));
      Strands(last, EndFailure(op), id) <==> w.jobs[id].session == session && id in w.taking && IsIndexed(w, id)
  {
    var last := Next(Next(Next(w, FailWaiting(op, session)), CopyIndex(op)), FailRunning(op));
    assert last.db.waiting == w.db.waiting - {session} && last.db.index == w.db.index && last.taking == w.taking;
    assert last.db.running == w.db.running - SetOf(Indexed(w.db.index, session));
  }

  // ---- nothing is lost, unless a waiting job is overwritten ----

  /** The jobs a section hands over to its caller, or to the failure it belongs to. */
  function HandedOver(w: World, action: Action): set<string>
    requires Enabled(w, action)
  {
    match action
    case Remove(id) => w.db.running.Keys * {id}
    case FailWaiting(_, session) => JobIds(WaitingFor(w.db, session))
    case FailRunning(op) => JobIds(Found(w.db.running, w.failing[op].ids))
    case _ => {}
  }

  /** Only jobs that are alive are handed over, so none is handed over twice. */
  lemma HandedOverOnce(w: World, action: Action, id: string)
    requires Inv(w) && Enabled(w, action) && id in HandedOver(w, action)
    ensures Alive(w, id) && id !in w.returned
    ensures id in Next(w, action).returned && !Alive(Next(w, action), id)
  {
    StepKeepsInv(w, action);
    match action {
      case Remove(_) =>
      case FailWaiting(_, session) => WaitingId(w, session);
      case FailRunning(op) => FoundRunning(w, w.failing[op].ids);
      case _ =>
    }
  }

  /** Added, not handed back, and nowhere to be found. */
  predicate Lost(w: World, id: string) {
    id in w.jobs && id !in w.returned && !Alive(w, id)
  }

  /** The session already has a waiting job; its map entry is replaced. */
  predicate Overwrites(w: World, action: Action, id: string) {
    action.AddWaits? && action.job.session in w.db.waiting && w.db.waiting[action.job.session].id == id
  }

  lemma LostIffAdded(w: World, action: Action, id: string)
    requires Inv(w) && Enabled(w, action) && (action.AddWaits? || action.AddRuns?)
    ensures Lost(Next(w, action), id) <==> Lost(w, id) || Overwrites(w, action, id)
  {
    FreshIsNowhere(w, action.job.id);
    if action.AddRuns? && id != action.job.id {
      assert Waits(Next(w, action), id) <==> Waits(w, id);
    }
  }

  lemma LostIff(w: World, action: Action, id: string)
    requires Inv(w) && Enabled(w, action)
    ensures Lost(Next(w, action), id) <==> Lost(w, id) || Overwrites(w, action, id)
  {
    var w' := Next(w, action);
    match action {
      case AddWaits(_) => LostIffAdded(w, action, id);
      case AddRuns(_) => LostIffAdded(w, action, id);
      case PushIndex(_) => assert Waits(w', id) <==> Waits(w, id);
      case TakeWaiting(_, session) => WaitingId(w, session);
      case PutRunning(_) => assert Waits(w', id) <==> Waits(w, id);
      case Remove(_) => assert Waits(w', id) <==> Waits(w, id);
      case FailWaiting(_, session) => WaitingId(w, session);
      case CopyIndex(_) => assert Waits(w', id) <==> Waits(w, id);
      case FailRunning(op) =>
        FoundRunning(w, w.failing[op].ids);
        assert Waits(w', id) <==> Waits(w, id);
      case EndFailure(_) => assert Waits(w', id) <==> Waits(w, id);
    }
  }

  ghost predicate NoneLost(w: World) {
    forall id :: !Lost(w, id)
  }

  predicate OverwritesAny(w: World, action: Action) {
    action.AddWaits? && action.job.session in w.db.waiting
  }

  predicate OverwritesBefore(actions: seq<Action>, n: nat)
    requires n <= |actions| && Runs(actions, n)
    decreases n
  {
    n > 0 && (OverwritesBefore(actions, n - 1) || OverwritesAny(At(actions, n - 1), actions[n - 1]))
  }

  /**
    In every interleaving each job ever added is alive in one place or has been handed back, once, if and
    only if no job was added for a session that already had one waiting.
  */
  lemma {:induction false} NothingLostIff(actions: seq<Action>, n: nat)
    requires n <= |actions| && Runs(actions, n)
    ensures NoneLost(At(actions, n)) <==> !OverwritesBefore(actions, n)
    decreases n
  {
    if n > 0 {
      NothingLostIff(actions, n - 1);
      RunKeepsInv(actions, n - 1);
      var w, action := At(actions, n - 1), actions[n - 1];
      forall id
        ensures Lost(Next(w, action), id) <==> Lost(w, id) || Overwrites(w, action, id)
      {
        LostIff(w, action, id);
      }
      if OverwritesAny(w, action) {
        assert Overwrites(w, action, w.db.waiting[action.job.session].id);
      }
    }
  }

  // ---- both things happen ----

  lemma AtNext(actions: seq<Action>, n: nat, w: World, w': World)
    requires n < |actions| && Runs(actions, n) && At(actions, n) == w && Enabled(w, actions[n])
    requires w' == Next(w, actions[n])
    ensures Runs(actions, n + 1) && At(actions, n + 1) == w'
  {
  }

  /** Two jobs added for one session, one after the other: the first is lost. */
  lemma OverwritingLoses(first: AgentJob, second: AgentJob)
    requires first.session == second.session && first.id != second.id
    ensures
      var actions := [AddWaits(first), AddWaits(second)];
      Runs(actions, 2) && Lost(At(actions, 2), first.id)
  {
    var actions := [AddWaits(first), AddWaits(second)];
    var w1 := Next(START, actions[0]);
    assert At(actions, 0) == START;
    AtNext(actions, 0, START, w1);
    AtNext(actions, 1, w1, Next(w1, actions[1]));
  }

  /** A session fails while its only job is being taken: the job goes on running and is in no index. */
  function TakenWhileFailing(job: AgentJob): seq<Action> {
    [AddWaits(job), PushIndex(job.id), TakeWaiting(job.key, job.session),
     FailWaiting(0, job.session), CopyIndex(0), FailRunning(0), EndFailure(0), PutRunning(job.id)]
  }

  /** The job is being taken, and a failure of its session may be under way. */
  function Midway(job: AgentJob, failing: map<nat, Failure>): World {
    World(Db(map[], map[], map[job.session := [job.id]]), map[job.id := job], map[job.id := job], map[], failing, {})
  }

  lemma TakenFirst(job: AgentJob)
    ensures Runs(TakenWhileFailing(job), 3) && At(TakenWhileFailing(job), 3) == Midway(job, map[])
  {
    var actions := TakenWhileFailing(job);
    assert At(actions, 0) == START;
    var w1 := Next(START, actions[0]);
    AtNext(actions, 0, START, w1);
    var w2 := Next(w1, actions[1]);
    AtNext(actions, 1, w1, w2);
    assert w2.db.index == map[job.session := [job.id]] by { assert [] + [job.id] == [job.id]; }
    var w3 := Next(w2, actions[2]);
    AtNext(actions, 2, w2, w3);
    assert w3.db.waiting == map[] && w3.unpushed == map[];
  }

  lemma MidwayFails(job: AgentJob)
    ensures Next(Midway(job, map[]), FailWaiting(0, job.session))
         == Midway(job, map[0 := Failure(job.session, Copying, [], [])])
    ensures Next(Midway(job, map[0 := Failure(job.session, Copying, [], [])]), CopyIndex(0))
         == Midway(job, map[0 := Failure(job.session, Removing, [job.id], [])])
  {
    assert TakeOut(Midway(job, map[]).db, job.session) == Midway(job, map[]).db;
    assert JobIds([]) == {};
    assert {} + JobIds([]) == {};
  }

  /** The failure finds nothing: the job is in no map. */
  lemma MidwayRemoves(job: AgentJob)
    ensures Next(Midway(job, map[0 := Failure(job.session, Removing, [job.id], [])]), FailRunning(0))
         == Midway(job, map[0 := Failure(job.session, Dropping, [job.id], [])])
  {
    var f := Failure(job.session, Removing, [job.id], []);
    var w := Midway(job, map[0 := f]);
    var found := Found(w.db.running, [job.id]);
    assert [job.id][1..] == [];
    assert found == Found(w.db.running, []) == [];
    assert RemoveIds(w.db, [job.id]) == w.db by { assert w.db.running - SetOf([job.id]) == w.db.running; }
    assert JobIds(found) == {} && w.returned + JobIds(found) == w.returned;
    var done := f.(stage := Dropping, collected := f.collected + found);
    assert f.collected + found == [] && done == Failure(job.session, Dropping, [job.id], []);
    assert w.failing[0 := done] == map[0 := done];
  }

  lemma MidwayDrops(job: AgentJob)
    ensures
      var w := Next(Midway(job, map[0 := Failure(job.session, Dropping, [job.id], [])]), EndFailure(0));
      && job.id in w.taking && Enabled(w, PutRunning(job.id))
      && Adrift(Next(w, PutRunning(job.id)), job.id) && Next(w, PutRunning(job.id)).returned == {}
  {
  }

  lemma FailingSections(job: AgentJob)
    ensures Runs(TakenWhileFailing(job), 6)
    ensures At(TakenWhileFailing(job), 6) == Midway(job, map[0 := Failure(job.session, Dropping, [job.id], [])])
  {
    var actions := TakenWhileFailing(job);
    var copying := Midway(job, map[0 := Failure(job.session, Copying, [], [])]);
    var removing := Midway(job, map[0 := Failure(job.session, Removing, [job.id], [])]);
    TakenFirst(job);
    MidwayFails(job);
    MidwayRemoves(job);
    AtNext(actions, 3, Midway(job, map[]), copying);
    AtNext(actions, 4, copying, removing);
    AtNext(actions, 5, removing, Midway(job, map[0 := Failure(job.session, Dropping, [job.id], [])]));
  }

  /** In that run the job comes adrift and is handed back to nobody. */
  lemma FailedWhileTaken(job: AgentJob)
    ensures Runs(TakenWhileFailing(job), 8)
    ensures Adrift(At(TakenWhileFailing(job), 8), job.id) && At(TakenWhileFailing(job), 8).returned == {}
  {
    var actions := TakenWhileFailing(job);
    var dropping := Midway(job, map[0 := Failure(job.session, Dropping, [job.id], [])]);
    FailingSections(job);
    MidwayDrops(job);
    var last := Next(dropping, EndFailure(0));
    AtNext(actions, 6, dropping, last);
    AtNext(actions, 7, last, Next(last, PutRunning(job.id)));
  }
}
