/**
  The agent job database (crates/coordinator/src/agent.rs, lines 154-485): jobs waiting for a session, jobs
  running, and an index from session to job ids. `Db` is its value; the class changes three maps in place.
  Each operation is the composition of its lock sections, whose interleavings are in SessionRaces. Sending
  job events and `cleanup_session` are left out.
*/
module AgentJobs {
  import opened Wrappers

  /** Developer, agent and agent method. */
  datatype AgentKey = AgentKey(developer: string, agent: string, agentMethod: string)

  datatype AgentJob = AgentJob(id: string, session: string, key: AgentKey)

  datatype Db = Db(waiting: map<string, AgentJob>, running: map<string, AgentJob>, index: map<string, seq<string>>)

  const EMPTY: Db := Db(map[], map[], map[])

  // ---- the operations on values ----

  function Indexed(index: map<string, seq<string>>, session: string): seq<string> {
    if session in index then index[session] else []
  }

  function AddIndex(index: map<string, seq<string>>, job: AgentJob): map<string, seq<string>> {
    index[job.session := Indexed(index, job.session) + [job.id]]
  }

  /** The first section of `add_session_job`, and that of `add_to_running`. */
  function InsertWaiting(db: Db, job: AgentJob): Db {
    db.(waiting := db.waiting[job.session := job])
  }

  function InsertRunning(db: Db, job: AgentJob): Db {
    db.(running := db.running[job.id := job])
  }

  /** The second section of both. */
  function Push(db: Db, job: AgentJob): Db {
    db.(index := AddIndex(db.index, job))
  }

  function AddWaiting(db: Db, job: AgentJob): Db {
    Push(InsertWaiting(db, job), job)
  }

  function AddRunning(db: Db, job: AgentJob): Db {
    Push(InsertRunning(db, job), job)
  }

  predicate Matches(db: Db, key: AgentKey, session: string) {
    session in db.waiting && db.waiting[session].key == key
  }

  /** The first section of `get_ready_job` and of the bulk failure: the session's job stops waiting. */
  function TakeOut(db: Db, session: string): Db {
    db.(waiting := db.waiting - {session})
  }

  function Take(db: Db, key: AgentKey, session: string): Db {
    if Matches(db, key, session) then InsertRunning(TakeOut(db, session), db.waiting[session]) else db
  }

  function Finish(db: Db, id: string): Db {
    db.(running := db.running - {id})
  }

  function WaitingFor(db: Db, session: string): seq<AgentJob> {
    if session in db.waiting then [db.waiting[session]] else []
  }

  /** The running jobs among `ids`, each removed as it is found. */
  function Found(running: map<string, AgentJob>, ids: seq<string>): seq<AgentJob> {
    if ids == [] then []
    else if ids[0] in running then [running[ids[0]]] + Found(running - {ids[0]}, ids[1..])
    else Found(running, ids[1..])
  }

  function FailedJobs(db: Db, session: string): seq<AgentJob> {
    WaitingFor(db, session) + Found(db.running, Indexed(db.index, session))
  }

  function SetOf(ids: seq<string>): set<string> {
    set id | id in ids
  }

  lemma SetOfNext(ids: seq<string>, i: nat)
    requires i < |ids|
    ensures SetOf(ids[..i + 1]) == SetOf(ids[..i]) + {ids[i]}
  {
    assert ids[..i + 1] == ids[..i] + [ids[i]];
  }

  /** The third section of the bulk failure, and the fourth; the second only copies the index entry. */
  function RemoveIds(db: Db, ids: seq<string>): Db {
    db.(running := db.running - SetOf(ids))
  }

  function DropIndex(db: Db, session: string): Db {
    db.(index := db.index - {session})
  }

  function FailAll(db: Db, session: string): Db {
    DropIndex(RemoveIds(TakeOut(db, session), Indexed(db.index, session)), session)
  }

  // ---- the class ----

  class AgentJobDatabase {
    var runningJobs: map<string, AgentJob>
    var sessionJobs: map<string, AgentJob>
    var sessionIndex: map<string, seq<string>>

    function Abs(): Db
      reads this
    {
      Db(sessionJobs, runningJobs, sessionIndex)
    }

    constructor ()
      ensures Abs() == EMPTY
    {
      runningJobs := map[];
      sessionJobs := map[];
      sessionIndex := map[];
    }

    method AddSessionJob(job: AgentJob)
      modifies this
      ensures Abs() == AddWaiting(old(Abs()), job)
    {
      sessionJobs := sessionJobs[job.session := job];
      if job.session !in sessionIndex {
        sessionIndex := sessionIndex[job.session := []];
      }
      sessionIndex := sessionIndex[job.session := sessionIndex[job.session] + [job.id]];
    }

    method GetReadyJob(key: AgentKey, session: string) returns (job: Option<AgentJob>)
      modifies this
      ensures Abs() == Take(old(Abs()), key, session)
      ensures job.Some? <==> session in old(sessionJobs) && old(sessionJobs)[session].key == key
      ensures job.Some? ==>
                && job.value == old(sessionJobs)[session] && sessionJobs == old(sessionJobs) - {session}
                && runningJobs == old(runningJobs)[job.value.id := job.value] && sessionIndex == old(sessionIndex)
      ensures job.None? ==> Abs() == old(Abs())
    {
      job := None;
      if session in sessionJobs {
        var candidate := sessionJobs[session];
        if candidate.key == key {
          sessionJobs := sessionJobs - {session};
          job := Some(candidate);
        }
      }
      if job.Some? {
        runningJobs := runningJobs[job.value.id := job.value];
      }
    }

    /** `complete_job`, `fail_job`, `terminate_job` and `release_job` all do this. */
    method RemoveRunning(id: string) returns (job: Option<AgentJob>)
      modifies this
      ensures Abs() == Finish(old(Abs()), id)
      ensures job == if id in old(runningJobs) then Some(old(runningJobs)[id]) else None
    {
      job := if id in runningJobs then Some(runningJobs[id]) else None;
      runningJobs := runningJobs - {id};
    }

    /** The running job with this id, if there is one. */
    method GetJobById(id: string) returns (job: Option<AgentJob>)
      ensures job == if id in runningJobs then Some(runningJobs[id]) else None
      ensures Keyed(Abs()) ==> forall j: AgentJob :: job == Some(j) <==> j in runningJobs.Values && j.id == id
    {
      job := if id in runningJobs then Some(runningJobs[id]) else None;
    }

    method AddToRunning(job: AgentJob)
      modifies this
      ensures Abs() == AddRunning(old(Abs()), job)
    {
      runningJobs := runningJobs[job.id := job];
      if job.session !in sessionIndex {
        sessionIndex := sessionIndex[job.session := []];
      }
      sessionIndex := sessionIndex[job.session := sessionIndex[job.session] + [job.id]];
    }

    /** This finds exactly what failing the session would return. */
    method GetJobsBySession(session: string) returns (jobs: seq<AgentJob>)
      requires Keyed(Abs())
      ensures jobs == FailedJobs(Abs(), session)
    {
      jobs := [];
      if session in sessionJobs {
        jobs := jobs + [sessionJobs[session]];
      }
      var ids := if session in sessionIndex then sessionIndex[session] else [];
      ghost var db := Abs();
      for i := 0 to |ids|
        invariant jobs == WaitingFor(db, session) + Found(runningJobs, ids[..i])
      {
        FoundNext(runningJobs, ids, i);
        if ids[i] in runningJobs {
          var job := runningJobs[ids[i]];
          NotListedYet(db, session, i);
          if !(exists k :: 0 <= k < |jobs| && jobs[k].id == job.id) {
            jobs := jobs + [job];
          }
        }
      }
      assert ids[..|ids|] == ids;
    }

    method RemoveEach(ids: seq<string>) returns (removed: seq<AgentJob>)
      modifies this`runningJobs
      ensures removed == Found(old(runningJobs), ids)
      ensures runningJobs == old(runningJobs) - SetOf(ids)
    {
      removed := [];
      ghost var before := runningJobs;
      for i := 0 to |ids|
        invariant Found(before, ids) == removed + Found(runningJobs, ids[i..])
        invariant runningJobs == before - SetOf(ids[..i])
      {
        assert ids[i..][1..] == ids[i + 1..];
        SetOfNext(ids, i);
        if ids[i] in runningJobs {
          removed := removed + [runningJobs[ids[i]]];
          runningJobs := runningJobs - {ids[i]};
        }
      }
      assert ids[..|ids|] == ids;
    }

    method FailAllRemainingSessionJobs(session: string) returns (failed: seq<AgentJob>)
      modifies this
      ensures failed == FailedJobs(old(Abs()), session)
      ensures Abs() == FailAll(old(Abs()), session)
    {
      failed := [];
      if session in sessionJobs {
        failed := failed + [sessionJobs[session]];
        sessionJobs := sessionJobs - {session};
      }
      var ids := if session in sessionIndex then sessionIndex[session] else [];
      var removed := RemoveEach(ids);
      failed := failed + removed;
      sessionIndex := sessionIndex - {session};
    }
  }

  // ---- keys ----

  ghost predicate NoRepeats(ids: seq<string>) {
    forall i, j :: 0 <= i < j < |ids| ==> ids[i] != ids[j]
  }

  /** Jobs are filed under their own id or session, none both waits and runs, and none is indexed twice. */
  ghost predicate Keyed(db: Db) {
    && (forall id :: id in db.running ==> db.running[id].id == id)
    && (forall session :: session in db.waiting ==>
          db.waiting[session].session == session && db.waiting[session].id !in db.running)
    && (forall session :: session in db.index ==> NoRepeats(db.index[session]))
  }

  // ---- what is added ----

  /** An added job, waiting or running, is found under its session or its id, and joins the index of its session. */
  lemma AddedIsIndexed(db: Db, job: AgentJob)
    ensures
      var next := AddWaiting(db, job);
      && next.waiting == db.waiting[job.session := job] && next.running == db.running
      && job.session in next.index && next.index[job.session] == Indexed(db.index, job.session) + [job.id]
    ensures
      var next := AddRunning(db, job);
      && next.running == db.running[job.id := job] && next.waiting == db.waiting
      && job.session in next.index && next.index[job.session] == Indexed(db.index, job.session) + [job.id]
  {
  }

  // ---- what is found ----

  lemma {:induction false} FoundIff(running: map<string, AgentJob>, ids: seq<string>, job: AgentJob)
    requires forall id :: id in running ==> running[id].id == id
    ensures job in Found(running, ids) <==> job.id in ids && job.id in running && running[job.id] == job
    decreases |ids|
  {
    if ids != [] {
      if ids[0] in running {
        FoundIff(running - {ids[0]}, ids[1..], job);
      } else {
        FoundIff(running, ids[1..], job);
      }
    }
  }

  ghost predicate DistinctJobs(jobs: seq<AgentJob>) {
    forall i, j :: 0 <= i < j < |jobs| ==> jobs[i].id != jobs[j].id
  }

  lemma {:induction false} FoundDistinct(running: map<string, AgentJob>, ids: seq<string>)
    requires forall id :: id in running ==> running[id].id == id
    ensures DistinctJobs(Found(running, ids))
    decreases |ids|
  {
    if ids != [] {
      if ids[0] in running {
        var rest := Found(running - {ids[0]}, ids[1..]);
        FoundDistinct(running - {ids[0]}, ids[1..]);
        forall j | 0 <= j < |rest|
          ensures rest[j].id != ids[0]
        {
          FoundIff(running - {ids[0]}, ids[1..], rest[j]);
        }
      } else {
        FoundDistinct(running, ids[1..]);
      }
    }
  }

  lemma {:induction false} FoundConcat(running: map<string, AgentJob>, x: seq<string>, id: string)
    requires id !in x
    ensures Found(running, x + [id]) == Found(running, x) + if id in running then [running[id]] else []
    decreases |x|
  {
    if x == [] {
      assert x + [id] == [id];
      assert [id][1..] == [];
      assert Found(running, []) == [];
    } else {
      assert (x + [id])[1..] == x[1..] + [id];
      if x[0] in running {
        FoundConcat(running - {x[0]}, x[1..], id);
      } else {
        FoundConcat(running, x[1..], id);
      }
    }
  }

  lemma FoundNext(running: map<string, AgentJob>, ids: seq<string>, i: nat)
    requires i < |ids|
    ensures NoRepeats(ids) ==>
              Found(running, ids[..i + 1])
              == Found(running, ids[..i]) + if ids[i] in running then [running[ids[i]]] else []
  {
    if NoRepeats(ids) {
      assert ids[..i + 1] == ids[..i] + [ids[i]];
      FoundConcat(running, ids[..i], ids[i]);
    }
  }

  lemma NotListedYet(db: Db, session: string, i: nat)
    requires Keyed(db) && i < |Indexed(db.index, session)|
    ensures
      var id := Indexed(db.index, session)[i];
      var jobs := WaitingFor(db, session) + Found(db.running, Indexed(db.index, session)[..i]);
      id in db.running ==> forall k :: 0 <= k < |jobs| ==> jobs[k].id != id
  {
    var ids := Indexed(db.index, session);
    var found := Found(db.running, ids[..i]);
    forall k | 0 <= k < |found|
      ensures found[k].id != ids[i]
    {
      FoundIff(db.running, ids[..i], found[k]);
    }
  }

  /** What failing a session returns: its waiting job and its indexed running jobs. */
  lemma FailedIff(db: Db, session: string, job: AgentJob)
    requires Keyed(db)
    ensures job in FailedJobs(db, session)
       <==> (session in db.waiting && db.waiting[session] == job)
            || (job.id in Indexed(db.index, session) && job.id in db.running && db.running[job.id] == job)
  {
    FoundIff(db.running, Indexed(db.index, session), job);
    if session in db.waiting {
      assert db.waiting[session] in WaitingFor(db, session);
    }
  }

  /** Each of them once. */
  lemma FailedDistinct(db: Db, session: string)
    requires Keyed(db)
    ensures DistinctJobs(FailedJobs(db, session))
  {
    var found := Found(db.running, Indexed(db.index, session));
    FoundDistinct(db.running, Indexed(db.index, session));
    forall j | 0 <= j < |found|
      ensures session in db.waiting ==> found[j].id != db.waiting[session].id
    {
      FoundIff(db.running, Indexed(db.index, session), found[j]);
    }
  }
}
