/**
  The expiring job locks (crates/coordinator/src/job_lock.rs, lines 8-134). The table is a map from job key
  to the time of acquisition; a guard releases its key when it is dropped. Time is a parameter of every
  call and never runs backwards within a run.
*/
module JobLocks {
  import opened Wrappers

  const STUCK_JOB_TIMEOUT_SECS: nat := 600

  datatype JobKey = JobKey(appInstance: string, sequence: nat)

  type Table = map<JobKey, nat>

  // ---- the table ----

  function Elapsed(now: nat, since: nat): nat {
    if now >= since then now - since else 0
  }

  /** Forgets every expired entry. */
  function Retained(locks: Table, timeout: nat, now: nat): Table {
    map key | key in locks && Elapsed(now, locks[key]) < timeout :: locks[key]
  }

  /** An attempt on a key succeeds when the key has no entry that is still fresh. */
  predicate Grants(locks: Table, timeout: nat, key: JobKey, now: nat) {
    !(key in locks && Elapsed(now, locks[key]) < timeout)
  }

  function AfterTry(locks: Table, timeout: nat, key: JobKey, now: nat): Table {
    if Grants(locks, timeout, key, now) then Retained(locks, timeout, now)[key := now]
    else Retained(locks, timeout, now)
  }

  class JobLockGuard {
    const manager: JobLockManager
    const jobKey: JobKey

    constructor (manager: JobLockManager, jobKey: JobKey)
      ensures this.manager == manager && this.jobKey == jobKey
    {
      this.manager := manager;
      this.jobKey := jobKey;
    }

    /** Releases the key, whoever holds it by now. */
    method Drop()
      modifies manager
      ensures manager.locks == old(manager.locks) - {jobKey}
    {
      manager.ReleaseJob(jobKey);
    }
  }

  class JobLockManager {
    const lockTimeout: nat
    var locks: Table

    constructor (lockTimeoutSeconds: nat)
      ensures lockTimeout == lockTimeoutSeconds && locks == map[]
    {
      lockTimeout := lockTimeoutSeconds;
      locks := map[];
    }

    method TryLockJob(jobKey: JobKey, now: nat) returns (guard: JobLockGuard?)
      modifies this
      ensures guard != null <==> Grants(old(locks), lockTimeout, jobKey, now)
      ensures guard != null ==> fresh(guard) && guard.manager == this && guard.jobKey == jobKey
      ensures locks == AfterTry(old(locks), lockTimeout, jobKey, now)
      ensures forall key :: key in locks && locks[key] < now ==> now - locks[key] < lockTimeout
    {
      locks := map key | key in locks && Elapsed(now, locks[key]) < lockTimeout :: locks[key];
      if jobKey in locks {
        return null;
      }
      locks := locks[jobKey := now];
      guard := new JobLockGuard(this, jobKey);
    }

    method ReleaseJob(jobKey: JobKey)
      modifies this
      ensures locks == old(locks) - {jobKey}
    {
      locks := locks - {jobKey};
    }

    method IsLocked(jobKey: JobKey, now: nat) returns (locked: bool)
      modifies this
      ensures locked <==> !Grants(old(locks), lockTimeout, jobKey, now)
      ensures locks == Retained(old(locks), lockTimeout, now)
      ensures forall key :: key in locks && locks[key] < now ==> now - locks[key] < lockTimeout
    {
      locks := map key | key in locks && Elapsed(now, locks[key]) < lockTimeout :: locks[key];
      locked := jobKey in locks;
    }
  }

  // ---- runs ----

  /** A guard: its key and when it was taken. */
  datatype Guard = Guard(key: JobKey, since: nat)

  /** Guards are numbered in the order they are taken; `guards` are those not yet dropped. */
  datatype World = World(locks: Table, guards: map<nat, Guard>, taken: nat, clock: nat)

  datatype Event = TryLock(key: JobKey, now: nat) | Drop(id: nat, now: nat) | Ask(key: JobKey, now: nat)

  predicate Enabled(w: World, event: Event) {
    w.clock <= event.now && (event.Drop? ==> event.id in w.guards)
  }

  predicate Acquires(w: World, timeout: nat, event: Event, key: JobKey) {
    event.TryLock? && event.key == key && Grants(w.locks, timeout, key, event.now)
  }

  predicate Drops(w: World, event: Event, key: JobKey) {
    event.Drop? && event.id in w.guards && w.guards[event.id].key == key
  }

  function Next(w: World, timeout: nat, event: Event): World
    requires Enabled(w, event)
  {
    match event
    case TryLock(key, now) =>
      var locks := AfterTry(w.locks, timeout, key, now);
      if Grants(w.locks, timeout, key, now) then
        World(locks, w.guards[w.taken := Guard(key, now)], w.taken + 1, now)
      else
        w.(locks := locks, clock := now)
    case Drop(id, now) => w.(locks := w.locks - {w.guards[id].key}, guards := w.guards - {id}, clock := now)
    case Ask(_, now) => w.(locks := Retained(w.locks, timeout, now), clock := now)
  }

  const EMPTY: World := World(map[], map[], 0, 0)

  /** The first `n` events can happen one after another, starting with no lock taken. */
  predicate Runs(timeout: nat, events: seq<Event>, n: nat)
    requires n <= |events|
    decreases n, 0
  {
    n == 0 || (Runs(timeout, events, n - 1) && Enabled(At(timeout, events, n - 1), events[n - 1]))
  }

  function At(timeout: nat, events: seq<Event>, n: nat): World
    requires n <= |events| && Runs(timeout, events, n)
    decreases n, 1
  {
    if n == 0 then EMPTY else Next(At(timeout, events, n - 1), timeout, events[n - 1])
  }

  lemma {:induction false} RunsBefore(timeout: nat, events: seq<Event>, m: nat, n: nat)
    requires m <= n <= |events| && Runs(timeout, events, n)
    ensures Runs(timeout, events, m)
    decreases n
  {
    if m < n {
      RunsBefore(timeout, events, m, n - 1);
    }
  }

  // ---- exclusion while guards are dropped in time ----

  /** No guard is as old as the timeout. */
  predicate Young(w: World, timeout: nat, now: nat) {
    forall id :: id in w.guards ==> Elapsed(now, w.guards[id].since) < timeout
  }

  /** Whenever something happens in the run, every guard not yet dropped is younger than the timeout. */
  predicate Timely(timeout: nat, events: seq<Event>, n: nat)
    requires n <= |events| && Runs(timeout, events, n)
    decreases n
  {
    n == 0
    || (Timely(timeout, events, n - 1) && Young(At(timeout, events, n - 1), timeout, events[n - 1].now))
  }

  /** The table is exactly the guards not yet dropped, and no two of them have the same key. */
  ghost predicate TableIsGuards(w: World) {
    && (forall id :: id in w.guards ==>
          id < w.taken && w.guards[id].key in w.locks && w.locks[w.guards[id].key] == w.guards[id].since)
    && (forall key :: key in w.locks ==> exists id :: id in w.guards && w.guards[id].key == key)
    && NoKeyTwice(w)
  }

  lemma NothingExpires(w: World, timeout: nat, now: nat)
    requires TableIsGuards(w) && Young(w, timeout, now)
    ensures Retained(w.locks, timeout, now) == w.locks
  {
    forall key | key in w.locks
      ensures Elapsed(now, w.locks[key]) < timeout
    {
      var id :| id in w.guards && w.guards[id].key == key;
    }
  }

  lemma DropStep(w: World, timeout: nat, event: Event)
    requires event.Drop? && Enabled(w, event) && TableIsGuards(w)
    ensures TableIsGuards(Next(w, timeout, event))
  {
    var w' := Next(w, timeout, event);
    forall key | key in w'.locks
      ensures exists id :: id in w'.guards && w'.guards[id].key == key
    {
      var id :| id in w.guards && w.guards[id].key == key;
      assert id in w'.guards && w'.guards[id].key == key;
    }
  }

  lemma TryStep(w: World, timeout: nat, event: Event)
    requires event.TryLock? && Enabled(w, event) && TableIsGuards(w) && Young(w, timeout, event.now)
    ensures TableIsGuards(Next(w, timeout, event))
  {
    NothingExpires(w, timeout, event.now);
    var w' := Next(w, timeout, event);
    if Grants(w.locks, timeout, event.key, event.now) {
      forall key | key in w'.locks
        ensures exists id :: id in w'.guards && w'.guards[id].key == key
      {
        if key == event.key {
          assert w'.guards[w.taken].key == key;
        } else {
          var id :| id in w.guards && w.guards[id].key == key;
          assert id in w'.guards && w'.guards[id].key == key;
        }
      }
    }
  }

  /** For every timeout: while guards are dropped in time, a job is never held twice. */
  lemma {:induction false} Exclusive(timeout: nat, events: seq<Event>, n: nat)
    requires n <= |events| && Runs(timeout, events, n) && Timely(timeout, events, n)
    ensures TableIsGuards(At(timeout, events, n))
    decreases n
  {
    if n > 0 {
      Exclusive(timeout, events, n - 1);
      var w, event := At(timeout, events, n - 1), events[n - 1];
      match event {
        case TryLock(_, _) => TryStep(w, timeout, event);
        case Drop(_, _) => DropStep(w, timeout, event);
        case Ask(_, now) => NothingExpires(w, timeout, now);
      }
    }
  }

  // ---- without that hypothesis ----

  /** The key was taken at `since` or later, or a whole timeout has passed. */
  predicate StillBlocked(w: World, timeout: nat, key: JobKey, since: nat) {
    since + timeout <= w.clock || (key in w.locks && since <= w.locks[key] <= w.clock)
  }

  lemma BlockedStep(w: World, timeout: nat, event: Event, key: JobKey, since: nat)
    requires Enabled(w, event) && StillBlocked(w, timeout, key, since) && !Drops(w, event, key)
    ensures StillBlocked(Next(w, timeout, event), timeout, key, since)
  {
  }

  lemma {:induction false} BlockedUntil(timeout: nat, events: seq<Event>, i: nat, n: nat, key: JobKey)
    requires i < n <= |events| && Runs(timeout, events, n) && Runs(timeout, events, i)
    requires Acquires(At(timeout, events, i), timeout, events[i], key)
    requires NoDrop(timeout, events, i + 1, n, key)
    ensures StillBlocked(At(timeout, events, n), timeout, key, events[i].now)
    decreases n
  {
    if n > i + 1 {
      BlockedUntil(timeout, events, i, n - 1, key);
      BlockedStep(At(timeout, events, n - 1), timeout, events[n - 1], key, events[i].now);
    }
  }

  /** No guard of the key is dropped by the events from `i` up to `n`. */
  predicate NoDrop(timeout: nat, events: seq<Event>, i: nat, n: nat, key: JobKey)
    requires i <= n <= |events| && Runs(timeout, events, n)
    decreases n
  {
    i == n || (NoDrop(timeout, events, i, n - 1, key) && !Drops(At(timeout, events, n - 1), events[n - 1], key))
  }

  /**
    In every run, however late guards are dropped: two acquisitions of a key with no drop of that key
    between them are at least the timeout apart.
  */
  lemma AcquisitionsApart(timeout: nat, events: seq<Event>, i: nat, j: nat, key: JobKey)
    requires i < j < |events| && Runs(timeout, events, i) && Runs(timeout, events, j + 1)
    requires Acquires(At(timeout, events, i), timeout, events[i], key)
    requires Acquires(At(timeout, events, j), timeout, events[j], key)
    requires NoDrop(timeout, events, i + 1, j, key)
    ensures events[i].now + timeout <= events[j].now
  {
    BlockedUntil(timeout, events, i, j, key);
  }

  // ---- exactly when a job is never held twice ----

  predicate NoKeyTwice(w: World) {
    forall id, other :: id in w.guards && other in w.guards && w.guards[id].key == w.guards[other].key ==> id == other
  }

  /** No guard of the key is as old as the timeout. */
  predicate YoungOn(w: World, timeout: nat, key: JobKey, now: nat) {
    forall id :: id in w.guards && w.guards[id].key == key ==> Elapsed(now, w.guards[id].since) < timeout
  }

  /** Nobody tries a key while an expired guard of that key is still around. */
  predicate Punctual(timeout: nat, events: seq<Event>, n: nat)
    requires n <= |events| && Runs(timeout, events, n)
    decreases n
  {
    n == 0
    || (Punctual(timeout, events, n - 1)
        && (events[n - 1].TryLock? ==>
              YoungOn(At(timeout, events, n - 1), timeout, events[n - 1].key, events[n - 1].now)))
  }

  predicate Held(w: World, key: JobKey) {
    exists id :: id in w.guards && w.guards[id].key == key
  }

  /** Entries belong to guards, and a guard without its entry has expired. */
  predicate Tracked(w: World, timeout: nat) {
    && NoKeyTwice(w)
    && (forall key :: key in w.locks ==> Held(w, key))
    && (forall id :: id in w.guards ==>
          && id < w.taken
          && (w.guards[id].key in w.locks ==> w.locks[w.guards[id].key] == w.guards[id].since)
          && (w.guards[id].key !in w.locks ==> Elapsed(w.clock, w.guards[id].since) >= timeout))
  }

  lemma TrackedForget(w: World, timeout: nat, now: nat)
    requires Tracked(w, timeout) && w.clock <= now
    ensures Tracked(w.(locks := Retained(w.locks, timeout, now), clock := now), timeout)
  {
    var w' := w.(locks := Retained(w.locks, timeout, now), clock := now);
    forall key | key in w'.locks
      ensures Held(w', key)
    {
      assert Held(w, key);
    }
  }

  lemma TrackedDrop(w: World, timeout: nat, event: Event)
    requires event.Drop? && Enabled(w, event) && Tracked(w, timeout)
    ensures Tracked(Next(w, timeout, event), timeout)
  {
    var w' := Next(w, timeout, event);
    forall key | key in w'.locks
      ensures Held(w', key)
    {
      assert Held(w, key);
      var id :| id in w.guards && w.guards[id].key == key;
      assert id in w'.guards && w'.guards[id].key == key;
    }
  }

  /** A key is granted exactly when it has no guard, or its guard has expired. */
  lemma GrantIff(w: World, timeout: nat, key: JobKey, now: nat)
    requires Tracked(w, timeout) && w.clock <= now
    ensures Held(w, key) ==> (Grants(w.locks, timeout, key, now) <==> !YoungOn(w, timeout, key, now))
    ensures !Held(w, key) ==> Grants(w.locks, timeout, key, now)
  {
  }

  /** A granted key gets a guard and its entry; every other guard and its entry stay. */
  lemma GrantEffect(w: World, timeout: nat, key: JobKey, now: nat)
    requires Tracked(w, timeout) && !Held(w, key) && w.clock <= now
    ensures
      var mid := w.(locks := Retained(w.locks, timeout, now), clock := now);
      Next(w, timeout, TryLock(key, now))
      == mid.(locks := mid.locks[key := now], guards := w.guards[w.taken := Guard(key, now)], taken := w.taken + 1)
  {
    GrantIff(w, timeout, key, now);
  }

  lemma TrackedGrant(w: World, timeout: nat, key: JobKey, now: nat)
    requires Tracked(w, timeout) && !Held(w, key) && w.clock <= now
    ensures Tracked(Next(w, timeout, TryLock(key, now)), timeout)
  {
    TrackedForget(w, timeout, now);
    GrantEffect(w, timeout, key, now);
    GuardAdded(w.(locks := Retained(w.locks, timeout, now), clock := now), timeout, key);
  }

  lemma GuardAdded(w: World, timeout: nat, key: JobKey)
    requires Tracked(w, timeout) && !Held(w, key)
    ensures Tracked(w.(locks := w.locks[key := w.clock], guards := w.guards[w.taken := Guard(key, w.clock)],
                       taken := w.taken + 1), timeout)
  {
    var w' := w.(locks := w.locks[key := w.clock], guards := w.guards[w.taken := Guard(key, w.clock)],
                 taken := w.taken + 1);
    assert w'.guards[w.taken].key == key;
    forall k | k in w'.locks
      ensures Held(w', k)
    {
      if k != key {
        assert Held(w, k);
        var id :| id in w.guards && w.guards[id].key == k;
        assert id in w'.guards && w'.guards[id].key == k;
      }
    }
  }

  lemma TrackedStep(w: World, timeout: nat, event: Event)
    requires Enabled(w, event) && Tracked(w, timeout)
    requires event.TryLock? ==> YoungOn(w, timeout, event.key, event.now)
    ensures Tracked(Next(w, timeout, event), timeout)
  {
    match event {
      case TryLock(key, now) =>
        GrantIff(w, timeout, key, now);
        if Held(w, key) {
          TrackedForget(w, timeout, now);
        } else {
          TrackedGrant(w, timeout, key, now);
        }
      case Drop(_, _) => TrackedDrop(w, timeout, event);
      case Ask(_, now) => TrackedForget(w, timeout, now);
    }
  }

  lemma {:induction false} PunctualTracks(timeout: nat, events: seq<Event>, n: nat)
    requires n <= |events| && Runs(timeout, events, n) && Punctual(timeout, events, n)
    ensures Tracked(At(timeout, events, n), timeout)
    decreases n
  {
    if n > 0 {
      PunctualTracks(timeout, events, n - 1);
      TrackedStep(At(timeout, events, n - 1), timeout, events[n - 1]);
    }
  }

  /** A late attempt is granted, and then two guards share the key. */
  lemma LateAttempt(w: World, timeout: nat, key: JobKey, now: nat)
    requires Tracked(w, timeout) && w.clock <= now && !YoungOn(w, timeout, key, now)
    ensures !NoKeyTwice(Next(w, timeout, TryLock(key, now)))
  {
    var id :| id in w.guards && w.guards[id].key == key && !(Elapsed(now, w.guards[id].since) < timeout);
    assert Held(w, key);
    GrantIff(w, timeout, key, now);
    var w' := Next(w, timeout, TryLock(key, now));
    assert w'.guards[w.taken].key == key && w'.guards[id].key == key;
  }

  /** In all states of the run no key has two guards. */
  predicate AlwaysExclusive(timeout: nat, events: seq<Event>, n: nat)
    requires n <= |events| && Runs(timeout, events, n)
    decreases n
  {
    NoKeyTwice(At(timeout, events, n)) && (n > 0 ==> AlwaysExclusive(timeout, events, n - 1))
  }

  /**
    A job is never held twice if and only if no attempt on a key comes while a guard of that key, as old as
    the timeout, has not been dropped.
  */
  lemma {:induction false} ExclusiveIff(timeout: nat, events: seq<Event>, n: nat)
    requires n <= |events| && Runs(timeout, events, n)
    ensures AlwaysExclusive(timeout, events, n) <==> Punctual(timeout, events, n)
    decreases n
  {
    if n > 0 {
      ExclusiveIff(timeout, events, n - 1);
      if Punctual(timeout, events, n - 1) {
        PunctualTracks(timeout, events, n - 1);
        if Punctual(timeout, events, n) {
          PunctualTracks(timeout, events, n);
        } else {
          LateAttempt(At(timeout, events, n - 1), timeout, events[n - 1].key, events[n - 1].now);
        }
      }
    }
  }

  // ---- exactly when no two guards of a key are both unexpired ----

  predicate Fresh(guard: Guard, timeout: nat, now: nat) {
    Elapsed(now, guard.since) < timeout
  }

  predicate NoTwoFresh(w: World, timeout: nat) {
    forall id, other :: id in w.guards && other in w.guards && w.guards[id].key == w.guards[other].key
                        && Fresh(w.guards[id], timeout, w.clock) && Fresh(w.guards[other], timeout, w.clock)
                        ==> id == other
  }

  /** An unexpired guard of the key is held although the table has no entry for it. */
  predicate Bare(w: World, timeout: nat, key: JobKey, now: nat) {
    key !in w.locks && exists id :: id in w.guards && w.guards[id].key == key && Fresh(w.guards[id], timeout, now)
  }

  /** An entry is at least as young as every guard of its key. */
  predicate EntryIsYoungest(w: World) {
    && (forall id :: id in w.guards ==> id < w.taken && w.guards[id].since <= w.clock)
    && (forall id :: id in w.guards && w.guards[id].key in w.locks ==>
          w.guards[id].since <= w.locks[w.guards[id].key] <= w.clock)
  }

  lemma YoungestStep(w: World, timeout: nat, event: Event)
    requires Enabled(w, event) && EntryIsYoungest(w)
    ensures EntryIsYoungest(Next(w, timeout, event))
  {
  }

  lemma {:induction false} AlwaysYoungest(timeout: nat, events: seq<Event>, n: nat)
    requires n <= |events| && Runs(timeout, events, n)
    ensures EntryIsYoungest(At(timeout, events, n))
    decreases n
  {
    if n > 0 {
      AlwaysYoungest(timeout, events, n - 1);
      YoungestStep(At(timeout, events, n - 1), timeout, events[n - 1]);
    }
  }

  /** A step makes a second unexpired guard exactly when it tries a key whose unexpired guard has no entry. */
  lemma FreshStepIff(w: World, timeout: nat, event: Event)
    requires Enabled(w, event) && EntryIsYoungest(w) && NoTwoFresh(w, timeout)
    ensures NoTwoFresh(Next(w, timeout, event), timeout)
       <==> !(event.TryLock? && Bare(w, timeout, event.key, event.now))
  {
    if event.TryLock? {
      if Bare(w, timeout, event.key, event.now) {
        BareAttempt(w, timeout, event.key, event.now);
      } else {
        CoveredAttempt(w, timeout, event.key, event.now);
      }
    }
  }

  lemma BareAttempt(w: World, timeout: nat, key: JobKey, now: nat)
    requires w.clock <= now && EntryIsYoungest(w) && Bare(w, timeout, key, now)
    ensures !NoTwoFresh(Next(w, timeout, TryLock(key, now)), timeout)
  {
    var id :| id in w.guards && w.guards[id].key == key && Fresh(w.guards[id], timeout, now);
    var w' := Next(w, timeout, TryLock(key, now));
    assert w'.guards[w.taken] == Guard(key, now) && w'.guards[id] == w.guards[id];
  }

  /** With its entry in the table, an unexpired guard makes every attempt on its key fail. */
  lemma CoveredAttempt(w: World, timeout: nat, key: JobKey, now: nat)
    requires w.clock <= now && EntryIsYoungest(w) && NoTwoFresh(w, timeout) && !Bare(w, timeout, key, now)
    ensures NoTwoFresh(Next(w, timeout, TryLock(key, now)), timeout)
  {
    if Grants(w.locks, timeout, key, now) {
      forall id | id in w.guards && w.guards[id].key == key
        ensures !Fresh(w.guards[id], timeout, now)
      {
      }
    }
  }

  /** In all states of the run no key has two unexpired guards. */
  predicate AlwaysOneFresh(timeout: nat, events: seq<Event>, n: nat)
    requires n <= |events| && Runs(timeout, events, n)
    decreases n
  {
    NoTwoFresh(At(timeout, events, n), timeout) && (n > 0 ==> AlwaysOneFresh(timeout, events, n - 1))
  }

  /** Another guard of the same key was dropped after guard `id` was taken. */
  predicate Overtaken(timeout: nat, events: seq<Event>, n: nat, id: nat)
    requires n <= |events| && Runs(timeout, events, n)
    decreases n
  {
    && n > 0 && id in At(timeout, events, n - 1).guards
    && (Drops(At(timeout, events, n - 1), events[n - 1], At(timeout, events, n - 1).guards[id].key)
        || Overtaken(timeout, events, n - 1, id))
  }

  /** An unexpired guard of the key has been overtaken. */
  predicate AnyOvertaken(timeout: nat, events: seq<Event>, n: nat, key: JobKey, now: nat)
    requires n <= |events| && Runs(timeout, events, n)
  {
    var guards := At(timeout, events, n).guards;
    exists id :: id in guards && guards[id].key == key && Fresh(guards[id], timeout, now)
                 && Overtaken(timeout, events, n, id)
  }

  /** Nobody tries a key while an unexpired guard of it has been overtaken. */
  predicate NobodyIntrudes(timeout: nat, events: seq<Event>, n: nat)
    requires n <= |events| && Runs(timeout, events, n)
    decreases n
  {
    n == 0
    || (NobodyIntrudes(timeout, events, n - 1)
        && (events[n - 1].TryLock? ==> !AnyOvertaken(timeout, events, n - 1, events[n - 1].key, events[n - 1].now)))
  }

  /** What a step does to the entry of a guard that is unexpired after it. */
  lemma EntryStep(w: World, timeout: nat, event: Event, id: nat)
    requires Enabled(w, event) && EntryIsYoungest(w) && id in Next(w, timeout, event).guards
    requires Fresh(Next(w, timeout, event).guards[id], timeout, event.now)
    ensures
      var key, w' := Next(w, timeout, event).guards[id].key, Next(w, timeout, event);
      && (id !in w.guards ==> key in w'.locks)
      && (id in w.guards && key in w.locks ==> (key !in w'.locks <==> Drops(w, event, key)))
      && (id in w.guards && key !in w.locks && !(event.TryLock? && event.key == key) ==> key !in w'.locks)
  {
  }

  /** While nobody intrudes, an unexpired guard has no entry exactly when it has been overtaken. */
  lemma {:induction false} BareIff(timeout: nat, events: seq<Event>, n: nat, id: nat)
    requires n <= |events| && Runs(timeout, events, n) && NobodyIntrudes(timeout, events, n)
    requires id in At(timeout, events, n).guards
    requires Fresh(At(timeout, events, n).guards[id], timeout, At(timeout, events, n).clock)
    ensures At(timeout, events, n).guards[id].key !in At(timeout, events, n).locks
       <==> Overtaken(timeout, events, n, id)
    decreases n
  {
    if n > 0 {
      var w, event := At(timeout, events, n - 1), events[n - 1];
      AlwaysYoungest(timeout, events, n - 1);
      EntryStep(w, timeout, event, id);
      if id in w.guards {
        BareIff(timeout, events, n - 1, id);
        assert event.TryLock? ==> !AnyOvertaken(timeout, events, n - 1, event.key, event.now);
      }
    }
  }

  /** In such a run the two ways to say that a key is at risk agree. */
  lemma BareIsOvertaken(timeout: nat, events: seq<Event>, n: nat, key: JobKey, now: nat)
    requires n <= |events| && Runs(timeout, events, n) && NobodyIntrudes(timeout, events, n)
    requires At(timeout, events, n).clock <= now
    ensures Bare(At(timeout, events, n), timeout, key, now) <==> AnyOvertaken(timeout, events, n, key, now)
  {
    var w := At(timeout, events, n);
    forall id | id in w.guards && w.guards[id].key == key && Fresh(w.guards[id], timeout, now)
      ensures key !in w.locks <==> Overtaken(timeout, events, n, id)
    {
      BareIff(timeout, events, n, id);
    }
  }

  /**
    No key ever has two unexpired guards if and only if nobody tries a key one of whose unexpired guards has
    seen another guard of the key dropped.
  */
  lemma {:induction false} OneFreshIff(timeout: nat, events: seq<Event>, n: nat)
    requires n <= |events| && Runs(timeout, events, n)
    ensures AlwaysOneFresh(timeout, events, n) <==> NobodyIntrudes(timeout, events, n)
    decreases n
  {
    if n > 0 {
      OneFreshIff(timeout, events, n - 1);
      if NobodyIntrudes(timeout, events, n - 1) {
        var w, event := At(timeout, events, n - 1), events[n - 1];
        AlwaysYoungest(timeout, events, n - 1);
        FreshStepIff(w, timeout, event);
        if event.TryLock? {
          BareIsOvertaken(timeout, events, n - 1, event.key, event.now);
        }
      }
    }
  }

  // ---- what a late drop does ----

  /** The first holder is late, a second one takes over, the first drops late, and a third gets the key too. */
  function LateDrop(timeout: nat, key: JobKey): seq<Event> {
    [TryLock(key, 0), TryLock(key, timeout), Drop(0, timeout), TryLock(key, timeout)]
  }

  lemma LateDropStart(timeout: nat, key: JobKey)
    requires timeout > 0
    ensures Runs(timeout, LateDrop(timeout, key), 2)
    ensures At(timeout, LateDrop(timeout, key), 2)
         == World(map[key := timeout], map[0 := Guard(key, 0), 1 := Guard(key, timeout)], 2, timeout)
  {
    var events := LateDrop(timeout, key);
    assert At(timeout, events, 0) == EMPTY;
    assert Runs(timeout, events, 1);
    var w1 := World(map[key := 0], map[0 := Guard(key, 0)], 1, 0);
    assert At(timeout, events, 1) == w1;
    assert Runs(timeout, events, 2);
    assert Next(w1, timeout, events[1])
        == World(map[key := timeout], map[0 := Guard(key, 0), 1 := Guard(key, timeout)], 2, timeout);
  }

  /**
    The drop of an expired guard releases the key of the guard that replaced it: two guards taken at the
    same moment hold one key, neither of them expired.
  */
  lemma LateDropReleasesSuccessor(timeout: nat, key: JobKey)
    requires timeout > 0
    ensures Runs(timeout, LateDrop(timeout, key), 4)
    ensures At(timeout, LateDrop(timeout, key), 4).guards == map[1 := Guard(key, timeout), 2 := Guard(key, timeout)]
  {
    var events := LateDrop(timeout, key);
    LateDropStart(timeout, key);
    var w2 := World(map[key := timeout], map[0 := Guard(key, 0), 1 := Guard(key, timeout)], 2, timeout);
    assert Runs(timeout, events, 3);
    var w3 := World(map[], map[1 := Guard(key, timeout)], 2, timeout);
    assert Next(w2, timeout, events[2]) == w3;
    assert At(timeout, events, 3) == w3;
    assert Runs(timeout, events, 4);
    assert Next(w3, timeout, events[3]).guards == map[1 := Guard(key, timeout), 2 := Guard(key, timeout)];
  }

  // ---- the global instance ----

  /** A timeout is zero exactly when every attempt is granted, whatever is held. */
  lemma ZeroTimeoutIff(timeout: nat, key: JobKey, now: nat)
    ensures timeout == 0 <==> forall locks: Table :: Grants(locks, timeout, key, now)
  {
    if timeout > 0 {
      assert !Grants(map[key := now], timeout, key, now);
    }
  }

  /** The global instance divides its 600 seconds by 1000, so its locks never exclude anyone. */
  lemma GlobalLockGrantsAll(locks: Table, key: JobKey, now: nat)
    ensures Grants(locks, STUCK_JOB_TIMEOUT_SECS / 1000, key, now)
  {
    ZeroTimeoutIff(STUCK_JOB_TIMEOUT_SECS / 1000, key, now);
  }
}
