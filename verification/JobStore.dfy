/**
 * The in-memory job store: a list of jobs in the order they were enqueued and a set of locked targets.
 * Nothing but the operations themselves ties the two together.
 */
module JobStore {
  import opened Options
  import opened Jobs

  type Id = nat
  datatype Job = Job(id: Id, target: Target, status: Status, claimedAt: Option<int>)
  datatype Store = Store(records: seq<Job>, active: set<Target>)

  // ---------------------------------------------------------------- the operations on values

  function Enqueued(s: Store, j: Job): Store {
    Store(s.records + [j], if Running(j.status) then s.active + {j.target} else s.active)
  }

  /** `claimNext` may take this job. */
  predicate Claimable(s: Store, target: Option<Target>, j: Job) {
    j.status == Queued && j.target !in s.active && (target.None? || target.value == j.target)
  }

  /** Position of the oldest claimable job, or the number of jobs. */
  function Oldest(s: Store, target: Option<Target>, from: nat): (i: nat)
    requires from <= |s.records|
    ensures from <= i <= |s.records| && (i < |s.records| ==> Claimable(s, target, s.records[i]))
    ensures forall k :: from <= k < i ==> !Claimable(s, target, s.records[k])
    decreases |s.records| - from
  {
    if from == |s.records| || Claimable(s, target, s.records[from]) then from else Oldest(s, target, from + 1)
  }

  function Claimed(s: Store, i: nat, now: int): Store
    requires i < |s.records|
  {
    var j := s.records[i];
    Store(s.records[i := j.(status := Validating, claimedAt := Some(now))], s.active + {j.target})
  }

  predicate Stale(j: Job, lease: int, now: int) {
    Running(j.status) && j.claimedAt.Some? && now - j.claimedAt.value > lease
  }

  function Recovered(s: Store, n: nat, lease: int, now: int): (r: Store)
    requires n <= |s.records|
    ensures |r.records| == |s.records|
  {
    if n == 0 then s
    else
      var r, j := Recovered(s, n - 1, lease, now), s.records[n - 1];
      if Stale(j, lease, now)
      then Store(r.records[n - 1 := j.(status := Queued, claimedAt := None)], r.active - {j.target})
      else r
  }

  /** A partial record; `claimedAt` is a field that may be set to nothing. */
  datatype Patch = Patch(status: Option<Status>, target: Option<Target>, claimedAt: Option<Option<int>>)

  const NO_CHANGE := Patch(None, None, None)

  function Apply(j: Job, p: Patch): Job {
    Job(j.id, p.target.GetOr(j.target), p.status.GetOr(j.status), p.claimedAt.GetOr(j.claimedAt))
  }

  /** A settled result unlocks its target, whether the patch settled it or not. */
  function Patched(s: Store, i: nat, p: Patch): Store
    requires i < |s.records|
  {
    var j := Apply(s.records[i], p);
    Store(s.records[i := j], if Settled(j.status) then s.active - {j.target} else s.active)
  }

  // ---------------------------------------------------------------- the locks

  ghost predicate Holds(s: Store, i: int, target: Target) {
    0 <= i < |s.records| && s.records[i].target == target && Running(s.records[i].status)
  }

  ghost predicate Held(s: Store, target: Target) {
    exists i :: Holds(s, i, target)
  }

  /** Exactly the targets of running jobs are locked, each by one job. */
  ghost predicate Locked(s: Store) {
    && (forall t :: t in s.active <==> Held(s, t))
    && (forall i, k, t :: Holds(s, i, t) && Holds(s, k, t) ==> i == k)
  }

  lemma EnqueueKeepsLocksIff(s: Store, j: Job)
    requires Locked(s)
    ensures Locked(Enqueued(s, j)) <==> !Running(j.status) || j.target !in s.active
  {
    var u, n := Enqueued(s, j), |s.records|;
    assert u.records[n] == j;
    assert forall i, t :: 0 <= i < n ==> (Holds(u, i, t) <==> Holds(s, i, t));
    forall t
      ensures Held(u, t) <==> Held(s, t) || (Running(j.status) && j.target == t)
    {
      if i :| Holds(s, i, t) { assert Holds(u, i, t); }
      if Running(j.status) && j.target == t { assert Holds(u, n, t); }
    }
    if Running(j.status) && j.target in s.active {
      var i :| Holds(s, i, j.target);
      assert Holds(u, i, j.target) && Holds(u, n, j.target);
    }
  }

  lemma ClaimKeepsLocks(s: Store, i: nat, now: int)
    requires Locked(s) && i < |s.records| && s.records[i].status == Queued && s.records[i].target !in s.active
    ensures Locked(Claimed(s, i, now))
  {
    var u, j := Claimed(s, i, now), s.records[i];
    assert forall k, t :: k != i ==> (Holds(u, k, t) <==> Holds(s, k, t));
    assert Holds(u, i, j.target);
    forall t
      ensures Held(u, t) <==> Held(s, t) || t == j.target
    {
      if k :| Holds(s, k, t) { assert Holds(u, k, t); }
    }
  }

  /** Overwriting the status of job `i`, and what the lock set must then be. */
  function WithStatus(s: Store, i: nat, j: Job, active: set<Target>): Store
    requires i < |s.records|
  {
    Store(s.records[i := j], active)
  }

  lemma ReleaseKeepsLocks(s: Store, i: nat, j: Job)
    requires Locked(s) && i < |s.records| && Running(s.records[i].status) && !Running(j.status) &&
             j.target == s.records[i].target
    ensures Locked(WithStatus(s, i, j, s.active - {j.target}))
  {
    var u := WithStatus(s, i, j, s.active - {j.target});
    assert Holds(s, i, j.target);
    assert forall k, t :: k != i ==> (Holds(u, k, t) <==> Holds(s, k, t));
    forall t
      ensures Held(u, t) <==> Held(s, t) && t != j.target
    {
      if k :| Holds(s, k, t) && t != j.target { assert Holds(u, k, t); }
      if k :| Holds(u, k, t) { assert k != i && Holds(s, k, t); }
    }
  }

  lemma {:induction false} RecoverKeepsLocks(s: Store, n: nat, lease: int, now: int)
    requires Locked(s) && n <= |s.records|
    ensures Locked(Recovered(s, n, lease, now))
    ensures forall k :: n <= k < |s.records| ==> Recovered(s, n, lease, now).records[k] == s.records[k]
    ensures forall k :: 0 <= k < n ==> !Stale(Recovered(s, n, lease, now).records[k], lease, now)
  {
    if n > 0 {
      RecoverKeepsLocks(s, n - 1, lease, now);
      var j := s.records[n - 1];
      if Stale(j, lease, now) {
        ReleaseKeepsLocks(Recovered(s, n - 1, lease, now), n - 1, j.(status := Queued, claimedAt := None));
      }
    }
  }

  /** A running job keeps its target and goes on running or settles; any other job does not start running, and
      settles only on a target that nobody holds. */
  ghost predicate Harmless(s: Store, i: nat, p: Patch)
    requires i < |s.records|
  {
    var before, after := s.records[i], Apply(s.records[i], p);
    if Running(before.status) then after.target == before.target && after.status != Queued
    else !Running(after.status) && (Settled(after.status) ==> after.target !in s.active)
  }

  /** Exactly the harmless updates keep the locks. */
  lemma UpdateKeepsLocksIff(s: Store, i: nat, p: Patch)
    requires Locked(s) && i < |s.records|
    ensures Locked(Patched(s, i, p)) <==> Harmless(s, i, p)
  {
    var j := Apply(s.records[i], p);
    assert Holds(s, i, s.records[i].target) <==> Running(s.records[i].status);
    if Running(s.records[i].status) {
      RunningUpdate(s, i, p);
    } else if Running(j.status) {
      StartingUpdate(s, i, p);
    } else {
      var u := Patched(s, i, p);
      assert forall k, x :: Holds(u, k, x) <==> Holds(s, k, x);
      assert forall x :: Held(u, x) <==> Held(s, x);
    }
  }

  lemma RunningUpdate(s: Store, i: nat, p: Patch)
    requires Locked(s) && i < |s.records| && Running(s.records[i].status)
    ensures Locked(Patched(s, i, p)) <==> Harmless(s, i, p)
  {
    var u, j, t := Patched(s, i, p), Apply(s.records[i], p), s.records[i].target;
    assert u.records[i] == j && Holds(s, i, t);
    assert forall k, x :: k != i ==> (Holds(u, k, x) <==> Holds(s, k, x));
    if j.target != t || j.status == Queued {
      assert !Held(u, t);
      assert t in u.active;
    } else if Settled(j.status) {
      ReleaseKeepsLocks(s, i, j);
    } else {
      assert forall k, x :: Holds(u, k, x) <==> Holds(s, k, x);
      assert forall x :: Held(u, x) <==> Held(s, x);
    }
  }

  lemma StartingUpdate(s: Store, i: nat, p: Patch)
    requires Locked(s) && i < |s.records| && !Running(s.records[i].status) && Running(Apply(s.records[i], p).status)
    ensures !Locked(Patched(s, i, p))
  {
    var u, j := Patched(s, i, p), Apply(s.records[i], p);
    assert Holds(u, i, j.target);
    assert Held(u, j.target);
    if j.target in s.active {
      var k :| Holds(s, k, j.target);
      assert k != i && Holds(u, k, j.target);
    }
  }

  // ---------------------------------------------------------------- runs

  datatype Step =
    | Enqueue(job: Job)
    | EnqueueIfIdle(job: Job)
    | Claim(target: Option<Target>, at: int)
    | Recover(lease: int, at: int)
    | Update(position: nat, patch: Patch)

  /** Nothing is queued or running. */
  predicate Idle(s: Store) {
    forall i :: 0 <= i < |s.records| ==> !Unfinished(s.records[i].status)
  }

  /** So nothing is locked either, and a job of any status may be added. */
  lemma IdleIsUnlocked(s: Store)
    requires Locked(s) && Idle(s)
    ensures s.active == {}
  {
    forall t
      ensures t !in s.active
    {
      assert !Held(s, t);
    }
  }

  function Next(s: Store, step: Step): Store {
    match step
    case Enqueue(job) => Enqueued(s, job)
    case EnqueueIfIdle(job) => if Idle(s) then Enqueued(s, job) else s
    case Claim(target, at) =>
      var i := Oldest(s, target, 0);
      if i == |s.records| then s else Claimed(s, i, at)
    case Recover(lease, at) => Recovered(s, |s.records|, lease, at)
    case Update(i, patch) => if i < |s.records| then Patched(s, i, patch) else s
  }

  function Run(s: Store, steps: seq<Step>): Store
    decreases |steps|
  {
    if steps == [] then s else Run(Next(s, steps[0]), steps[1..])
  }

  /** Only two kinds of call can go wrong: adding a running job on a held target, and a harmful update. */
  ghost predicate HarmlessStep(s: Store, step: Step) {
    match step
    case Enqueue(job) => !Running(job.status) || job.target !in s.active
    case Update(i, patch) => i < |s.records| ==> Harmless(s, i, patch)
    case _ => true
  }

  lemma StepKeepsLocksIff(s: Store, step: Step)
    requires Locked(s)
    ensures Locked(Next(s, step)) <==> HarmlessStep(s, step)
  {
    match step {
      case Enqueue(job) => EnqueueKeepsLocksIff(s, job);
      case EnqueueIfIdle(job) =>
        if Idle(s) {
          IdleIsUnlocked(s);
          EnqueueKeepsLocksIff(s, job);
        }
      case Claim(target, at) =>
        var i := Oldest(s, target, 0);
        if i < |s.records| { ClaimKeepsLocks(s, i, at); }
      case Recover(lease, at) => RecoverKeepsLocks(s, |s.records|, lease, at);
      case Update(i, patch) => if i < |s.records| { UpdateKeepsLocksIff(s, i, patch); }
    }
  }

  ghost predicate LockedThroughout(s: Store, steps: seq<Step>)
    decreases |steps|
  {
    Locked(s) && (steps != [] ==> LockedThroughout(Next(s, steps[0]), steps[1..]))
  }

  ghost predicate HarmlessThroughout(s: Store, steps: seq<Step>)
    decreases |steps|
  {
    steps != [] ==> HarmlessStep(s, steps[0]) && HarmlessThroughout(Next(s, steps[0]), steps[1..])
  }

  /** Over every run of all the calls, in every state exactly the targets of running jobs are locked, one job each,
      if and only if it is so at the start and every call is harmless. */
  lemma {:induction false} RunLocksIff(s: Store, steps: seq<Step>)
    ensures LockedThroughout(s, steps) <==> Locked(s) && HarmlessThroughout(s, steps)
    decreases |steps|
  {
    if steps != [] {
      RunLocksIff(Next(s, steps[0]), steps[1..]);
      if Locked(s) {
        StepKeepsLocksIff(s, steps[0]);
      }
    }
  }

  lemma {:induction false} RunKeepsLocks(s: Store, steps: seq<Step>)
    requires Locked(s) && HarmlessThroughout(s, steps)
    ensures Locked(Run(s, steps))
    decreases |steps|
  {
    if steps != [] {
      StepKeepsLocksIff(s, steps[0]);
      RunKeepsLocks(Next(s, steps[0]), steps[1..]);
    }
  }

  /** What the program calls: it enqueues queued jobs, adds a repair job of any status only to an idle store, and
      the worker that runs a job moves or settles it. */
  predicate ProgramCall(s: Store, step: Step) {
    match step
    case Enqueue(job) => job.status == Queued
    case Update(i, patch) =>
      i < |s.records| && Running(s.records[i].status) && patch.target.None? && patch.status != Some(Queued)
    case _ => true
  }

  lemma ProgramCallsAreHarmless(s: Store, step: Step)
    requires ProgramCall(s, step)
    ensures HarmlessStep(s, step)
  {
  }

  /** After any such run from the empty store, a claim finds a job exactly when some queued job of the wanted target
      has a target without a running job; it takes the oldest such job, stamps its claim, and nothing else changes.
      */
  lemma ClaimTakesOldestFree(steps: seq<Step>, target: Option<Target>, at: int)
    requires HarmlessThroughout(Store([], {}), steps)
    ensures var s := Run(Store([], {}), steps); var u := Next(s, Claim(target, at));
            if k: nat :| k < |s.records| && Free(s, target, k) && (forall i: nat :: i < k ==> !Free(s, target, i))
            then
              && u.records == s.records[k := Job(s.records[k].id, s.records[k].target, Validating, Some(at))]
              && u.active == s.active + {s.records[k].target}
            else u == s
  {
    var s := Run(Store([], {}), steps);
    assert Locked(Store([], {}));
    RunKeepsLocks(Store([], {}), steps);
    forall i: nat | i < |s.records|
      ensures Free(s, target, i) <==> Claimable(s, target, s.records[i])
    {
      var t := s.records[i].target;
      assert t in s.active <==> Held(s, t);
      assert forall k :: Holds(s, k, t) ==> s.records[k].status == Validating || s.records[k].status == Applying;
      assert forall k :: 0 <= k < |s.records| && s.records[k].target == t && !Holds(s, k, t) ==>
          s.records[k].status != Validating && s.records[k].status != Applying;
    }
  }

  /** A queued job of the wanted target, where no job is validating or applying. */
  ghost predicate Free(s: Store, target: Option<Target>, i: nat)
    requires i < |s.records|
  {
    && s.records[i].status == Queued && (target.None? || target.value == s.records[i].target)
    && forall k :: 0 <= k < |s.records| && s.records[k].target == s.records[i].target ==>
         s.records[k].status != Validating && s.records[k].status != Applying
  }

  // ---------------------------------------------------------------- recovery, record by record

  /** Exactly the jobs that run on a claim older than the lease are requeued; every other record is as it was. */
  lemma {:induction false} RecoveryRequeuesTheStale(s: Store, n: nat, lease: int, now: int, k: nat)
    requires n <= |s.records| && k < |s.records|
    ensures var j := s.records[k];
            Recovered(s, n, lease, now).records[k] ==
            if k < n && (j.status == Validating || j.status == Applying) && j.claimedAt.Some? &&
               now > j.claimedAt.value + lease
            then Job(j.id, j.target, Queued, None) else j
  {
    if n > 0 {
      RecoveryRequeuesTheStale(s, n - 1, lease, now, k);
    }
  }

  /** The positions below `n` of jobs that run on a claim older than the lease. */
  ghost function Overdue(records: seq<Job>, n: nat, lease: int, now: int): set<nat>
    requires n <= |records|
  {
    set i: nat | i < n && (records[i].status == Validating || records[i].status == Applying) &&
                 records[i].claimedAt.Some? && now > records[i].claimedAt.value + lease
  }

  lemma OverdueGrows(records: seq<Job>, n: nat, lease: int, now: int)
    requires n < |records|
    ensures |Overdue(records, n + 1, lease, now)| ==
            |Overdue(records, n, lease, now)| + if Stale(records[n], lease, now) then 1 else 0
  {
    assert Overdue(records, n + 1, lease, now) ==
           Overdue(records, n, lease, now) + if Stale(records[n], lease, now) then {n} else {};
  }

  // ---------------------------------------------------------------- the store

  class InMemoryJobStore {
    // A JavaScript map yields its entries in insertion order, and overwriting an entry keeps its place.
    var records: seq<Job>
    var activeTargets: set<Target>

    ghost function View(): Store
      reads this
    {
      Store(records, activeTargets)
    }

    constructor ()
      ensures View() == Store([], {}) && Locked(View())
    {
      records, activeTargets := [], {};
    }

    method Enqueue(job: Job)
      modifies this
      ensures View() == Enqueued(old(View()), job)
      ensures records == old(records) + [job]
      ensures activeTargets ==
              old(activeTargets) + if job.status == Validating || job.status == Applying then {job.target} else {}
    {
      records := records + [job];
      if job.status == Validating || job.status == Applying {
        activeTargets := activeTargets + {job.target};
      }
    }

    method EnqueueIfNotActive(job: Job) returns (ok: bool)
      modifies this
      ensures ok <==> forall i :: 0 <= i < |old(records)| ==>
                        old(records)[i].status in {Status.Applied, Failed, RolledBack}
      ensures View() == if ok then Enqueued(old(View()), job) else old(View())
    {
      if exists i :: 0 <= i < |records| && Unfinished(records[i].status) {
        return false;
      }
      Enqueue(job);
      return true;
    }

    method ClaimNext(target: Option<Target>, now: int) returns (r: Option<Id>)
      modifies this
      ensures var i := Oldest(old(View()), target, 0);
              if i == |old(records)| then r == None && View() == old(View())
              else r == Some(old(records)[i].id) && View() == Claimed(old(View()), i, now)
    {
      if target.Some? && target.value in activeTargets {
        NoneWhenLocked(View(), target.value);
        return None;
      }
      for n := 0 to |records|
        invariant View() == old(View())
        invariant forall k :: 0 <= k < n ==> !Claimable(View(), target, records[k])
      {
        var job := records[n];
        if (target.None? || job.target == target.value) && job.status == Queued && job.target !in activeTargets {
          activeTargets := activeTargets + {job.target};
          records := records[n := job.(status := Validating, claimedAt := Some(now))];
          return Some(job.id);
        }
      }
      return None;
    }

    method RecoverStale(lease: int, now: int) returns (recovered: nat)
      modifies this
      ensures View() == Recovered(old(View()), |old(records)|, lease, now)
      ensures recovered == |Overdue(old(records), |old(records)|, lease, now)|
    {
      recovered := 0;
      for n := 0 to |records|
        invariant |records| == |old(records)| && View() == Recovered(old(View()), n, lease, now)
        invariant forall k :: n <= k < |records| ==> records[k] == old(records)[k]
        invariant recovered == |Overdue(old(records), n, lease, now)|
      {
        var job := records[n];
        OverdueGrows(old(records), n, lease, now);
        if (job.status == Validating || job.status == Applying) && job.claimedAt.Some? &&
          now - job.claimedAt.value > lease {
          records := records[n := job.(status := Queued, claimedAt := None)];
          activeTargets := activeTargets - {job.target};
          recovered := recovered + 1;
        }
      }
    }

    /** An unknown id is an exception and changes nothing. */
    method Update(id: Id, patch: Patch) returns (ok: bool)
      modifies this
      ensures ok <==> Position(old(records), id, 0) < |old(records)|
      ensures View() == if ok then Patched(old(View()), Position(old(records), id, 0), patch) else old(View())
      ensures ok ==> exists i :: 0 <= i < |old(records)| && old(records)[i].id == id &&
                                 records == old(records)[i :=
                                   Job(id, patch.target.GetOr(old(records)[i].target),
                                       patch.status.GetOr(old(records)[i].status),
                                       patch.claimedAt.GetOr(old(records)[i].claimedAt))]
    {
      var i := Position(records, id, 0);
      if i == |records| {
        return false;
      }
      var updated := Apply(records[i], patch);
      records := records[i := updated];
      if updated.status == Applied || updated.status == Failed || updated.status == RolledBack {
        activeTargets := activeTargets - {updated.target};
      }
      return true;
    }
  }

  /** Where the job with this id stands, or the number of jobs. */
  function Position(records: seq<Job>, id: Id, from: nat): (i: nat)
    requires from <= |records|
    ensures from <= i <= |records| && (i < |records| ==> records[i].id == id)
    ensures forall k :: from <= k < i ==> records[k].id != id
    decreases |records| - from
  {
    if from == |records| || records[from].id == id then from else Position(records, id, from + 1)
  }

  lemma NoneWhenLocked(s: Store, target: Target)
    requires target in s.active
    ensures Oldest(s, Some(target), 0) == |s.records|
  {
  }

  const FAIL := NO_CHANGE.(status := Some(Failed))

  /** A job settles; a second of the same target is claimed and runs; then the first one's error text is patched.
      The patch unlocks the target, and a third job could be claimed beside the second. */
  lemma PatchOfSettledJobUnlocks()
    ensures var steps :=
            [Enqueue(Job(1, Combined, Queued, None)), Enqueue(Job(2, Combined, Queued, None)), Claim(None, 5),
                          Update(0, FAIL), Claim(None, 6)];
            var s := Run(Store([], {}), steps);
            Locked(s) && s.active == {Combined} && Holds(s, 1, Combined) && Patched(s, 0, NO_CHANGE).active == {} &&
              !Locked(Patched(s, 0, NO_CHANGE))
  {
    var steps := [Enqueue(Job(1, Combined, Queued, None)), Enqueue(Job(2, Combined, Queued, None)), Claim(None, 5),
                  Update(0, FAIL), Claim(None, 6)];
    var a, b := Job(1, Combined, Queued, None), Job(2, Combined, Queued, None);
    var s1, s2 := Store([a], {}), Store([a, b], {});
    var s3 := Store([a.(status := Validating, claimedAt := Some(5)), b], {Combined});
    var s4 := Store([a.(status := Failed, claimedAt := Some(5)), b], {});
    var s5 :=
      Store([a.(status := Failed, claimedAt := Some(5)), b.(status := Validating, claimedAt := Some(6))], {Combined});
    assert Next(Store([], {}), steps[0]) == s1 && Next(s1, steps[1]) == s2;
    assert Oldest(s2, None, 0) == 0;
    assert Next(s2, steps[2]) == s3 && Next(s3, steps[3]) == s4;
    assert Oldest(s4, None, 0) == 1;
    assert Next(s4, steps[4]) == s5;
    FiveSteps(Store([], {}), steps, s1, s2, s3, s4, s5);
    assert Holds(s5, 1, Combined);
    assert forall i, t :: Holds(s5, i, t) ==> i == 1 && t == Combined;
    assert forall t :: Held(s5, t) <==> t == Combined;
    UpdateKeepsLocksIff(s5, 0, NO_CHANGE);
  }

  lemma FiveSteps(s: Store, steps: seq<Step>, s1: Store, s2: Store, s3: Store, s4: Store, s5: Store)
    requires |steps| == 5 && Next(s, steps[0]) == s1 && Next(s1, steps[1]) == s2 && Next(s2, steps[2]) == s3
    requires Next(s3, steps[3]) == s4 && Next(s4, steps[4]) == s5
    ensures Run(s, steps) == s5
  {
    var r1, r2, r3, r4 := steps[1..], steps[2..], steps[3..], steps[4..];
    assert r1[1..] == r2 && r2[1..] == r3 && r3[1..] == r4 && r4[1..] == [];
    assert Run(s5, []) == s5 && Run(s4, r4) == s5 && Run(s3, r3) == s5 && Run(s2, r2) == s5 && Run(s1, r1) == s5;
  }
}
