/**
 * The snapshot publication tables of a PRIMARY and the transactions over them: publishing a canonical
 * snapshot (insert, rebind, skip or replay), discarding one, choosing the row nodes are served, and
 * listing the applied jobs that still need a snapshot.
 */
module Publication {
  import opened Options
  import Jobs

  // A canonical UUID text orders like the 128-bit number it spells; 0 is the nil UUID.
  type Id = nat
  // 0 is Go's zero time.
  type Clock = int
  type Hash = string

  datatype Source = Ordinary | Import | Sync
  type Target = Jobs.Target
  datatype SnapshotStatus = Pending | Applied | Rejected | RolledBack | Archived

  /** The replication columns that `config_revisions` and `apply_jobs` share. */
  datatype Attribution = Attribution(source: Source, primary: Option<Id>, node: Option<Id>, revision: Option<Id>,
                                     hash: Option<Hash>, snapshotVersion: Option<int>,
                                     replicationVersion: Option<int>, generation: Option<int>)

  datatype Revision = Revision(number: int, appliedAt: Option<Clock>, attr: Attribution)
  datatype Job = Job(revision: Id, target: Target, status: Jobs.Status, finishedAt: Option<Clock>, attr: Attribution)
  datatype Snapshot = Snapshot(primary: Id, generation: int, snapshotVersion: int, replicationVersion: int,
                               hash: Hash, body: Option<seq<bv8>>, revision: Option<Id>, status: SnapshotStatus,
                               job: Option<Id>, failure: Option<string>, appliedAt: Clock,
                               discardedAt: Option<Clock>)

  datatype Tables = Tables(revisions: map<Id, Revision>, jobs: map<Id, Job>, snapshots: map<Id, Snapshot>)

  datatype Write = Write(id: Id, body: seq<bv8>, primary: Id, generation: int, snapshotVersion: int,
                         replicationVersion: int, hash: Hash, revision: Id, job: Id, appliedAt: Clock)

  const UNATTRIBUTED := Attribution(Ordinary, None, None, None, None, None, None, None)

  // ---------------------------------------------------------------- publishing

  predicate ValidWrite(w: Write) {
    |w.body| > 0 && w.id != 0 && w.primary != 0 && w.revision != 0 && w.job != 0 && w.generation > 0 &&
    w.snapshotVersion > 0 && w.replicationVersion > 0 && w.hash != "" && w.appliedAt != 0
  }

  predicate Live(a: Snapshot) {
    a.discardedAt.None?
  }

  /** The stored row already is this write (`sqliteCanonicalSnapshotMatches`). */
  predicate Matches(a: Snapshot, w: Write) {
    a.status == Applied && Live(a) && a.primary == w.primary && a.generation == w.generation &&
    a.snapshotVersion == w.snapshotVersion && a.replicationVersion == w.replicationVersion && a.hash == w.hash &&
    a.revision == Some(w.revision) && a.job == Some(w.job) && a.appliedAt == w.appliedAt && a.body.GetOr([]) == w.body
  }

  function Stamp(w: Write): Attribution {
    Attribution(Ordinary, Some(w.primary), None, None, Some(w.hash), Some(w.snapshotVersion),
                Some(w.replicationVersion), Some(w.generation))
  }

  function RowOf(w: Write): Snapshot {
    Snapshot(w.primary, w.generation, w.snapshotVersion, w.replicationVersion, w.hash, Some(w.body),
             Some(w.revision), Applied, Some(w.job), None, w.appliedAt, None)
  }

  predicate CanStamp(t: Tables, w: Write) {
    && w.revision in t.revisions
    && t.revisions[w.revision].attr.source == Ordinary
    && t.revisions[w.revision].appliedAt.Some?
    && w.job in t.jobs
    && t.jobs[w.job].revision == w.revision
    && t.jobs[w.job].status == Jobs.Applied
    && t.jobs[w.job].finishedAt.Some?
  }

  predicate Holds(t: Tables, id: Id, h: Hash) {
    id in t.snapshots && t.snapshots[id].hash == h
  }

  /** The unique index on `applied_snapshots.content_hash`. */
  ghost predicate UniqueHash(t: Tables) {
    forall a, b :: a in t.snapshots && b in t.snapshots && t.snapshots[a].hash == t.snapshots[b].hash ==> a == b
  }

  ghost function FindByHash(t: Tables, h: Hash): (r: Option<Id>)
    ensures r.Some? ==> Holds(t, r.value, h)
    ensures r.None? ==> forall id :: !Holds(t, id, h)
  {
    if exists id :: Holds(t, id, h) then var id :| Holds(t, id, h); Some(id) else None
  }

  /** A live row keeps its place against an older apply, and against an equal clock with no larger revision. */
  predicate Outranks(t: Tables, a: Snapshot, w: Write) {
    Live(a) &&
    (w.appliedAt < a.appliedAt ||
     (w.appliedAt == a.appliedAt && w.revision in t.revisions && a.revision.Some? &&
      a.revision.value in t.revisions &&
      t.revisions[a.revision.value].number >= t.revisions[w.revision].number))
  }

  /** What one publish does: nothing because it is a replay or too old, a write at some row, or an error. */
  datatype Verdict = Conflict | Replay | Older | Effective(row: Id)

  ghost function Decide(t: Tables, w: Write): Verdict {
    if !ValidWrite(w) then Conflict
    else match FindByHash(t, w.hash)
      case None => if CanStamp(t, w) && w.id !in t.snapshots then Effective(w.id) else Conflict
      case Some(id) =>
        if Matches(t.snapshots[id], w) then Replay
        else if Outranks(t, t.snapshots[id], w) then Older
        else if CanStamp(t, w) then Effective(id)
        else Conflict
  }

  function Stamped(t: Tables, w: Write, row: Id): Tables
    requires CanStamp(t, w)
  {
    Tables(t.revisions[w.revision := t.revisions[w.revision].(attr := Stamp(w))],
           t.jobs[w.job := t.jobs[w.job].(attr := Stamp(w), target := Jobs.Combined)],
           t.snapshots[row := RowOf(w)])
  }

  /** The tables after the publish transaction; an error rolls everything back. */
  ghost function Publish(t: Tables, w: Write): Tables {
    match Decide(t, w)
    case Effective(row) => Stamped(t, w, row)
    case _ => t
  }

  // ---------------------------------------------------------------- discarding

  predicate CanDiscard(t: Tables, id: Id) {
    id in t.snapshots && t.snapshots[id].status == Applied && Live(t.snapshots[id])
  }

  function Discard(t: Tables, id: Id, now: Clock): Tables {
    if CanDiscard(t, id)
    then t.(snapshots := t.snapshots[id := t.snapshots[id].(discardedAt := Some(now))])
    else t
  }

  // ---------------------------------------------------------------- what nodes are served

  /** `sqliteSnapshotProofSQL`: the row, its revision and its job agree that it was applied here. */
  predicate Complete(t: Tables, a: Snapshot) {
    && a.status == Applied && a.body.Some? && Live(a)
    && a.revision.Some? && a.revision.value in t.revisions
    && a.job.Some? && a.job.value in t.jobs
    && var r := t.revisions[a.revision.value];
       var j := t.jobs[a.job.value];
       && r.appliedAt.Some? && Attests(r.attr, a)
       && j.revision == a.revision.value && j.status == Jobs.Applied && j.finishedAt.Some?
       && Attests(j.attr, a) && j.target == Jobs.Combined
  }

  predicate Attests(x: Attribution, a: Snapshot) {
    x == Attribution(Ordinary, Some(a.primary), None, None, Some(a.hash), Some(a.snapshotVersion),
                     Some(a.replicationVersion), Some(a.generation))
  }

  /** `coalesce(r.revision_number, -1)`, with a missing revision below every real number. */
  function Number(t: Tables, a: Snapshot): Option<int> {
    if a.revision.Some? && a.revision.value in t.revisions then Some(t.revisions[a.revision.value].number) else None
  }

  predicate NumberBelow(m: Option<int>, n: Option<int>) {
    n.Some? && (m.None? || m.value < n.value)
  }

  /** Row `a` sorts strictly before row `b` in `order by applied_at desc, revision_number desc, id desc`. */
  predicate Newer(t: Tables, a: Id, b: Id)
    requires a in t.snapshots && b in t.snapshots
  {
    var x, y := t.snapshots[a], t.snapshots[b];
    x.appliedAt > y.appliedAt ||
    (x.appliedAt == y.appliedAt && (NumberBelow(Number(t, y), Number(t, x)) ||
                                    (Number(t, x) == Number(t, y) && a > b)))
  }

  ghost predicate IsNewest(t: Tables, primary: Id, id: Id) {
    && id in t.snapshots && t.snapshots[id].primary == primary
    && forall o :: o in t.snapshots && t.snapshots[o].primary == primary && o != id ==> Newer(t, id, o)
  }

  // ---------------------------------------------------------------- which jobs still need a snapshot

  /** A job that finished a combined apply of this installation's own configuration. */
  predicate Settled(j: Job) {
    j.status == Jobs.Applied && j.target == Jobs.Combined && j.attr.source == Ordinary && j.finishedAt.Some?
  }

  /** `ListCanonicalSnapshotCandidates`: no live row is bound to the job, and none carries its hash. */
  ghost predicate Candidate(t: Tables, job: Id) {
    && job in t.jobs && Settled(t.jobs[job])
    && (forall id :: id in t.snapshots && t.snapshots[id].job == Some(job) ==>
          !(t.snapshots[id].status == Applied && Live(t.snapshots[id]) && t.snapshots[id].body.Some?))
    && (forall id :: id in t.snapshots && t.jobs[job].attr.hash == Some(t.snapshots[id].hash) ==>
          !Live(t.snapshots[id]))
  }

  // ---------------------------------------------------------------- the store

  /** The three tables as the writer transactions update them. */
  class SnapshotStore {
    var revisions: map<Id, Revision>
    var jobs: map<Id, Job>
    var snapshots: map<Id, Snapshot>

    ghost function View(): Tables
      reads this
    {
      Tables(revisions, jobs, snapshots)
    }

    constructor ()
      ensures View() == Tables(map[], map[], map[])
    {
      revisions, jobs, snapshots := map[], map[], map[];
    }

    method PublishCanonicalSnapshot(w: Write) returns (ok: bool)
      requires UniqueHash(View())
      modifies this
      ensures ok <==> Decide(old(View()), w) != Conflict
      ensures View() == Publish(old(View()), w)
      ensures UniqueHash(View())
    {
      if !ValidWrite(w) {
        return false;
      }
      ghost var before := View();
      var existing: Option<Id> := None;
      if id :| id in snapshots && snapshots[id].hash == w.hash {
        existing := Some(id);
        assert Holds(before, id, w.hash);
        var row := snapshots[id];
        if Matches(row, w) {
          return true;
        }
        if Live(row) {
          if w.appliedAt < row.appliedAt {
            return true;
          }
          if w.appliedAt == row.appliedAt {
            if w.revision !in revisions {
              return false;
            }
            if row.revision.Some? && row.revision.value in revisions &&
               revisions[row.revision.value].number >= revisions[w.revision].number {
              return true;
            }
          }
        }
      }
      if w.revision !in revisions || revisions[w.revision].attr.source != Ordinary ||
         revisions[w.revision].appliedAt.None? {
        return false;
      }
      var saved := revisions;
      revisions := revisions[w.revision := revisions[w.revision].(attr := Stamp(w))];
      if w.job !in jobs || jobs[w.job].revision != w.revision || jobs[w.job].status != Jobs.Applied ||
         jobs[w.job].finishedAt.None? {
        revisions := saved;
        return false;
      }
      var savedJobs := jobs;
      jobs := jobs[w.job := jobs[w.job].(attr := Stamp(w), target := Jobs.Combined)];
      if existing.Some? {
        snapshots := snapshots[existing.value := RowOf(w)];
        return true;
      }
      if w.id in snapshots {
        revisions, jobs := saved, savedJobs;
        return false;
      }
      snapshots := snapshots[w.id := RowOf(w)];
      assert forall id :: id in before.snapshots ==> !Holds(before, id, w.hash);
      return true;
    }

    method DiscardCanonicalSnapshot(id: Id, now: Clock) returns (ok: bool)
      modifies this`snapshots
      ensures ok <==>
              id in old(snapshots) && old(snapshots)[id].status == Applied && old(snapshots)[id].discardedAt.None?
      ensures ok ==> snapshots == old(snapshots)[id := old(snapshots)[id].(discardedAt := Some(now))]
      ensures View() == Discard(old(View()), id, now)
    {
      ok := id in snapshots && snapshots[id].status == Applied && snapshots[id].discardedAt.None?;
      if ok {
        snapshots := snapshots[id := snapshots[id].(discardedAt := Some(now))];
      }
    }

    /** The row `sqliteLatestSnapshotPublication` selects, or none when the primary has no row. */
    method LatestSnapshotPublication(primary: Id) returns (r: Option<Id>, complete: bool)
      ensures r.Some? ==> IsNewest(View(), primary, r.value) && (complete <==> Complete(View(), snapshots[r.value]))
      ensures r.None? ==> !complete && forall id :: id in snapshots ==> snapshots[id].primary != primary
    {
      var rest := snapshots.Keys;
      r := None;
      while rest != {}
        invariant rest <= snapshots.Keys
        invariant r.None? ==> forall id :: id in snapshots && id !in rest ==> snapshots[id].primary != primary
        invariant r.Some? ==> r.value in snapshots && r.value !in rest && snapshots[r.value].primary == primary
        invariant r.Some? ==>
          forall o :: o in snapshots - rest && snapshots[o].primary == primary && o != r.value ==>
            Newer(View(), r.value, o)
        decreases rest
      {
        var id :| id in rest;
        rest := rest - {id};
        if snapshots[id].primary == primary &&
           (r.None? || Newer(Tables(revisions, jobs, snapshots), id, r.value)) {
          r := Some(id);
        }
      }
      complete := r.Some? && Complete(Tables(revisions, jobs, snapshots), snapshots[r.value]);
    }

    /** The candidate jobs, oldest finish first and then by id. */
    method ListCanonicalSnapshotCandidates() returns (list: seq<Id>)
      ensures forall job :: job in list <==> Candidate(View(), job)
      ensures forall job :: job in list <==>
                && job in jobs && jobs[job].status == Jobs.Applied && jobs[job].finishedAt.Some?
                && jobs[job].target == Jobs.Combined && jobs[job].attr.source == Ordinary
                && forall id | id in snapshots && snapshots[id].discardedAt.None? ::
                     && (snapshots[id].job == Some(job) ==> snapshots[id].status != Applied || snapshots[id].body.None?)
                     && jobs[job].attr.hash != Some(snapshots[id].hash)
      ensures forall i, k | 0 <= i < k < |list| ::
                && list[i] in jobs && list[k] in jobs && jobs[list[i]].finishedAt.Some? &&
                   jobs[list[k]].finishedAt.Some?
                && (jobs[list[i]].finishedAt.value < jobs[list[k]].finishedAt.value ||
                    (jobs[list[i]].finishedAt == jobs[list[k]].finishedAt && list[i] < list[k]))
    {
      var todo := set job | job in jobs && Settled(jobs[job]) &&
                            (forall id | id in snapshots ::
                               && !(snapshots[id].job == Some(job) && snapshots[id].status == Applied &&
                                    Live(snapshots[id]) && snapshots[id].body.Some?)
                               && !(jobs[job].attr.hash == Some(snapshots[id].hash) && Live(snapshots[id])));
      assert forall job :: job in todo <==> Candidate(View(), job);
      list := [];
      while todo != {}
        invariant todo <= jobs.Keys
        invariant forall job :: job in list || job in todo <==> Candidate(View(), job)
        invariant forall i, k :: 0 <= i < k < |list| ==>
                  list[i] in jobs && list[k] in jobs && Sooner(jobs, list[i], list[k])
        invariant forall i, job :: 0 <= i < |list| && job in todo ==> list[i] in jobs && Sooner(jobs, list[i], job)
        decreases todo
      {
        var first := SoonestOf(jobs, todo);
        list := list + [first];
        todo := todo - {first};
      }
      assert forall i, k :: 0 <= i < k < |list| ==> Sooner(jobs, list[i], list[k]);
    }
  }

  predicate Sooner(jobs: map<Id, Job>, a: Id, b: Id)
    requires a in jobs && b in jobs
  {
    Settled(jobs[a]) && Settled(jobs[b]) &&
    (jobs[a].finishedAt.value < jobs[b].finishedAt.value ||
     (jobs[a].finishedAt.value == jobs[b].finishedAt.value && a < b))
  }

  method SoonestOf(jobs: map<Id, Job>, from: set<Id>) returns (first: Id)
    requires from != {} && from <= jobs.Keys && forall job :: job in from ==> Settled(jobs[job])
    ensures first in from && forall job :: job in from && job != first ==> Sooner(jobs, first, job)
  {
    first :| first in from;
    var rest := from - {first};
    while rest != {}
      invariant rest <= from && first in from && first !in rest
      invariant forall job :: job in from && job !in rest && job != first ==> Sooner(jobs, first, job)
      decreases rest
    {
      var job :| job in rest;
      rest := rest - {job};
      if Sooner(jobs, job, first) {
        first := job;
      }
    }
  }
}
