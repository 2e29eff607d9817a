/**
 * Importing snapshots on a NODE. One transaction finds or makes the revision of the imported bytes, queues
 * its apply job and refills the configuration tables; the worker meanwhile claims, requeues and settles jobs.
 */
module NodeImport {
  import opened Options
  import opened NodeTables
  import opened Jobs

  type Hash = string
  type Bytes = seq<bv8>

  datatype Revision = Revision(number: int, checksum: Hash, imported: bool, snapshot: Bytes, applied: bool)
  datatype Job = Job(id: Id, revision: Id, status: Status, imported: bool)
  // Jobs stand in the order they were created.
  datatype Node = Node(revisions: map<Id, Revision>, jobs: seq<Job>, tables: Tables)

  /** The checksum, the envelope reader (with its identity and version checks) and the address test. */
  datatype Env = Env(hash: Bytes -> Hash, decode: Bytes -> Option<Config>, isIp: string -> int)

  /** The ids drawn for new rows, and whether secrets, owners and certificates of the snapshot can be stored. */
  datatype Luck = Luck(revision: Id, job: Id, othersOk: bool)

  // ---------------------------------------------------------------- one import

  /** `coalesce(max(revision_number), 0)`. */
  ghost function Top(revisions: map<Id, Revision>): (top: int)
    ensures revisions == map[] ==> top == 0
    ensures revisions != map[] ==> exists r :: r in revisions && revisions[r].number == top
    ensures forall r :: r in revisions ==> revisions[r].number <= top
    decreases |revisions.Keys|
  {
    if revisions == map[] then 0
    else
      var r :| r in revisions;
      var rest := revisions - {r};
      assert rest.Keys == revisions.Keys - {r};
      assert forall k :: k in revisions && k != r ==> k in rest;
      if rest == map[] || revisions[r].number >= Top(rest) then revisions[r].number else Top(rest)
  }

  ghost predicate Latest(revisions: map<Id, Revision>, r: Id) {
    r in revisions && revisions[r].number == Top(revisions)
  }

  predicate HasChecksum(revisions: map<Id, Revision>, r: Id, checksum: Hash) {
    r in revisions && revisions[r].checksum == checksum
  }

  /** The newest job of an import revision that was not given up: queued, running or applied. */
  function LastGood(jobs: seq<Job>, revision: Id): (r: Option<Id>)
    ensures r.Some? ==> exists i :: 0 <= i < |jobs| && jobs[i].id == r.value && Good(jobs[i], revision) &&
                                    forall k :: i < k < |jobs| ==> !Good(jobs[k], revision)
    ensures r.None? ==> forall i :: 0 <= i < |jobs| ==> !Good(jobs[i], revision)
  {
    if jobs == [] then None
    else if Good(jobs[|jobs| - 1], revision) then Some(jobs[|jobs| - 1].id)
    else
      var r := LastGood(jobs[..|jobs| - 1], revision);
      assert r.Some? ==> forall i :: 0 <= i < |jobs| - 1 ==> jobs[i] == jobs[..|jobs| - 1][i];
      r
  }

  predicate Good(j: Job, revision: Id) {
    j.imported && j.revision == revision && (Unfinished(j.status) || j.status == Applied)
  }

  /** Jobs of the revision that never finished are given up; finished ones keep their outcome. */
  function Superseded(jobs: seq<Job>, revision: Id): (r: seq<Job>)
    ensures |r| == |jobs|
    ensures forall i :: 0 <= i < |jobs| ==>
              r[i] == if jobs[i].revision == revision && Unfinished(jobs[i].status) then jobs[i].(status := Failed)
                else jobs[i]
  {
    if jobs == [] then []
    else
      var last := jobs[|jobs| - 1];
      Superseded(jobs[..|jobs| - 1], revision) +
      [if last.revision == revision && Unfinished(last.status) then last.(status := Failed) else last]
  }

  predicate HasJob(jobs: seq<Job>, id: Id) {
    exists i :: 0 <= i < |jobs| && jobs[i].id == id
  }

  ghost predicate CanFill(n: Node, bytes: Bytes, env: Env, luck: Luck) {
    env.decode(bytes).Some? && Acceptable(env.decode(bytes).value, env.isIp) && luck.othersOk &&
      !HasJob(n.jobs, luck.job)
  }

  /** The import holds its revision `r`, now the latest, with one new job at the end of the queue. */
  ghost function Enqueued(n: Node, r: Id, bytes: Bytes, env: Env, luck: Luck): Node
    requires env.decode(bytes).Some?
  {
    Node(n.revisions[r :=
                     Revision(Top(n.revisions) + 1, env.hash(bytes), true, if r in n.revisions
                              then n.revisions[r].snapshot else bytes, false)],
         Superseded(n.jobs, r) + [Job(luck.job, r, Queued, true)],
         Filled(env.decode(bytes).value))
  }

  ghost function FindChecksum(revisions: map<Id, Revision>, checksum: Hash): (r: Option<Id>)
    ensures r.Some? ==> HasChecksum(revisions, r.value, checksum)
    ensures r.None? ==> forall id :: !HasChecksum(revisions, id, checksum)
  {
    if exists r :: HasChecksum(revisions, r, checksum) then var r :| HasChecksum(revisions, r, checksum); Some(r)
      else None
  }

  /** The state after an import and its answer; a refused import leaves no trace. */
  ghost function Import(n: Node, bytes: Bytes, env: Env, luck: Luck): (Node, Outcome<Id>) {
    if env.decode(bytes).None? then (n, Refused)
    else match FindChecksum(n.revisions, env.hash(bytes))
      case None =>
        if luck.revision !in n.revisions && CanFill(n, bytes, env, luck)
        then (Enqueued(n, luck.revision, bytes, env, luck), Ok(luck.job)) else (n, Refused)
      case Some(r) =>
        if !n.revisions[r].imported then (n, Refused)
        else if Latest(n.revisions, r) && LastGood(n.jobs, r).Some? then (n, Ok(LastGood(n.jobs, r).value))
        else if CanFill(n, bytes, env, luck) then (Enqueued(n, r, bytes, env, luck), Ok(luck.job))
        else (n, Refused)
  }

  // ---------------------------------------------------------------- the store

  class NodeStore {
    var revisions: map<Id, Revision>
    var jobs: seq<Job>
    const config: ConfigStore

    ghost function View(): Node
      reads this, config
    {
      Node(revisions, jobs, config.View())
    }

    constructor ()
      ensures fresh(config) && View().revisions == map[] && View().jobs == []
    {
      revisions, jobs := map[], [];
      config := new ConfigStore();
    }

    method CreateApplyJobFromSnapshot(bytes: Bytes, env: Env, luck: Luck) returns (r: Outcome<Id>)
      requires UniqueChecksums(revisions)
      modifies this, config
      ensures (View(), r) == Import(old(View()), bytes, env, luck)
    {
      if env.decode(bytes).None? {
        return Refused;
      }
      var checksum := env.hash(bytes);
      if id :| id in revisions && revisions[id].checksum == checksum {
        FindsTheOne(revisions, id, checksum);
        if !revisions[id].imported {
          return Refused;
        }
        var top := MaxNumber(revisions);
        var job := LastGood(jobs, id);
        if revisions[id].number == top && job.Some? {
          return Ok(job.value);
        }
        r := Enqueue(id, bytes, env, luck);
      } else {
        FindsNone(revisions, checksum);
        if luck.revision in revisions {
          return Refused;
        }
        r := Enqueue(luck.revision, bytes, env, luck);
      }
    }

    /** Refreshes or inserts the revision, queues its job and refills the tables, or does nothing at all. */
    method Enqueue(revision: Id, bytes: Bytes, env: Env, luck: Luck) returns (r: Outcome<Id>)
      requires env.decode(bytes).Some?
      modifies this, config
      ensures CanFill(old(View()), bytes, env, luck) ==>
              View() == Enqueued(old(View()), revision, bytes, env, luck) && r == Ok(luck.job)
      ensures !CanFill(old(View()), bytes, env, luck) ==> View() == old(View()) && r == Refused
    {
      if HasJob(jobs, luck.job) {
        return Refused;
      }
      var filled := config.Materialize(env.decode(bytes).value, env.isIp, luck.othersOk);
      if !filled {
        return Refused;
      }
      WriteRows(revision, bytes, env.hash(bytes), luck.job);
      return Ok(luck.job);
    }

    method WriteRows(revision: Id, bytes: Bytes, checksum: Hash, job: Id)
      modifies this`revisions, this`jobs
      ensures revisions == old(revisions)[revision := Revision(Top(old(revisions)) + 1, checksum, true,
                                            if revision in old(revisions) then old(revisions)[revision].snapshot
                                              else bytes, false)]
      ensures jobs == Superseded(old(jobs), revision) + [Job(job, revision, Queued, true)]
    {
      var top := MaxNumber(revisions);
      var snapshot := if revision in revisions then revisions[revision].snapshot else bytes;
      revisions := revisions[revision := Revision(top + 1, checksum, true, snapshot, false)];
      jobs := Superseded(jobs, revision) + [Job(job, revision, Queued, true)];
    }
  }

  lemma FindsTheOne(revisions: map<Id, Revision>, id: Id, checksum: Hash)
    requires UniqueChecksums(revisions) && HasChecksum(revisions, id, checksum)
    ensures FindChecksum(revisions, checksum) == Some(id)
  {
  }

  lemma FindsNone(revisions: map<Id, Revision>, checksum: Hash)
    requires forall id :: id in revisions ==> revisions[id].checksum != checksum
    ensures FindChecksum(revisions, checksum) == None
  {
  }

  method MaxNumber(revisions: map<Id, Revision>) returns (top: int)
    ensures top == Top(revisions)
  {
    var rest := revisions.Keys;
    top := 0;
    while rest != {}
      invariant rest <= revisions.Keys
      invariant rest == revisions.Keys ==> top == 0
      invariant forall r :: r in revisions && r !in rest ==> revisions[r].number <= top
      invariant rest != revisions.Keys ==> exists r :: r in revisions && revisions[r].number == top
      decreases rest
    {
      var r :| r in rest;
      if rest == revisions.Keys || revisions[r].number > top {
        top := revisions[r].number;
      }
      rest := rest - {r};
    }
  }

  // ---------------------------------------------------------------- what every run keeps

  ghost predicate UniqueChecksums(revisions: map<Id, Revision>) {
    forall a, b | a in revisions && b in revisions :: revisions[a].checksum == revisions[b].checksum ==> a == b
  }

  ghost predicate UniqueNumbers(revisions: map<Id, Revision>) {
    forall a, b | a in revisions && b in revisions :: revisions[a].number == revisions[b].number ==> a == b
  }

  ghost predicate JobsOk(n: Node) {
    && (forall i :: 0 <= i < |n.jobs| ==> n.jobs[i].revision in n.revisions)
    && (forall i, k :: 0 <= i < k < |n.jobs| ==> n.jobs[i].id != n.jobs[k].id)
  }

  /** Unfinished jobs, in creation order, belong to revisions with strictly increasing numbers. */
  ghost predicate Ordered(n: Node)
    requires JobsOk(n)
  {
    forall i, k | 0 <= i < k < |n.jobs| && Unfinished(n.jobs[i].status) && Unfinished(n.jobs[k].status) ::
      n.revisions[n.jobs[i].revision].number < n.revisions[n.jobs[k].revision].number
  }

  /** An import revision holds the bytes it was made from, and they decode to a configuration that was accepted. */
  ghost predicate Kept(revisions: map<Id, Revision>, env: Env) {
    forall r :: r in revisions && revisions[r].imported ==>
      && revisions[r].checksum == env.hash(revisions[r].snapshot) && env.decode(revisions[r].snapshot).Some?
      && Acceptable(env.decode(revisions[r].snapshot).value, env.isIp)
  }

  /** While the latest revision is an import, the tables are that import's configuration. */
  ghost predicate Current(n: Node, env: Env)
    requires Kept(n.revisions, env)
  {
    forall r :: Latest(n.revisions, r) && n.revisions[r].imported ==>
      n.tables == Filled(env.decode(n.revisions[r].snapshot).value)
  }

  ghost predicate Inv(n: Node, env: Env) {
    && UniqueChecksums(n.revisions) && UniqueNumbers(n.revisions)
    && JobsOk(n) && Ordered(n) && Kept(n.revisions, env) && Current(n, env)
  }

  ghost predicate CollisionFree(env: Env) {
    forall a, b :: env.hash(a) == env.hash(b) ==> a == b
  }

  lemma EnqueuedKeepsInv(n: Node, r: Id, bytes: Bytes, env: Env, luck: Luck)
    requires CollisionFree(env) && Inv(n, env) && CanFill(n, bytes, env, luck)
    requires r in n.revisions ==> n.revisions[r].imported && n.revisions[r].checksum == env.hash(bytes)
    requires r !in n.revisions ==> forall id :: !HasChecksum(n.revisions, id, env.hash(bytes))
    ensures Inv(Enqueued(n, r, bytes, env, luck), env)
    ensures Latest(Enqueued(n, r, bytes, env, luck).revisions, r)
    ensures Enqueued(n, r, bytes, env, luck).revisions[r].snapshot == bytes
  {
    var m := Enqueued(n, r, bytes, env, luck);
    EnqueuedRevisions(n, r, bytes, env, luck);
    EnqueuedJobs(n, r, bytes, env, luck);
    assert m.revisions[r].snapshot == bytes;
    assert m.tables == Filled(env.decode(bytes).value);
  }

  lemma EnqueuedRevisions(n: Node, r: Id, bytes: Bytes, env: Env, luck: Luck)
    requires CollisionFree(env) && env.decode(bytes).Some? && Acceptable(env.decode(bytes).value, env.isIp)
    requires UniqueChecksums(n.revisions) && UniqueNumbers(n.revisions) && Kept(n.revisions, env)
    requires r in n.revisions ==> n.revisions[r].imported && n.revisions[r].checksum == env.hash(bytes)
    requires r !in n.revisions ==> forall id :: !HasChecksum(n.revisions, id, env.hash(bytes))
    ensures var m := Enqueued(n, r, bytes, env, luck).revisions;
            UniqueChecksums(m) && UniqueNumbers(m) && Kept(m, env) && m[r].snapshot == bytes && forall k ::
              Latest(m, k) <==> k == r
  {
    var m := Enqueued(n, r, bytes, env, luck).revisions;
    assert m == n.revisions[r := m[r]] && m[r].number == Top(n.revisions) + 1;
    RaisedToTop(n.revisions, r, m[r]);
    ChecksumStaysUnique(n.revisions, r, m[r]);
  }

  lemma RaisedToTop(revisions: map<Id, Revision>, r: Id, row: Revision)
    requires UniqueNumbers(revisions) && row.number == Top(revisions) + 1
    ensures var m := revisions[r := row]; UniqueNumbers(m) && forall k :: Latest(m, k) <==> k == r
  {
    var m := revisions[r := row];
    assert forall k :: k in m && k != r ==> k in revisions && m[k].number < row.number;
    assert r in m && m[r].number == row.number;
  }

  lemma ChecksumStaysUnique(revisions: map<Id, Revision>, r: Id, row: Revision)
    requires UniqueChecksums(revisions)
    requires r in revisions ==> revisions[r].checksum == row.checksum
    requires r !in revisions ==> forall id :: !HasChecksum(revisions, id, row.checksum)
    ensures UniqueChecksums(revisions[r := row])
  {
    forall k | k in revisions && k != r
      ensures revisions[k].checksum != row.checksum
    {
      assert r !in revisions ==> !HasChecksum(revisions, k, row.checksum);
    }
  }

  lemma EnqueuedJobs(n: Node, r: Id, bytes: Bytes, env: Env, luck: Luck)
    requires JobsOk(n) && Ordered(n) && CanFill(n, bytes, env, luck)
    ensures JobsOk(Enqueued(n, r, bytes, env, luck)) && Ordered(Enqueued(n, r, bytes, env, luck))
  {
    var m, rest := Enqueued(n, r, bytes, env, luck), Superseded(n.jobs, r);
    assert m.jobs[|rest|] == Job(luck.job, r, Queued, true);
    assert forall i :: 0 <= i < |rest| ==>
           m.jobs[i] == rest[i] && rest[i].id == n.jobs[i].id && rest[i].revision == n.jobs[i].revision;
    assert forall i :: 0 <= i < |rest| && Unfinished(rest[i].status) ==> n.jobs[i] == rest[i] && rest[i].revision != r;
  }

  /** What a successful import, reused or not, promises: its bytes are the latest revision, the returned job belongs
      to it and is queued, running or applied, and the tables hold its configuration. */
  ghost predicate TookEffect(m: Node, bytes: Bytes, env: Env, job: Id) {
    && env.decode(bytes).Some? && Acceptable(env.decode(bytes).value, env.isIp) &&
       m.tables == Filled(env.decode(bytes).value)
    && exists i :: 0 <= i < |m.jobs| && m.jobs[i].id == job && Latest(m.revisions, m.jobs[i].revision) &&
                   m.revisions[m.jobs[i].revision].snapshot == bytes &&
                   m.jobs[i].status != Failed && m.jobs[i].status != RolledBack
  }

  /** Job `i` still stands for the bytes: it is the newest import job of their revision, which is the latest one,
      and was not given up. */
  ghost predicate StillStands(n: Node, checksum: Hash, i: int) {
    && 0 <= i < |n.jobs| && HasChecksum(n.revisions, n.jobs[i].revision, checksum)
    && var r := n.jobs[i].revision;
       && n.revisions[r].imported
       && (forall k :: k in n.revisions ==> n.revisions[k].number <= n.revisions[r].number)
       && NewestOf(n.jobs, r, i)
  }

  /** Job `i` is the last import job of the revision that neither failed nor was rolled back. */
  ghost predicate NewestOf(jobs: seq<Job>, revision: Id, i: int) {
    && 0 <= i < |jobs| && jobs[i].imported && jobs[i].revision == revision
    && jobs[i].status != Failed && jobs[i].status != RolledBack
    && forall k :: i < k < |jobs| && jobs[k].imported && jobs[k].revision == revision ==>
         jobs[k].status == Failed || jobs[k].status == RolledBack
  }

  lemma NewestOfIsLastGood(jobs: seq<Job>, revision: Id)
    ensures forall i :: NewestOf(jobs, revision, i) ==> LastGood(jobs, revision) == Some(jobs[i].id)
    ensures LastGood(jobs, revision).Some? ==> exists i :: NewestOf(jobs, revision, i)
  {
    assert forall i :: 0 <= i < |jobs| ==>
        (Good(jobs[i], revision) <==> jobs[i].imported && jobs[i].revision == revision && jobs[i].status != Failed &&
                                      jobs[i].status != RolledBack);
    if LastGood(jobs, revision).Some? {
      var i :| 0 <= i < |jobs| && jobs[i].id == LastGood(jobs, revision).value && Good(jobs[i], revision) &&
               forall k :: i < k < |jobs| ==> !Good(jobs[k], revision);
      assert NewestOf(jobs, revision, i);
    }
  }

  lemma LatestIsMaximum(revisions: map<Id, Revision>, r: Id)
    ensures Latest(revisions, r) <==>
            r in revisions && forall k :: k in revisions ==> revisions[k].number <= revisions[r].number
  {
  }

  /** Whether an import is accepted and what it answers, over the rows: a job that still stands is answered as it
      is; otherwise everything must be acceptable and storable and the drawn ids new, and the drawn job is answered.
      */
  lemma ImportAnswersIff(n: Node, bytes: Bytes, env: Env, luck: Luck)
    requires UniqueChecksums(n.revisions)
    ensures var (m, answer) := Import(n, bytes, env, luck); var checksum := env.hash(bytes);
            && (forall i :: env.decode(bytes).Some? && StillStands(n, checksum, i) ==>
                  m == n && answer == Ok(n.jobs[i].id))
            && ((forall i :: !StillStands(n, checksum, i)) ==>
                  (answer == Ok(luck.job) <==>
                   && env.decode(bytes).Some? && Acceptable(env.decode(bytes).value, env.isIp) && luck.othersOk
                   && (forall k :: k in n.jobs ==> k.id != luck.job)
                   && (forall r :: r in n.revisions && n.revisions[r].checksum == checksum ==> n.revisions[r].imported)
                   && ((forall r :: r in n.revisions ==> n.revisions[r].checksum != checksum) ==>
                         luck.revision !in n.revisions)) &&
                  answer in {Ok(luck.job), Outcome.Refused})
            && (env.decode(bytes).None? ==> answer == Outcome.Refused)
  {
    var checksum := env.hash(bytes);
    match FindChecksum(n.revisions, checksum) {
      case None => assert forall r :: r in n.revisions ==> !HasChecksum(n.revisions, r, checksum);
      case Some(r) =>
        assert HasChecksum(n.revisions, r, checksum);
        assert forall k :: k in n.revisions && n.revisions[k].checksum == checksum ==> k == r;
        LatestIsMaximum(n.revisions, r);
        ReuseIff(n, r, checksum);
    }
  }

  lemma ReuseIff(n: Node, r: Id, checksum: Hash)
    requires UniqueChecksums(n.revisions) && HasChecksum(n.revisions, r, checksum)
    ensures forall i :: StillStands(n, checksum, i) ==>
              n.revisions[r].imported && Latest(n.revisions, r) && LastGood(n.jobs, r) == Some(n.jobs[i].id)
    ensures (forall i :: !StillStands(n, checksum, i)) ==>
              !n.revisions[r].imported || !Latest(n.revisions, r) || LastGood(n.jobs, r).None?
  {
    LatestIsMaximum(n.revisions, r);
    NewestOfIsLastGood(n.jobs, r);
    assert forall i :: StillStands(n, checksum, i) ==> n.jobs[i].revision == r && NewestOf(n.jobs, r, i);
    if n.revisions[r].imported && Latest(n.revisions, r) && LastGood(n.jobs, r).Some? {
      var i :| NewestOf(n.jobs, r, i);
      assert StillStands(n, checksum, i);
    }
  }

  /** Importing the same bytes again changes nothing and answers the same job. */
  lemma ImportAgainIsNoOp(n: Node, bytes: Bytes, env: Env, luck: Luck, again: Luck)
    requires CollisionFree(env) && Inv(n, env) && Import(n, bytes, env, luck).1.Ok?
    ensures Import(Import(n, bytes, env, luck).0, bytes, env, again) == Import(n, bytes, env, luck)
  {
    var (m, answer) := Import(n, bytes, env, luck);
    ImportKeepsInv(n, bytes, env, luck);
    if i :| StillStands(n, env.hash(bytes), i) {
      ImportAnswersIff(n, bytes, env, luck);
      ImportAnswersIff(n, bytes, env, again);
    } else {
      ImportAnswersIff(n, bytes, env, luck);
      FreshImportOnly(n, bytes, env, luck);
      assert StillStands(m, env.hash(bytes), |n.jobs|);
      ImportAnswersIff(m, bytes, env, again);
    }
  }

  /** Without a job to reuse, an accepted import appends its job, gives up the unfinished ones of its revision,
      makes that revision the latest and unapplied, and leaves every other row alone. */
  lemma FreshImportOnly(n: Node, bytes: Bytes, env: Env, luck: Luck)
    requires UniqueChecksums(n.revisions) && Import(n, bytes, env, luck).1.Ok?
    requires forall i :: !StillStands(n, env.hash(bytes), i)
    ensures var m := Import(n, bytes, env, luck).0;
            && |m.jobs| == |n.jobs| + 1 && m.jobs[|n.jobs|].id == luck.job
            && m.jobs[|n.jobs|].status == Queued && m.jobs[|n.jobs|].imported
            && var r := m.jobs[|n.jobs|].revision;
               && r in m.revisions && m.revisions == n.revisions[r := m.revisions[r]]
               && m.revisions[r].imported && !m.revisions[r].applied && m.revisions[r].checksum == env.hash(bytes)
               && (forall k :: k in n.revisions ==> n.revisions[k].number < m.revisions[r].number)
               && (forall i :: 0 <= i < |n.jobs| ==>
                     m.jobs[i] == if n.jobs[i].revision == r && n.jobs[i].status in {Queued, Validating, Applying}
                                  then n.jobs[i].(status := Failed) else n.jobs[i])
  {
    var checksum := env.hash(bytes);
    var found := FindChecksum(n.revisions, checksum);
    if found.Some? {
      ReuseIff(n, found.value, checksum);
    }
    var r := found.GetOr(luck.revision);
    var m := Import(n, bytes, env, luck).0;
    assert m == Enqueued(n, r, bytes, env, luck);
    assert m.jobs[|n.jobs|] == Job(luck.job, r, Queued, true);
    assert m.revisions[r].number == Top(n.revisions) + 1;
  }

  lemma ImportKeepsInv(n: Node, bytes: Bytes, env: Env, luck: Luck)
    requires CollisionFree(env) && Inv(n, env)
    ensures Inv(Import(n, bytes, env, luck).0, env)
    ensures Import(n, bytes, env, luck).1.Refused? ==> Import(n, bytes, env, luck).0 == n
    ensures Import(n, bytes, env, luck).1.Ok? ==>
            TookEffect(Import(n, bytes, env, luck).0, bytes, env, Import(n, bytes, env, luck).1.result)
  {
    var found := FindChecksum(n.revisions, env.hash(bytes));
    var (m, answer) := Import(n, bytes, env, luck);
    if answer.Ok? {
      var r := found.GetOr(luck.revision);
      if found.Some? && Latest(n.revisions, r) && LastGood(n.jobs, r).Some? {
        ReusedTookEffect(n, r, bytes, env);
      } else {
        EnqueuedKeepsInv(n, r, bytes, env, luck);
        assert m.jobs[|n.jobs|] == Job(luck.job, r, Queued, true);
      }
    }
  }

  lemma ReusedTookEffect(n: Node, r: Id, bytes: Bytes, env: Env)
    requires CollisionFree(env) && Inv(n, env) && Latest(n.revisions, r) && LastGood(n.jobs, r).Some?
    requires n.revisions[r].imported && n.revisions[r].checksum == env.hash(bytes)
    ensures TookEffect(n, bytes, env, LastGood(n.jobs, r).value)
  {
    assert n.revisions[r].snapshot == bytes;
    NewestOfIsLastGood(n.jobs, r);
    var i :| NewestOf(n.jobs, r, i);
    assert n.jobs[i].id == LastGood(n.jobs, r).value && Latest(n.revisions, n.jobs[i].revision);
  }

  /** After every successful import, reused jobs included, the tables hold exactly the snapshot's zones, records,
      streams, pool and rules if and only if the snapshot gives every record and route id one meaning. */
  lemma ImportMirrorsIff(n: Node, bytes: Bytes, env: Env, luck: Luck)
    requires CollisionFree(env) && Inv(n, env) && Import(n, bytes, env, luck).1.Ok?
    ensures env.decode(bytes).Some?
    ensures Mirrors(Import(n, bytes, env, luck).0.tables, env.decode(bytes).value) <==>
            OneMeaning(AllListed(env.decode(bytes).value.zones)) && DistinctRoutes(env.decode(bytes).value.streams)
  {
    ImportKeepsInv(n, bytes, env, luck);
    FilledMirrorsIff(env.decode(bytes).value, env.isIp);
  }

  // ---------------------------------------------------------------- the worker beside it

  datatype Step =
    | ImportStep(bytes: Bytes, luck: Luck)
    | Claim                        // the oldest queued job, when nothing runs
    | Advance(job: nat)            // validating to applying
    | Requeue(job: nat)            // a running job whose lease ran out
    | Settle(job: nat, outcome: Status)

  function FirstQueued(jobs: seq<Job>): (i: nat)
    ensures i <= |jobs| && (i < |jobs| ==> jobs[i].status == Queued)
    ensures forall k :: 0 <= k < i ==> jobs[k].status != Queued
  {
    if jobs == [] || jobs[0].status == Queued then 0 else 1 + FirstQueued(jobs[1..])
  }

  predicate Busy(jobs: seq<Job>) {
    exists i :: 0 <= i < |jobs| && Running(jobs[i].status)
  }

  function Moved(n: Node, i: nat, status: Status): Node
    requires i < |n.jobs|
  {
    n.(jobs := n.jobs[i := n.jobs[i].(status := status)])
  }

  ghost function Next(n: Node, s: Step, env: Env): Node {
    match s
    case ImportStep(bytes, luck) => Import(n, bytes, env, luck).0
    case Claim =>
      var i := FirstQueued(n.jobs);
      if i == |n.jobs| || Busy(n.jobs) then n else Moved(n, i, Validating)
    case Advance(i) => if i < |n.jobs| && n.jobs[i].status == Validating then Moved(n, i, Applying) else n
    case Requeue(i) => if i < |n.jobs| && Running(n.jobs[i].status) then Moved(n, i, Queued) else n
    case Settle(i, outcome) =>
      if i < |n.jobs| && Running(n.jobs[i].status) && !Unfinished(outcome)
        then MarkedApplied(Moved(n, i, outcome), n.jobs[i].revision, outcome) else n
  }

  function MarkedApplied(n: Node, r: Id, outcome: Status): Node {
    if outcome == Applied && r in n.revisions then n.(revisions := n.revisions[r := n.revisions[r].(applied := true)])
      else n
  }

  ghost function Run(n: Node, steps: seq<Step>, env: Env): Node
    decreases |steps|
  {
    if steps == [] then n else Run(Next(n, steps[0], env), steps[1..], env)
  }

  lemma MoveKeepsInv(n: Node, i: nat, status: Status, env: Env)
    requires Inv(n, env) && i < |n.jobs| && Unfinished(n.jobs[i].status)
    ensures Inv(Moved(n, i, status), env)
  {
    var m := Moved(n, i, status);
    assert forall k :: 0 <= k < |n.jobs| ==> m.jobs[k].revision == n.jobs[k].revision && m.jobs[k].id == n.jobs[k].id;
    assert forall k :: 0 <= k < |n.jobs| && Unfinished(m.jobs[k].status) ==> Unfinished(n.jobs[k].status);
  }

  lemma MarkKeepsInv(n: Node, r: Id, outcome: Status, env: Env)
    requires Inv(n, env)
    ensures Inv(MarkedApplied(n, r, outcome), env)
  {
    var m := MarkedApplied(n, r, outcome);
    MarkKeepsRevisions(n.revisions, r, env);
    assert forall i :: 0 <= i < |n.jobs| ==>
        n.jobs[i].revision in m.revisions &&
          m.revisions[n.jobs[i].revision].number == n.revisions[n.jobs[i].revision].number;
  }

  lemma MarkKeepsRevisions(a: map<Id, Revision>, r: Id, env: Env)
    requires UniqueChecksums(a) && UniqueNumbers(a) && Kept(a, env)
    ensures r in a ==> var b := a[r := a[r].(applied := true)];
              UniqueChecksums(b) && UniqueNumbers(b) && Kept(b, env) && Top(a) == Top(b)
  {
    if r in a {
      SameNumbersSameTop(a, a[r := a[r].(applied := true)]);
    }
  }

  lemma SameNumbersSameTop(a: map<Id, Revision>, b: map<Id, Revision>)
    requires a.Keys == b.Keys && forall k :: k in a ==> a[k].number == b[k].number
    ensures Top(a) == Top(b)
  {
    assert a == map[] <==> a.Keys == {};
    assert b == map[] <==> b.Keys == {};
    assert forall k :: k in a <==> k in a.Keys;
  }

  lemma {:induction false} RunKeepsInv(n: Node, steps: seq<Step>, env: Env)
    requires CollisionFree(env) && Inv(n, env)
    ensures Inv(Run(n, steps, env), env)
    decreases |steps|
  {
    if steps != [] {
      NextKeepsInv(n, steps[0], env);
      RunKeepsInv(Next(n, steps[0], env), steps[1..], env);
    }
  }

  lemma NextKeepsInv(n: Node, s: Step, env: Env)
    requires CollisionFree(env) && Inv(n, env)
    ensures Inv(Next(n, s, env), env)
  {
    match s {
      case ImportStep(bytes, luck) => ImportKeepsInv(n, bytes, env, luck);
      case Claim =>
        if FirstQueued(n.jobs) < |n.jobs| { MoveKeepsInv(n, FirstQueued(n.jobs), Validating, env); }
      case Advance(i) =>
        if i < |n.jobs| && n.jobs[i].status == Validating { MoveKeepsInv(n, i, Applying, env); }
      case Requeue(i) =>
        if i < |n.jobs| && Running(n.jobs[i].status) { MoveKeepsInv(n, i, Queued, env); }
      case Settle(i, outcome) =>
        if i < |n.jobs| && Running(n.jobs[i].status) {
          MoveKeepsInv(n, i, outcome, env);
          MarkKeepsInv(Moved(n, i, outcome), n.jobs[i].revision, outcome, env);
        }
    }
  }

  /** In every state of every run, while the latest revision is an import, the tables mirror it under the same
      condition. */
  lemma RunMirrorsIff(n: Node, steps: seq<Step>, env: Env, r: Id)
    requires CollisionFree(env) && Inv(n, env)
    requires Latest(Run(n, steps, env).revisions, r) && Run(n, steps, env).revisions[r].imported
    ensures var m := Run(n, steps, env); var c := env.decode(m.revisions[r].snapshot);
            c.Some? &&
              (Mirrors(m.tables, c.value) <==> OneMeaning(AllListed(c.value.zones)) && DistinctRoutes(c.value.streams))
  {
    RunKeepsInv(n, steps, env);
    FilledMirrorsIff(env.decode(Run(n, steps, env).revisions[r].snapshot).value, env.isIp);
  }

  // ---------------------------------------------------------------- what that means for the worker

  lemma OneUnfinishedJobPerRevision(n: Node, env: Env, i: nat, k: nat)
    requires Inv(n, env) && i < |n.jobs| && k < |n.jobs| && i != k
    requires n.jobs[i].status in {Queued, Validating, Applying} && n.jobs[k].status in {Queued, Validating, Applying}
    ensures n.jobs[i].revision != n.jobs[k].revision
  {
    assert n.revisions[n.jobs[i].revision].number != n.revisions[n.jobs[k].revision].number;
  }

  /** After any run, a claim takes a job exactly when one is queued and none runs, and then the one of the smallest
      revision number of all unfinished jobs, so the newest import is applied last. */
  lemma ClaimEndsOnTheNewest(n: Node, steps: seq<Step>, env: Env)
    requires CollisionFree(env) && Inv(n, env)
    ensures var m := Run(n, steps, env); var u := Next(m, Claim, env);
            && (u != m <==> (exists j :: j in m.jobs && j.status == Queued) &&
                            forall j :: j in m.jobs ==> j.status != Validating && j.status != Applying)
            && (u != m ==> exists i :: ClaimsFirst(m, u, i))
  {
    RunKeepsInv(n, steps, env);
    var m := Run(n, steps, env);
    var u, i := Next(m, Claim, env), FirstQueued(m.jobs);
    if i < |m.jobs| && !Busy(m.jobs) {
      assert u.jobs[i].status == Validating && m.jobs[i] in m.jobs;
      assert forall k :: 0 <= k < |m.jobs| && Running(m.jobs[k].status) ==> Busy(m.jobs);
      assert ClaimsFirst(m, u, i);
    }
  }

  /** Job `i` is claimed, and every other unfinished job is of a revision with a larger number. */
  ghost predicate ClaimsFirst(m: Node, u: Node, i: int) {
    && 0 <= i < |m.jobs| && m.jobs[i].status == Queued
    && u == m.(jobs := m.jobs[i := m.jobs[i].(status := Validating)])
    && forall k | 0 <= k < |m.jobs| && k != i && m.jobs[k].status in {Queued, Validating, Applying} ::
         && m.jobs[i].revision in m.revisions && m.jobs[k].revision in m.revisions
         && m.revisions[m.jobs[i].revision].number < m.revisions[m.jobs[k].revision].number
  }

  /** The worker's own update does not look at the stored status. Writing an unfinished status over job `i` keeps
      one unfinished job per revision exactly when `i` was still unfinished or nothing else of its revision is. */
  ghost predicate OnePerRevision(n: Node) {
    forall i, k | 0 <= i < k < |n.jobs| && Unfinished(n.jobs[i].status) && Unfinished(n.jobs[k].status) ::
      n.jobs[i].revision != n.jobs[k].revision
  }

  lemma LateUpdateIff(n: Node, i: nat, status: Status, env: Env)
    requires Inv(n, env) && i < |n.jobs| && Unfinished(status)
    ensures OnePerRevision(Moved(n, i, status)) <==>
            Unfinished(n.jobs[i].status) ||
            forall k :: 0 <= k < |n.jobs| && k != i && n.jobs[k].revision == n.jobs[i].revision ==>
              !Unfinished(n.jobs[k].status)
  {
    var m := Moved(n, i, status);
    forall a, b | 0 <= a < b < |n.jobs| && Unfinished(n.jobs[a].status) && Unfinished(n.jobs[b].status)
      ensures n.jobs[a].revision != n.jobs[b].revision
    {
      OneUnfinishedJobPerRevision(n, env, a, b);
    }
    assert forall k :: 0 <= k < |n.jobs| && k != i ==> m.jobs[k] == n.jobs[k];
    assert m.jobs[i].revision == n.jobs[i].revision && Unfinished(m.jobs[i].status);
    forall k | 0 <= k < |n.jobs| && k != i && n.jobs[k].revision == n.jobs[i].revision && Unfinished(n.jobs[k].status)
      ensures !OnePerRevision(m)
    {
      assert m.jobs[k].revision == m.jobs[i].revision;
    }
  }

  /** A refresh gives up the running job of its revision; if the worker then still writes to that job, the revision
      has two unfinished jobs. */
  lemma LateUpdateAfterRefresh(n: Node, bytes: Bytes, env: Env, luck: Luck, i: nat, status: Status)
    requires CollisionFree(env) && Inv(n, env) && i < |n.jobs| && Running(n.jobs[i].status) && Unfinished(status)
    requires n.revisions[n.jobs[i].revision].snapshot == bytes && n.revisions[n.jobs[i].revision].imported
    requires !Latest(n.revisions, n.jobs[i].revision) && Import(n, bytes, env, luck).1.Ok?
    ensures var m := Import(n, bytes, env, luck).0; i < |m.jobs| && !OnePerRevision(Moved(m, i, status))
  {
    var r := n.jobs[i].revision;
    assert HasChecksum(n.revisions, r, env.hash(bytes));
    assert FindChecksum(n.revisions, env.hash(bytes)) == Some(r);
    var m := Import(n, bytes, env, luck).0;
    var late := Moved(m, i, status);
    assert late.jobs[|n.jobs|] == Job(luck.job, r, Queued, true);
    assert late.jobs[i].revision == r && Unfinished(late.jobs[i].status);
  }

  // ---------------------------------------------------------------- a run that gets there

  lemma NewBytesInsert(n: Node, bytes: Bytes, env: Env, luck: Luck)
    requires CanFill(n, bytes, env, luck) && luck.revision !in n.revisions && forall r ::
             !HasChecksum(n.revisions, r, env.hash(bytes))
    ensures Import(n, bytes, env, luck) == (Enqueued(n, luck.revision, bytes, env, luck), Ok(luck.job))
  {
  }

  lemma TopIs(revisions: map<Id, Revision>, r: Id)
    requires r in revisions && forall k :: k in revisions ==> revisions[k].number <= revisions[r].number
    ensures Top(revisions) == revisions[r].number
  {
  }

  ghost predicate Importable(bytes: Bytes, env: Env) {
    env.decode(bytes).Some? && Acceptable(env.decode(bytes).value, env.isIp)
  }

  /** The node after importing `a` as revision 1 with job 11, claiming it, and importing `b` as revision 2 with job
      12. */
  ghost function RunningAndNewer(a: Bytes, b: Bytes, env: Env): Node
    requires Importable(a, env) && Importable(b, env)
  {
    Node(map[1 := Revision(1, env.hash(a), true, a, false), 2 := Revision(2, env.hash(b), true, b, false)],
         [Job(11, 1, Validating, true), Job(12, 2, Queued, true)], Filled(env.decode(b).value))
  }

  /** After importing `a` and claiming its job. */
  ghost function RunningOne(a: Bytes, env: Env): Node
    requires Importable(a, env)
  {
    Node(map[1 := Revision(1, env.hash(a), true, a, false)], [Job(11, 1, Validating, true)],
         Filled(env.decode(a).value))
  }

  lemma FirstImport(a: Bytes, env: Env, tables: Tables)
    requires Importable(a, env)
    ensures Next(Node(map[], [], tables), ImportStep(a, Luck(1, 11, true)), env) ==
            RunningOne(a, env).(jobs := [Job(11, 1, Queued, true)])
  {
    NewBytesInsert(Node(map[], [], tables), a, env, Luck(1, 11, true));
    assert Superseded([], 1) == [] && [] + [Job(11, 1, Queued, true)] == [Job(11, 1, Queued, true)];
  }

  lemma ClaimTheOnlyJob(n: Node, env: Env)
    requires n.jobs == [Job(11, 1, Queued, true)]
    ensures Next(n, Claim, env) == n.(jobs := [Job(11, 1, Validating, true)])
  {
    assert FirstQueued(n.jobs) == 0 && !Busy(n.jobs);
  }

  lemma ImportAndClaim(a: Bytes, env: Env, tables: Tables)
    requires Importable(a, env)
    ensures Next(Next(Node(map[], [], tables), ImportStep(a, Luck(1, 11, true)), env), Claim, env) == RunningOne(a, env)
  {
    FirstImport(a, env, tables);
    ClaimTheOnlyJob(RunningOne(a, env).(jobs := [Job(11, 1, Queued, true)]), env);
  }

  lemma ImportBeside(a: Bytes, b: Bytes, env: Env)
    requires CollisionFree(env) && a != b && Importable(a, env) && Importable(b, env)
    ensures Next(RunningOne(a, env), ImportStep(b, Luck(2, 12, true)), env) == RunningAndNewer(a, b, env)
  {
    var n := RunningOne(a, env);
    TopIs(n.revisions, 1);
    assert !HasChecksum(n.revisions, 1, env.hash(b));
    NewBytesInsert(n, b, env, Luck(2, 12, true));
    assert Superseded(n.jobs, 2) == n.jobs;
  }

  lemma ThreeSteps(n: Node, steps: seq<Step>, env: Env)
    requires |steps| == 3
    ensures Run(n, steps, env) == Next(Next(Next(n, steps[0], env), steps[1], env), steps[2], env)
  {
    var n1 := Next(n, steps[0], env);
    var n2 := Next(n1, steps[1], env);
    assert steps[1..][1..] == steps[2..] && steps[2..][1..] == [];
    assert Run(n2, steps[2..], env) == Next(n2, steps[2], env);
    assert Run(n1, steps[1..], env) == Run(n2, steps[2..], env);
  }

  lemma RunningAndNewerIsReached(a: Bytes, b: Bytes, env: Env, tables: Tables)
    requires CollisionFree(env) && a != b && Importable(a, env) && Importable(b, env)
    ensures Run(Node(map[], [], tables),
                [ImportStep(a, Luck(1, 11, true)), Claim, ImportStep(b, Luck(2, 12, true))], env) ==
            RunningAndNewer(a, b, env)
  {
    ThreeSteps(Node(map[], [], tables), [ImportStep(a, Luck(1, 11, true)), Claim, ImportStep(b, Luck(2, 12, true))],
               env);
    ImportAndClaim(a, env, tables);
    ImportBeside(a, b, env);
  }

  lemma RunningAndNewerIsSound(a: Bytes, b: Bytes, env: Env, tables: Tables)
    requires CollisionFree(env) && a != b && Importable(a, env) && Importable(b, env)
    ensures Inv(RunningAndNewer(a, b, env), env)
  {
    var start := Node(map[], [], tables);
    assert Inv(start, env);
    RunningAndNewerIsReached(a, b, env, tables);
    RunKeepsInv(start, [ImportStep(a, Luck(1, 11, true)), Claim, ImportStep(b, Luck(2, 12, true))], env);
  }

  lemma SecondImportRefreshes(a: Bytes, b: Bytes, env: Env)
    requires CollisionFree(env) && a != b && Importable(a, env) && Importable(b, env)
    ensures var n := RunningAndNewer(a, b, env);
            && !Latest(n.revisions, 1)
            && Import(n, a, env, Luck(3, 13, true)) == (Enqueued(n, 1, a, env, Luck(3, 13, true)), Ok(13))
  {
    var n := RunningAndNewer(a, b, env);
    TopIs(n.revisions, 2);
    assert env.hash(a) != env.hash(b);
    assert HasChecksum(n.revisions, 1, env.hash(a));
    assert FindChecksum(n.revisions, env.hash(a)) == Some(1);
  }

  /** Import `a`, claim it, import `b`, import `a` again: the running job is given up. If its worker then writes
      `applying`, revision 1 has two unfinished jobs. */
  lemma LateUpdateRun(a: Bytes, b: Bytes, env: Env, tables: Tables)
    requires CollisionFree(env) && a != b && Importable(a, env) && Importable(b, env)
    ensures var n :=
            Run(Node(map[], [], tables), [ImportStep(a, Luck(1, 11, true)), Claim, ImportStep(b, Luck(2, 12, true))],
                env);
            var (m, answer) := Import(n, a, env, Luck(3, 13, true));
            answer == Ok(13) && |m.jobs| == 3 && m.jobs[0].status == Failed && !OnePerRevision(Moved(m, 0, Applying))
  {
    var n := RunningAndNewer(a, b, env);
    RunningAndNewerIsReached(a, b, env, tables);
    RunningAndNewerIsSound(a, b, env, tables);
    SecondImportRefreshes(a, b, env);
    LateUpdateAfterRefresh(n, a, env, Luck(3, 13, true), 0, Applying);
    assert Superseded(n.jobs, 1)[0].status == Failed;
  }
}
