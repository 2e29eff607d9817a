/**
 * What every run of publishes, discards and ordinary apply work keeps. Runs are sequences of steps, each
 * one writer transaction; a step whose guard fails (a rejected write) leaves the tables as they were.
 */
module PublicationRuns {
  import opened Options
  import Jobs
  import opened Publication

  datatype Step =
    | PublishStep(w: Write)
    | DiscardStep(row: Id, at: Clock)
    | AddRevision(revision: Id, number: int)               // enqueue of a new configuration
    | AddJob(job: Id, of: Id)                              // enqueue of a combined apply
    | WorkJob(job: Id, status: Jobs.Status, finish: Option<Clock>) // the worker moves a job not yet applied
    | MarkApplied(revision: Id, when: Clock)

  ghost function Next(t: Tables, s: Step): Tables {
    match s
    case PublishStep(w) => Publish(t, w)
    case DiscardStep(row, at) => Discard(t, row, at)
    case AddRevision(revision, number) =>
      if revision in t.revisions || exists r :: r in t.revisions && t.revisions[r].number == number then t
      else t.(revisions := t.revisions[revision := Revision(number, None, UNATTRIBUTED)])
    case AddJob(job, of) =>
      if job in t.jobs || of !in t.revisions then t
      else t.(jobs := t.jobs[job := Job(of, Jobs.Combined, Jobs.Queued, None, UNATTRIBUTED)])
    case WorkJob(job, status, finish) =>
      if job !in t.jobs || t.jobs[job].status == Jobs.Applied then t
      else t.(jobs := t.jobs[job := t.jobs[job].(status := status, finishedAt := finish)])
    case MarkApplied(revision, when) =>
      if revision !in t.revisions then t
      else t.(revisions := t.revisions[revision := t.revisions[revision].(appliedAt := Some(when))])
  }

  ghost function Run(t: Tables, steps: seq<Step>): Tables
    decreases |steps|
  {
    if steps == [] then t else Run(Next(t, steps[0]), steps[1..])
  }

  // ---------------------------------------------------------------- one row per hash

  /** Every row was written by a publish: it is applied, has a body, and its revision and job exist. */
  ghost predicate Sound(t: Tables) {
    && UniqueHash(t)
    && forall id :: id in t.snapshots ==>
         && t.snapshots[id].status == Applied && t.snapshots[id].body.Some?
         && t.snapshots[id].revision.Some? && t.snapshots[id].revision.value in t.revisions
         && t.snapshots[id].job.Some? && t.snapshots[id].job.value in t.jobs
  }

  /** No row is lost and none changes its hash. */
  ghost predicate SameHashes(t: Tables, u: Tables) {
    forall id :: id in t.snapshots ==> id in u.snapshots && u.snapshots[id].hash == t.snapshots[id].hash
  }

  lemma PublishKeepsSound(t: Tables, w: Write)
    requires Sound(t)
    ensures Sound(Publish(t, w)) && SameHashes(t, Publish(t, w))
  {
    if Decide(t, w).Effective? {
      assert forall id :: id in t.snapshots && t.snapshots[id].hash == w.hash ==> Holds(t, id, w.hash);
    }
  }

  lemma NextKeepsSound(t: Tables, s: Step)
    requires Sound(t)
    ensures Sound(Next(t, s)) && SameHashes(t, Next(t, s))
  {
    if s.PublishStep? {
      PublishKeepsSound(t, s.w);
    } else {
      OthersKeepSound(t, s);
    }
  }

  /** Ordinary apply work: no snapshot changes, no revision or job goes away, an applied job stays as it is. */
  ghost predicate Worked(t: Tables, u: Tables) {
    && u.snapshots == t.snapshots
    && (forall r :: r in t.revisions ==>
          && r in u.revisions && u.revisions[r].number == t.revisions[r].number &&
             u.revisions[r].attr == t.revisions[r].attr
          && (t.revisions[r].appliedAt.Some? ==> u.revisions[r].appliedAt.Some?))
    && (forall j :: j in t.jobs ==> j in u.jobs && (t.jobs[j].status == Jobs.Applied ==> u.jobs[j] == t.jobs[j]))
  }

  lemma WorkWorks(t: Tables, s: Step)
    requires !s.PublishStep? && !s.DiscardStep?
    ensures Worked(t, Next(t, s))
  {
  }

  lemma OthersKeepSound(t: Tables, s: Step)
    requires Sound(t) && !s.PublishStep?
    ensures Sound(Next(t, s)) && SameHashes(t, Next(t, s))
  {
    if !s.DiscardStep? {
      WorkWorks(t, s);
    }
  }

  lemma {:induction false} RunKeepsOneRowPerHash(t: Tables, steps: seq<Step>)
    requires Sound(t)
    ensures Sound(Run(t, steps))
    decreases |steps|
  {
    if steps != [] {
      NextKeepsSound(t, steps[0]);
      RunKeepsOneRowPerHash(Next(t, steps[0]), steps[1..]);
    }
  }

  // ---------------------------------------------------------------- a publish leaves its row served and settled

  lemma EffectivePublishIsComplete(t: Tables, w: Write)
    requires Decide(t, w).Effective?
    ensures var row := Decide(t, w).row;
            row in Publish(t, w).snapshots && Complete(Publish(t, w), Publish(t, w).snapshots[row]) &&
            Matches(Publish(t, w).snapshots[row], w)
  {
  }

  /** Sending the same write again, right after it, changes nothing and does not turn success into an error. */
  lemma ReplayIsNoOp(t: Tables, w: Write)
    requires UniqueHash(t)
    ensures Publish(Publish(t, w), w) == Publish(t, w)
    ensures Decide(t, w) != Conflict ==> Decide(Publish(t, w), w) in {Replay, Older}
  {
    if Decide(t, w).Effective? {
      var row, after := Decide(t, w).row, Publish(t, w);
      assert Holds(after, row, w.hash);
      assert forall id :: Holds(after, id, w.hash) && id != row ==> Holds(t, id, w.hash);
    }
  }

  // ---------------------------------------------------------------- when a write stands

  /** Row `id` is live and says what the write says, field by field. */
  ghost predicate StandsAt(t: Tables, w: Write, id: Id) {
    && id in t.snapshots
    && t.snapshots[id].(failure := None) ==
       Snapshot(w.primary, w.generation, w.snapshotVersion, w.replicationVersion, w.hash, Some(w.body),
                Some(w.revision), SnapshotStatus.Applied, Some(w.job), None, w.appliedAt, None)
  }

  ghost predicate Stands(t: Tables, w: Write) {
    exists id :: StandsAt(t, w, id)
  }

  /** Every row of the write's hash is discarded, or was applied earlier, or at the same clock from a smaller
      revision; without such a row the write's own id is free. */
  ghost predicate Ahead(t: Tables, w: Write) {
    && (forall id | id in t.snapshots && t.snapshots[id].hash == w.hash && t.snapshots[id].discardedAt.None? ::
          || t.snapshots[id].appliedAt < w.appliedAt
          || (t.snapshots[id].appliedAt == w.appliedAt && w.revision in t.revisions && t.snapshots[id].revision.Some? &&
              t.snapshots[id].revision.value in t.revisions &&
              t.revisions[t.snapshots[id].revision.value].number < t.revisions[w.revision].number))
    && ((forall id :: id in t.snapshots ==> t.snapshots[id].hash != w.hash) ==> w.id !in t.snapshots)
  }

  /** A live row of the write's hash was applied later, or at the same clock from no smaller revision. */
  ghost predicate Behind(t: Tables, w: Write) {
    exists id | id in t.snapshots && t.snapshots[id].hash == w.hash && t.snapshots[id].discardedAt.None? ::
      || w.appliedAt < t.snapshots[id].appliedAt
      || (t.snapshots[id].appliedAt == w.appliedAt && w.revision in t.revisions && t.snapshots[id].revision.Some? &&
          t.snapshots[id].revision.value in t.revisions &&
          t.revisions[t.snapshots[id].revision.value].number >= t.revisions[w.revision].number)
  }

  /** A publish leaves its write standing exactly when it stood before, or is complete, belongs to a finished apply
      of this installation's own configuration, and is ahead of whatever live row has its content. It succeeds
      exactly when the write then stands or a live row is not behind it. */
  lemma PublishStandsIff(t: Tables, w: Write)
    requires Sound(t)
    ensures var complete := w.body != [] && 0 !in {w.id, w.primary, w.revision, w.job, w.appliedAt} && w.hash != "" &&
                            w.generation > 0 && w.snapshotVersion > 0 && w.replicationVersion > 0;
            var finished := w.revision in t.revisions && t.revisions[w.revision].attr.source == Ordinary &&
                            t.revisions[w.revision].appliedAt.Some? && w.job in t.jobs &&
                            t.jobs[w.job].revision == w.revision && t.jobs[w.job].status == Jobs.Applied &&
                            t.jobs[w.job].finishedAt.Some?;
            && (Stands(Publish(t, w), w) <==> Stands(t, w) || (complete && finished && Ahead(t, w)))
            && (Decide(t, w) != Conflict <==> complete && (Stands(Publish(t, w), w) || Behind(t, w)))
  {
    var u := Publish(t, w);
    assert forall id :: StandsAt(t, w, id) ==> Holds(t, id, w.hash);
    match FindByHash(t, w.hash) {
      case None =>
        assert forall id :: id in t.snapshots ==> !Holds(t, id, w.hash);
        if Decide(t, w).Effective? {
          assert StandsAt(u, w, w.id);
        }
      case Some(id) =>
        assert Holds(t, id, w.hash);
        assert forall o :: o in t.snapshots && t.snapshots[o].hash == w.hash ==> o == id;
        if Decide(t, w).Effective? {
          assert StandsAt(u, w, id);
        } else if Decide(t, w).Replay? {
          assert StandsAt(t, w, id);
        }
    }
  }

  /** A publish that changes anything changes the row it leaves standing, of the same content if there was one, and
      the replication columns and the target of its revision and job. */
  lemma PublishTouchesOnly(t: Tables, w: Write)
    requires Sound(t) && Publish(t, w) != t
    ensures var u := Publish(t, w);
            var stamp := Attribution(Ordinary, Some(w.primary), None, None, Some(w.hash), Some(w.snapshotVersion),
                                     Some(w.replicationVersion), Some(w.generation));
            && w.revision in t.revisions && w.job in t.jobs
            && u.revisions == t.revisions[w.revision := t.revisions[w.revision].(attr := stamp)]
            && u.jobs == t.jobs[w.job := t.jobs[w.job].(attr := stamp, target := Jobs.Combined)]
            && exists row :: StandsAt(u, w, row) && u.snapshots == t.snapshots[row := u.snapshots[row]] &&
                             (row in t.snapshots ==> t.snapshots[row].hash == w.hash)
  {
    var row, u := Decide(t, w).row, Publish(t, w);
    assert StandsAt(u, w, row) && u.snapshots == t.snapshots[row := u.snapshots[row]];
    assert FindByHash(t, w.hash).Some? ==> Holds(t, row, w.hash);
  }

  /** The proof of a row is complete exactly when some write could have left it just so: publishing that write would
      change neither the row nor the revision and the job it rests on. */
  lemma CompleteIffReproducible(t: Tables, row: Id)
    requires row in t.snapshots
    ensures Complete(t, t.snapshots[row]) <==>
            exists w :: CanStamp(t, w) && StandsAt(t, w, row) &&
                        Stamped(t, w, row) == t.(snapshots := t.snapshots[row := t.snapshots[row].(failure := None)])
  {
    var a := t.snapshots[row];
    if Complete(t, a) {
      var w := Write(row, a.body.value, a.primary, a.generation, a.snapshotVersion, a.replicationVersion, a.hash,
                     a.revision.value, a.job.value, a.appliedAt);
      assert CanStamp(t, w) && StandsAt(t, w, row);
      assert t.revisions[w.revision := t.revisions[w.revision].(attr := Stamp(w))] == t.revisions;
      assert t.jobs[w.job := t.jobs[w.job].(attr := Stamp(w), target := Jobs.Combined)] == t.jobs;
    }
    if w :| CanStamp(t, w) && StandsAt(t, w, row) &&
            Stamped(t, w, row) == t.(snapshots := t.snapshots[row := t.snapshots[row].(failure := None)]) {
      assert Stamped(t, w, row).revisions[w.revision].attr == t.revisions[w.revision].attr;
      assert Stamped(t, w, row).jobs[w.job].attr == t.jobs[w.job].attr;
    }
  }

  // ---------------------------------------------------------------- recency of a live row never goes back

  /** `(applied_at, revision_number)` of row `id` in `t` is at most the one in `u`. */
  predicate NoOlder(t: Tables, u: Tables, id: Id)
    requires id in t.snapshots && id in u.snapshots
  {
    var x, y := t.snapshots[id], u.snapshots[id];
    x.appliedAt < y.appliedAt ||
    (x.appliedAt == y.appliedAt && (Number(t, x) == Number(u, y) || NumberBelow(Number(t, x), Number(u, y))))
  }

  lemma NextKeepsRecency(t: Tables, s: Step, id: Id)
    requires Sound(t) && id in t.snapshots && Live(t.snapshots[id])
    ensures id in Next(t, s).snapshots && NoOlder(t, Next(t, s), id)
  {
    if s.PublishStep? && Decide(t, s.w).Effective? && Decide(t, s.w).row == id {
      assert !Outranks(t, t.snapshots[id], s.w);
    }
  }

  /** Row `id` is live in every state of the run except perhaps the last. */
  ghost predicate LiveUntilLast(t: Tables, steps: seq<Step>, id: Id)
    decreases |steps|
  {
    steps != [] ==> id in t.snapshots && Live(t.snapshots[id]) && LiveUntilLast(Next(t, steps[0]), steps[1..], id)
  }

  lemma {:induction false} RunKeepsRecency(t: Tables, steps: seq<Step>, id: Id)
    requires Sound(t) && id in t.snapshots && LiveUntilLast(t, steps, id)
    ensures id in Run(t, steps).snapshots && NoOlder(t, Run(t, steps), id)
    decreases |steps|
  {
    if steps != [] {
      NextKeepsSound(t, steps[0]);
      NextKeepsRecency(t, steps[0], id);
      RunKeepsRecency(Next(t, steps[0]), steps[1..], id);
    }
  }

  // ---------------------------------------------------------------- the newest row is complete or discarded

  ghost predicate NoLaterThan(t: Tables, c: Clock) {
    forall id :: id in t.snapshots ==> t.snapshots[id].appliedAt <= c
  }

  ghost predicate NewestServable(t: Tables, primary: Id) {
    forall id :: IsNewest(t, primary, id) ==> Complete(t, t.snapshots[id]) || !Live(t.snapshots[id])
  }

  /** The run's publishes all carry `primary`, with apply clocks that strictly increase from `c`. */
  predicate Rising(steps: seq<Step>, primary: Id, c: Clock)
    decreases |steps|
  {
    if steps == [] then true
    else if steps[0].PublishStep?
    then steps[0].w.primary == primary && steps[0].w.appliedAt > c && Rising(steps[1..], primary, steps[0].w.appliedAt)
    else Rising(steps[1..], primary, c)
  }

  /** A publish whose clock exceeds every stored one makes its own row the newest. */
  lemma PublishTakesTheTop(t: Tables, w: Write, c: Clock)
    requires NoLaterThan(t, c) && w.appliedAt > c && Decide(t, w).Effective?
    ensures forall id :: IsNewest(Publish(t, w), w.primary, id) <==> id == Decide(t, w).row
    ensures NewestServable(Publish(t, w), w.primary)
    ensures NoLaterThan(Publish(t, w), w.appliedAt)
  {
    var row, after := Decide(t, w).row, Publish(t, w);
    EffectivePublishIsComplete(t, w);
    assert IsNewest(after, w.primary, row);
  }

  /** The served row is the maximum of clock, then revision number, then id. */
  lemma NewestIsMaximum(t: Tables, primary: Id, id: Id)
    requires Sound(t) && id in t.snapshots && t.snapshots[id].primary == primary
    ensures var x := t.snapshots[id];
            IsNewest(t, primary, id) <==>
            forall o | o in t.snapshots && t.snapshots[o].primary == primary && o != id ::
              var y, m, n := t.snapshots[o], t.revisions[t.snapshots[o].revision.value].number,
                             t.revisions[x.revision.value].number;
              y.appliedAt < x.appliedAt || (y.appliedAt == x.appliedAt && (m < n || (m == n && o < id)))
  {
  }

  /** Whether it inserts, rebinds or heals: a publish that leaves its write standing, under a clock later than every
      stored one, is what nodes are served from then on. */
  lemma LatestPublishIsServed(t: Tables, w: Write)
    requires Sound(t) && forall id :: id in t.snapshots ==> t.snapshots[id].appliedAt < w.appliedAt
    requires Stands(Publish(t, w), w)
    ensures exists id :: StandsAt(Publish(t, w), w, id) && IsNewest(Publish(t, w), w.primary, id) &&
                         Complete(Publish(t, w), Publish(t, w).snapshots[id])
  {
    assert forall id :: !StandsAt(t, w, id);
    PublishStandsIff(t, w);
    var row := Decide(t, w).row;
    PublishTakesTheTop(t, w, w.appliedAt - 1);
    EffectivePublishIsComplete(t, w);
    assert StandsAt(Publish(t, w), w, row);
  }

  /** The order of rows is the same, and a row that was complete still is or was discarded. */
  ghost predicate OrderKept(t: Tables, u: Tables) {
    && t.snapshots.Keys == u.snapshots.Keys
    && forall id :: id in t.snapshots ==>
         && u.snapshots[id].appliedAt == t.snapshots[id].appliedAt && u.snapshots[id].primary == t.snapshots[id].primary
         && Number(u, u.snapshots[id]) == Number(t, t.snapshots[id])
         && (Complete(t, t.snapshots[id]) || !Live(t.snapshots[id]) ==>
             Complete(u, u.snapshots[id]) || !Live(u.snapshots[id]))
  }

  lemma WorkKeepsOrder(t: Tables, u: Tables)
    requires Sound(t) && Worked(t, u)
    ensures OrderKept(t, u)
  {
  }

  lemma DiscardKeepsOrder(t: Tables, row: Id, at: Clock)
    ensures OrderKept(t, Discard(t, row, at))
  {
    assert t.snapshots.Keys == Discard(t, row, at).snapshots.Keys;
  }

  lemma OtherStepsKeepOrder(t: Tables, s: Step)
    requires Sound(t) && (s.PublishStep? ==> !Decide(t, s.w).Effective?)
    ensures OrderKept(t, Next(t, s))
  {
    if s.DiscardStep? {
      DiscardKeepsOrder(t, s.row, s.at);
    } else if s.PublishStep? {
      assert Next(t, s) == t;
      WorkKeepsOrder(t, t);
    } else {
      WorkWorks(t, s);
      WorkKeepsOrder(t, Next(t, s));
    }
  }

  lemma SameOrderSameNewest(t: Tables, u: Tables, primary: Id, id: Id)
    requires OrderKept(t, u) && IsNewest(u, primary, id)
    ensures IsNewest(t, primary, id)
  {
    assert id in t.snapshots.Keys;
    forall o | o in t.snapshots && t.snapshots[o].primary == primary && o != id
      ensures Newer(t, id, o)
    {
      assert o in u.snapshots.Keys && Newer(u, id, o);
    }
  }

  /** Every other step leaves the order of rows alone and only discards, or adds to, what the newest row rests on.
      */
  lemma OtherStepsKeepServable(t: Tables, s: Step, primary: Id)
    requires Sound(t) && NewestServable(t, primary)
    requires s.PublishStep? ==> !Decide(t, s.w).Effective?
    ensures NewestServable(Next(t, s), primary)
  {
    OtherStepsKeepOrder(t, s);
    forall id | IsNewest(Next(t, s), primary, id)
      ensures Complete(Next(t, s), Next(t, s).snapshots[id]) || !Live(Next(t, s).snapshots[id])
    {
      SameOrderSameNewest(t, Next(t, s), primary, id);
    }
  }

  /** Without a rising clock: regenerating a discarded newest row under the same clock and revision is served
      exactly when the fresh row id happens to be the larger one. */
  lemma RegenerationServedIff(t: Tables, w: Write, stale: Id)
    requires Sound(t) && IsNewest(t, w.primary, stale) && !Live(t.snapshots[stale])
    requires t.snapshots[stale].appliedAt == w.appliedAt && t.snapshots[stale].revision == Some(w.revision)
    requires Decide(t, w) == Effective(w.id) && w.id !in t.snapshots
    ensures IsNewest(Publish(t, w), w.primary, w.id) <==> w.id > stale
    ensures w.id < stale ==> IsNewest(Publish(t, w), w.primary, stale)
  {
    var u := Publish(t, w);
    assert forall o :: o in t.snapshots ==> Number(u, u.snapshots[o]) == Number(t, t.snapshots[o]);
    assert forall o :: o in t.snapshots && t.snapshots[o].primary == w.primary && o != stale ==>
        Newer(t, stale, o) && Newer(u, stale, o);
    assert Newer(u, w.id, stale) <==> w.id > stale;
    if w.id > stale {
      assert forall o :: o in t.snapshots && t.snapshots[o].primary == w.primary && o != stale ==>
          Newer(t, stale, o) && Newer(u, w.id, o);
    }
  }

  // ---------------------------------------------------------------- candidates

  /** Each live row is the only one of its job, and its settled job carries the row's hash. */
  ghost predicate Bound(t: Tables) {
    && Sound(t)
    && (forall a, b | a in t.snapshots && b in t.snapshots && Live(t.snapshots[a]) && Live(t.snapshots[b]) ::
          t.snapshots[a].job == t.snapshots[b].job ==> a == b)
    && (forall a :: a in t.snapshots && Live(t.snapshots[a]) ==>
          var j := t.jobs[t.snapshots[a].job.value];
          Settled(j) && j.attr.hash == Some(t.snapshots[a].hash))
  }

  ghost predicate Listed(t: Tables, s: Step) {
    s.PublishStep? ==> Candidate(t, s.w.job)
  }

  ghost predicate OnlyListed(t: Tables, steps: seq<Step>)
    decreases |steps|
  {
    steps != [] ==> Listed(t, steps[0]) && OnlyListed(Next(t, steps[0]), steps[1..])
  }

  lemma PublishKeepsBound(t: Tables, w: Write)
    requires Bound(t) && Candidate(t, w.job)
    ensures Bound(Publish(t, w))
  {
    PublishKeepsSound(t, w);
  }

  lemma WorkKeepsBound(t: Tables, u: Tables)
    requires Bound(t) && Worked(t, u)
    ensures Bound(u)
  {
  }

  lemma OthersKeepBound(t: Tables, s: Step)
    requires Bound(t) && !s.PublishStep?
    ensures Bound(Next(t, s))
  {
    if s.DiscardStep? {
      OthersKeepSound(t, s);
    } else {
      WorkWorks(t, s);
      WorkKeepsBound(t, Next(t, s));
    }
  }

  lemma NextKeepsBound(t: Tables, s: Step)
    requires Bound(t) && Listed(t, s)
    ensures Bound(Next(t, s))
  {
    if s.PublishStep? {
      PublishKeepsBound(t, s.w);
    } else {
      OthersKeepBound(t, s);
    }
  }

  lemma {:induction false} RunKeepsBound(t: Tables, steps: seq<Step>)
    requires Bound(t) && OnlyListed(t, steps)
    ensures Bound(Run(t, steps))
    decreases |steps|
  {
    if steps != [] {
      NextKeepsBound(t, steps[0]);
      RunKeepsBound(Next(t, steps[0]), steps[1..]);
    }
  }

  /** Discarding a live row puts the job it is bound to back in the list. */
  lemma DiscardRelists(t: Tables, row: Id, now: Clock)
    requires Bound(t) && CanDiscard(t, row)
    ensures Candidate(Discard(t, row, now), t.snapshots[row].job.value)
  {
  }

  /** After a successful publish of a listed job, the job is still listed exactly when the write was too old: a live
      row of its content was not behind it. */
  lemma PublishSettlesCandidateIff(t: Tables, w: Write)
    requires Bound(t) && Candidate(t, w.job) && Decide(t, w) != Conflict
    ensures Candidate(Publish(t, w), w.job) <==> Behind(t, w)
    ensures Decide(t, w) == Older <==> Behind(t, w)
  {
    if Decide(t, w).Effective? {
      assert Publish(t, w).snapshots[Decide(t, w).row].job == Some(w.job);
    }
    if FindByHash(t, w.hash).None? {
      assert forall id :: id in t.snapshots ==> !Holds(t, id, w.hash);
    } else {
      assert forall id: Id :: Holds(t, id, w.hash) ==> FindByHash(t, w.hash) == Some(id);
      assert Holds(t, FindByHash(t, w.hash).value, w.hash);
    }
  }

  predicate Discards(s: Step, row: Id) {
    s.DiscardStep? && s.row == row
  }

  /** Once a job took an insert or a rebind at `row`, no run brings it back to the list without discarding `row`. */
  lemma {:induction false} RunKeepsUnlisted(t: Tables, steps: seq<Step>, job: Id, row: Id)
    requires Bound(t) && OnlyListed(t, steps)
    requires row in t.snapshots && Live(t.snapshots[row]) && job in t.jobs
    requires t.jobs[job].attr.hash == Some(t.snapshots[row].hash)
    requires forall i :: 0 <= i < |steps| ==> !Discards(steps[i], row)
    ensures !Candidate(Run(t, steps), job)
    decreases |steps|
  {
    if steps != [] {
      NextKeepsBound(t, steps[0]);
      assert !Discards(steps[0], row);
      StaysUnlisted(t, steps[0], job, row);
      RunKeepsUnlisted(Next(t, steps[0]), steps[1..], job, row);
    }
  }

  lemma StaysUnlisted(t: Tables, s: Step, job: Id, row: Id)
    requires Bound(t) && Listed(t, s) && !Discards(s, row)
    requires row in t.snapshots && Live(t.snapshots[row]) && job in t.jobs &&
             t.jobs[job].attr.hash == Some(t.snapshots[row].hash)
    ensures var u := Next(t, s);
            row in u.snapshots && Live(u.snapshots[row]) && job in u.jobs &&
              u.jobs[job].attr.hash == Some(u.snapshots[row].hash)
  {
    if s.PublishStep? {
      PublishKeepsUnlisted(t, s.w, job, row);
    } else if !s.DiscardStep? {
      assert s.WorkJob? ==> Next(t, s).jobs[job].attr == t.jobs[job].attr;
    }
  }

  lemma PublishKeepsUnlisted(t: Tables, w: Write, job: Id, row: Id)
    requires Bound(t) && Candidate(t, w.job)
    requires row in t.snapshots && Live(t.snapshots[row]) && job in t.jobs &&
             t.jobs[job].attr.hash == Some(t.snapshots[row].hash)
    ensures var u := Publish(t, w);
            row in u.snapshots && Live(u.snapshots[row]) && job in u.jobs &&
              u.jobs[job].attr.hash == Some(u.snapshots[row].hash)
  {
    PublishKeepsSound(t, w);
    assert w.job != job;
  }

  lemma PublishedJobRelistedOnlyByDiscard(t: Tables, w: Write, steps: seq<Step>)
    requires Bound(t) && Candidate(t, w.job) && Decide(t, w).Effective?
    requires OnlyListed(Publish(t, w), steps)
    requires Candidate(Run(Publish(t, w), steps), w.job)
    ensures exists i :: 0 <= i < |steps| && Discards(steps[i], Decide(t, w).row)
  {
    NextKeepsBound(t, PublishStep(w));
    if forall i :: 0 <= i < |steps| ==> !Discards(steps[i], Decide(t, w).row) {
      RunKeepsUnlisted(Publish(t, w), steps, w.job, Decide(t, w).row);
    }
  }
}
