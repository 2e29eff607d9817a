/** Runs of the publication tables, from the empty ones, in which less holds than one might expect. */
module PublicationExamples {
  import opened Options
  import Jobs
  import opened Publication
  import opened PublicationRuns
  import opened PublicationServing

  const EMPTY := Tables(map[], map[], map[])

  lemma {:induction false} RunAppends(t: Tables, steps: seq<Step>, s: Step)
    ensures Run(t, steps + [s]) == Next(Run(t, steps), s)
    ensures OnlyListed(t, steps + [s]) <==> OnlyListed(t, steps) && Listed(Run(t, steps), s)
    decreases |steps|
  {
    var all := steps + [s];
    if steps == [] {
      assert all[1..] == [];
    } else {
      assert all[0] == steps[0] && all[1..] == steps[1..] + [s];
      RunAppends(Next(t, steps[0]), steps[1..], s);
    }
  }

  lemma NewHashInserts(t: Tables, w: Write)
    requires ValidWrite(w) && CanStamp(t, w) && w.id !in t.snapshots && forall id :: !Holds(t, id, w.hash)
    ensures Decide(t, w) == Effective(w.id) && Publish(t, w) == Stamped(t, w, w.id)
  {
  }

  // ---------------------------------------------------------------- one revision, two applied jobs

  const REVISION := Revision(1, Some(10), UNATTRIBUTED)

  function Finished(at: Clock): Job {
    Job(1, Jobs.Combined, Jobs.Applied, Some(at), UNATTRIBUTED)
  }

  /** Revision 1 was applied twice: by job 11 at clock 10 and by job 12 at clock 20. */
  const APPLIED_TWICE := Tables(map[1 := REVISION], map[11 := Finished(10), 12 := Finished(20)], map[])

  const PREPARED: seq<Step> := [AddRevision(1, 1), AddJob(11, 1), AddJob(12, 1), WorkJob(11, Jobs.Applied, Some(10)),
                                WorkJob(12, Jobs.Applied, Some(20)), MarkApplied(1, 10)]

  lemma PreparationRuns()
    ensures Run(EMPTY, PREPARED) == APPLIED_TWICE && OnlyListed(EMPTY, PREPARED)
  {
    var q := Job(1, Jobs.Combined, Jobs.Queued, None, UNATTRIBUTED);
    var r := Revision(1, None, UNATTRIBUTED);
    var a := Tables(map[1 := r], map[], map[]);
    var b := Tables(map[1 := r], map[11 := q], map[]);
    var c := Tables(map[1 := r], map[11 := q, 12 := q], map[]);
    var d := Tables(map[1 := r], map[11 := Finished(10), 12 := q], map[]);
    var e := Tables(map[1 := r], map[11 := Finished(10), 12 := Finished(20)], map[]);
    assert Next(EMPTY, PREPARED[0]) == a;
    assert Next(a, PREPARED[1]) == b;
    assert Next(b, PREPARED[2]) == c;
    assert Next(c, PREPARED[3]) == d;
    assert Next(d, PREPARED[4]) == e;
    assert Next(e, PREPARED[5]) == APPLIED_TWICE;
    RunAppends(EMPTY, [], PREPARED[0]);
    RunAppends(EMPTY, PREPARED[..1], PREPARED[1]);
    RunAppends(EMPTY, PREPARED[..2], PREPARED[2]);
    RunAppends(EMPTY, PREPARED[..3], PREPARED[3]);
    RunAppends(EMPTY, PREPARED[..4], PREPARED[4]);
    RunAppends(EMPTY, PREPARED[..5], PREPARED[5]);
    assert PREPARED[..1] == [] + [PREPARED[0]] && PREPARED[..2] == PREPARED[..1] + [PREPARED[1]];
    assert PREPARED[..3] == PREPARED[..2] + [PREPARED[2]] && PREPARED[..4] == PREPARED[..3] + [PREPARED[3]];
    assert PREPARED[..5] == PREPARED[..4] + [PREPARED[4]] && PREPARED == PREPARED[..5] + [PREPARED[5]];
  }

  function Written(id: Id, hash: Hash, job: Id, at: Clock): Write {
    Write(id, [1], 1, 1, 1, 1, hash, 1, job, at)
  }

  /** After the first two publishes: row 101 for job 11 and row 102 for job 12, both live. */
  function TwoPublished(): Tables {
    Tables(map[1 := REVISION.(attr := Stamp(Written(102, "b", 12, 20)))],
           map[11 := Finished(10).(attr := Stamp(Written(101, "a", 11, 10))),
               12 := Finished(20).(attr := Stamp(Written(102, "b", 12, 20)))],
           map[101 := RowOf(Written(101, "a", 11, 10)), 102 := RowOf(Written(102, "b", 12, 20))])
  }

  lemma FirstPublish()
    ensures var w := Written(101, "a", 11, 10);
            && Decide(APPLIED_TWICE, w) == Effective(101) && Candidate(APPLIED_TWICE, 11)
            && Publish(APPLIED_TWICE, w) == Stamped(APPLIED_TWICE, w, 101)
  {
    NewHashInserts(APPLIED_TWICE, Written(101, "a", 11, 10));
  }

  lemma SecondPublish()
    ensures var t := Stamped(APPLIED_TWICE, Written(101, "a", 11, 10), 101); var w := Written(102, "b", 12, 20);
            Decide(t, w) == Effective(102) && Candidate(t, 12) && Publish(t, w) == TwoPublished()
  {
    var t := Stamped(APPLIED_TWICE, Written(101, "a", 11, 10), 101);
    assert t.snapshots == map[101 := RowOf(Written(101, "a", 11, 10))];
    assert "a" != "b" by { assert "a"[0] != "b"[0]; }
    NewHashInserts(t, Written(102, "b", 12, 20));
  }

  const TWO_PUBLISHED: seq<Step> :=
    PREPARED + [PublishStep(Written(101, "a", 11, 10))] + [PublishStep(Written(102, "b", 12, 20))]

  lemma TwoPublishesRun()
    ensures Run(EMPTY, TWO_PUBLISHED) == TwoPublished() && OnlyListed(EMPTY, TWO_PUBLISHED)
  {
    PreparationRuns();
    FirstPublish();
    SecondPublish();
    RunAppends(EMPTY, PREPARED, PublishStep(Written(101, "a", 11, 10)));
    RunAppends(EMPTY, PREPARED + [PublishStep(Written(101, "a", 11, 10))], PublishStep(Written(102, "b", 12, 20)));
  }

  // ---------------------------------------------------------------- a relisted job unserves a newer row

  /** Row 101 is discarded, its job is listed again and published with new content under its old clock. That stamps
      the shared revision, and the newest row, 102, is live but no longer complete: nodes are served nothing. */
  lemma RelistedJobUnservesTheNewest()
    ensures var steps := TWO_PUBLISHED + [DiscardStep(101, 25)] + [PublishStep(Written(103, "c", 11, 10))];
            var u := Run(EMPTY, steps);
            && OnlyListed(EMPTY, steps) && IsNewest(u, 1, 102) && Live(u.snapshots[102]) &&
               !Complete(u, u.snapshots[102])
            && !NewestServable(u, 1)
  {
    TwoPublishesRun();
    var t, w := Discard(TwoPublished(), 101, 25), Written(103, "c", 11, 10);
    RunAppends(EMPTY, TWO_PUBLISHED, DiscardStep(101, 25));
    RunAppends(EMPTY, TWO_PUBLISHED + [DiscardStep(101, 25)], PublishStep(w));
    RelistedPublish();
    var u := Publish(t, w);
    assert u.snapshots == t.snapshots[103 := RowOf(w)];
    assert IsNewest(u, 1, 102);
    assert u.revisions[1].attr == Stamp(w) && u.snapshots[102].hash == "b";
    assert "c" != "b" by { assert "c"[0] != "b"[0]; }
  }

  lemma RelistedPublish()
    ensures var t := Discard(TwoPublished(), 101, 25); var w := Written(103, "c", 11, 10);
            Decide(t, w) == Effective(103) && Candidate(t, 11) && Publish(t, w) == Stamped(t, w, 103)
  {
    var t := Discard(TwoPublished(), 101, 25);
    assert t.snapshots[101].hash == "a" && t.snapshots[102].hash == "b";
    assert "a" != "c" by { assert "a"[0] != "c"[0]; }
    assert "b" != "c" by { assert "b"[0] != "c"[0]; }
    assert "a" != "b" by { assert "a"[0] != "b"[0]; }
    NewHashInserts(t, Written(103, "c", 11, 10));
  }

  // ---------------------------------------------------------------- only the second apply published

  const SECOND_PUBLISHED: seq<Step> := PREPARED + [PublishStep(Written(102, "b", 12, 20))]

  function OnlySecondPublished(): Tables {
    Stamped(APPLIED_TWICE, Written(102, "b", 12, 20), 102)
  }

  lemma SecondPublishRuns()
    ensures Run(EMPTY, SECOND_PUBLISHED) == OnlySecondPublished() && OnlyListed(EMPTY, SECOND_PUBLISHED)
  {
    PreparationRuns();
    NewHashInserts(APPLIED_TWICE, Written(102, "b", 12, 20));
    RunAppends(EMPTY, PREPARED, PublishStep(Written(102, "b", 12, 20)));
  }

  /** Job 11's content is what job 12 already published: the publish succeeds, writes nothing, and job 11 stays
      listed. */
  lemma OlderWriteStaysListed()
    ensures var t, w := Run(EMPTY, SECOND_PUBLISHED), Written(101, "b", 11, 10);
            OnlyListed(EMPTY, SECOND_PUBLISHED + [PublishStep(w)]) && Decide(t, w) == Older && Publish(t, w) == t &&
            Candidate(Publish(t, w), 11)
  {
    SecondPublishRuns();
    var t, w := OnlySecondPublished(), Written(101, "b", 11, 10);
    assert Holds(t, 102, "b");
    assert FindByHash(t, "b") == Some(102);
    RunAppends(EMPTY, SECOND_PUBLISHED, PublishStep(w));
  }

  // ---------------------------------------------------------------- an equal clock and a smaller row id

  /** The discarded newest row 102 is regenerated with new content, the same clock and the smaller row id 99: the
      discarded row stays the newest, and the regenerated one is never served. */
  lemma RegeneratedBehindTheDiscarded()
    ensures var steps := SECOND_PUBLISHED + [DiscardStep(102, 25)] + [PublishStep(Written(99, "c", 12, 20))];
            var u := Run(EMPTY, steps);
            && OnlyListed(EMPTY, steps) && 99 in u.snapshots && Live(u.snapshots[99]) && 102 in u.snapshots
            && !Live(u.snapshots[102]) && IsNewest(u, 1, 102) && !IsNewest(u, 1, 99)
  {
    SecondPublishRuns();
    var t, w := Discard(OnlySecondPublished(), 102, 25), Written(99, "c", 12, 20);
    RunAppends(EMPTY, SECOND_PUBLISHED, DiscardStep(102, 25));
    RunAppends(EMPTY, SECOND_PUBLISHED + [DiscardStep(102, 25)], PublishStep(w));
    RegeneratedPublish();
    RegenerationServedIff(t, w, 102);
  }

  lemma RegeneratedPublish()
    ensures var t, w := Discard(OnlySecondPublished(), 102, 25), Written(99, "c", 12, 20);
            && Sound(t) && IsNewest(t, 1, 102) && !Live(t.snapshots[102]) && Candidate(t, 12)
            && Decide(t, w) == Effective(99) && Publish(t, w) == Stamped(t, w, 99)
  {
    var t, w := Discard(OnlySecondPublished(), 102, 25), Written(99, "c", 12, 20);
    assert t.snapshots == map[102 := RowOf(Written(102, "b", 12, 20)).(discardedAt := Some(25))];
    assert "c" != "b" by { assert "c"[0] != "b"[0]; }
    NewHashInserts(t, w);
  }
}
