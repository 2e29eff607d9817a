/**
 * When the newest row of a primary can be served. A publish rewrites a revision and a job that older rows
 * may rest on, and a job is always published under its own finish clock, so a relisted job comes back behind
 * rows published since. The exact condition is stated per publish and over whole runs, for any clocks.
 */
module PublicationServing {
  import opened Options
  import opened Publication
  import opened PublicationRuns

  /** The row shares its revision or its job with the write, whose stamp will replace theirs. */
  predicate RestsOn(a: Snapshot, w: Write) {
    a.revision == Some(w.revision) || a.job == Some(w.job)
  }

  /** Row `id` sorts before the row the write will leave at `row`. */
  predicate Outsorts(t: Tables, id: Id, w: Write, row: Id)
    requires id in t.snapshots && w.revision in t.revisions
  {
    var x, n := t.snapshots[id], Some(t.revisions[w.revision].number);
    x.appliedAt > w.appliedAt ||
    (x.appliedAt == w.appliedAt && (NumberBelow(n, Number(t, x)) || (Number(t, x) == n && id > row)))
  }

  /** Row `id`, not the written one, will be the newest of the primary. */
  ghost predicate StaysNewest(t: Tables, w: Write, row: Id, primary: Id, id: Id) {
    && id in t.snapshots && id != row && t.snapshots[id].primary == primary
    && (forall o :: o in t.snapshots && t.snapshots[o].primary == primary && o != id && o != row ==> Newer(t, id, o))
    && (w.primary == primary ==> w.revision in t.revisions && Outsorts(t, id, w, row))
  }

  lemma NumbersStay(t: Tables, w: Write, row: Id, id: Id)
    requires Decide(t, w) == Effective(row) && id in t.snapshots && id != row
    ensures id in Publish(t, w).snapshots && Publish(t, w).snapshots[id] == t.snapshots[id]
    ensures Number(Publish(t, w), t.snapshots[id]) == Number(t, t.snapshots[id])
  {
  }

  lemma WrittenRow(t: Tables, w: Write, row: Id)
    requires Decide(t, w) == Effective(row)
    ensures row in Publish(t, w).snapshots && Publish(t, w).snapshots[row] == RowOf(w) && w.revision in t.revisions
    ensures Number(Publish(t, w), RowOf(w)) == Some(t.revisions[w.revision].number)
  {
  }

  lemma OrderAfterPublish(t: Tables, w: Write, row: Id, a: Id, b: Id)
    requires Decide(t, w) == Effective(row) && a in t.snapshots && b in t.snapshots && a != row
    ensures a in Publish(t, w).snapshots && b in Publish(t, w).snapshots && row in Publish(t, w).snapshots
    ensures w.revision in t.revisions && (Newer(Publish(t, w), a, row) <==> Outsorts(t, a, w, row))
    ensures b != row ==> (Newer(Publish(t, w), a, b) <==> Newer(t, a, b))
  {
    WrittenRow(t, w, row);
    NumbersStay(t, w, row, a);
    if b != row {
      NumbersStay(t, w, row, b);
    }
  }

  lemma StaysNewestIff(t: Tables, w: Write, row: Id, primary: Id, id: Id)
    requires Decide(t, w) == Effective(row) && id != row
    ensures IsNewest(Publish(t, w), primary, id) <==> StaysNewest(t, w, row, primary, id)
  {
    var u := Publish(t, w);
    WrittenRow(t, w, row);
    if id in t.snapshots {
      forall o | o in u.snapshots && o != row
        ensures o in t.snapshots && u.snapshots[o] == t.snapshots[o] && (Newer(u, id, o) <==> Newer(t, id, o))
      {
        OrderAfterPublish(t, w, row, id, o);
      }
      OrderAfterPublish(t, w, row, id, id);
    }
  }

  /** Any other row stays complete exactly when the write stamps neither of the two rows it rests on: a stamp
      carries its write's hash, and no other row has that hash. */
  lemma CompleteAfterIff(t: Tables, w: Write, row: Id, id: Id)
    requires UniqueHash(t) && Decide(t, w) == Effective(row) && id in t.snapshots && id != row
    ensures Complete(Publish(t, w), t.snapshots[id]) <==> Complete(t, t.snapshots[id]) && !RestsOn(t.snapshots[id], w)
  {
    var a, u := t.snapshots[id], Publish(t, w);
    assert FindByHash(t, w.hash).Some? ==> Holds(t, row, w.hash);
    assert FindByHash(t, w.hash).None? ==> !Holds(t, id, w.hash);
    assert a.hash != w.hash;
    assert !Attests(Stamp(w), a);
  }

  // ---------------------------------------------------------------- one publish

  /** Whichever other row will be the newest is discarded, or complete and left alone by the write. */
  ghost predicate Harmless(t: Tables, w: Write, row: Id, primary: Id) {
    forall id :: StaysNewest(t, w, row, primary, id) ==>
      !Live(t.snapshots[id]) || (Complete(t, t.snapshots[id]) && !RestsOn(t.snapshots[id], w))
  }

  /** After a publish, under any clock, the newest row is complete or discarded if and only if the publish was
      harmless. */
  lemma PublishServableIff(t: Tables, w: Write, row: Id, primary: Id)
    requires UniqueHash(t) && Decide(t, w) == Effective(row)
    ensures NewestServable(Publish(t, w), primary) <==> Harmless(t, w, row, primary)
  {
    var u := Publish(t, w);
    EffectivePublishIsComplete(t, w);
    forall id | id != row
      ensures IsNewest(u, primary, id) <==> StaysNewest(t, w, row, primary, id)
      ensures id in t.snapshots ==> id in u.snapshots && u.snapshots[id] == t.snapshots[id]
      ensures id in t.snapshots ==>
                (Complete(u, t.snapshots[id]) <==> Complete(t, t.snapshots[id]) && !RestsOn(t.snapshots[id], w))
    {
      StaysNewestIff(t, w, row, primary, id);
      if id in t.snapshots {
        NumbersStay(t, w, row, id);
        CompleteAfterIff(t, w, row, id);
      }
    }
  }

  /** Regenerating a discarded newest row with the same content and clock rebinds that very row and serves it. */
  lemma HealedRowIsServed(t: Tables, w: Write, stale: Id)
    requires UniqueHash(t) && IsNewest(t, w.primary, stale) && !Live(t.snapshots[stale])
    requires t.snapshots[stale].hash == w.hash && t.snapshots[stale].appliedAt == w.appliedAt
    requires t.snapshots[stale].revision == Some(w.revision) && ValidWrite(w) && CanStamp(t, w)
    ensures Decide(t, w) == Effective(stale) && IsNewest(Publish(t, w), w.primary, stale)
    ensures Complete(Publish(t, w), Publish(t, w).snapshots[stale])
  {
    assert Holds(t, stale, w.hash);
    assert FindByHash(t, w.hash) == Some(stale);
    var u := Publish(t, w);
    forall o | o in u.snapshots && u.snapshots[o].primary == w.primary && o != stale
      ensures Newer(u, stale, o)
    {
      assert o in t.snapshots && Newer(t, stale, o);
      NumbersStay(t, w, stale, o);
    }
  }

  // ---------------------------------------------------------------- whole runs

  ghost predicate ServableThroughout(t: Tables, steps: seq<Step>, primary: Id)
    decreases |steps|
  {
    NewestServable(t, primary) && (steps != [] ==> ServableThroughout(Next(t, steps[0]), steps[1..], primary))
  }

  ghost predicate HarmlessStep(t: Tables, s: Step, primary: Id) {
    s.PublishStep? && Decide(t, s.w).Effective? ==> Harmless(t, s.w, Decide(t, s.w).row, primary)
  }

  ghost predicate HarmlessThroughout(t: Tables, steps: seq<Step>, primary: Id)
    decreases |steps|
  {
    steps != [] ==> HarmlessStep(t, steps[0], primary) && HarmlessThroughout(Next(t, steps[0]), steps[1..], primary)
  }

  lemma StepServableIff(t: Tables, s: Step, primary: Id)
    requires Sound(t) && NewestServable(t, primary)
    ensures NewestServable(Next(t, s), primary) <==> HarmlessStep(t, s, primary)
  {
    if s.PublishStep? && Decide(t, s.w).Effective? {
      PublishServableIff(t, s.w, Decide(t, s.w).row, primary);
    } else {
      OtherStepsKeepServable(t, s, primary);
    }
  }

  /** Over every run of publishes, discards and apply work, with any clocks and any primaries: the newest row is
      complete or discarded in every state if and only if it is at the start and every publish is harmless. */
  lemma {:induction false} RunServableIff(t: Tables, steps: seq<Step>, primary: Id)
    requires Sound(t)
    ensures ServableThroughout(t, steps, primary) <==>
            NewestServable(t, primary) && HarmlessThroughout(t, steps, primary)
    decreases |steps|
  {
    if steps != [] {
      NextKeepsSound(t, steps[0]);
      RunServableIff(Next(t, steps[0]), steps[1..], primary);
      if NewestServable(t, primary) {
        StepServableIff(t, steps[0], primary);
      }
    }
  }

  lemma {:induction false} ServableAtTheEnd(t: Tables, steps: seq<Step>, primary: Id)
    requires ServableThroughout(t, steps, primary)
    ensures NewestServable(Run(t, steps), primary)
    decreases |steps|
  {
    if steps != [] {
      ServableAtTheEnd(Next(t, steps[0]), steps[1..], primary);
    }
  }

  lemma LaterPublishIsHarmless(t: Tables, w: Write, c: Clock)
    requires NoLaterThan(t, c) && w.appliedAt > c && Decide(t, w).Effective?
    ensures Harmless(t, w, Decide(t, w).row, w.primary)
  {
    assert forall id :: id in t.snapshots ==> t.snapshots[id].appliedAt < w.appliedAt;
  }

  lemma {:induction false} RisingIsHarmless(t: Tables, steps: seq<Step>, primary: Id, c: Clock)
    requires Sound(t) && NoLaterThan(t, c) && Rising(steps, primary, c)
    ensures HarmlessThroughout(t, steps, primary)
    decreases |steps|
  {
    if steps != [] {
      NextKeepsSound(t, steps[0]);
      if steps[0].PublishStep? && Decide(t, steps[0].w).Effective? {
        LaterPublishIsHarmless(t, steps[0].w, c);
        PublishTakesTheTop(t, steps[0].w, c);
        RisingIsHarmless(Next(t, steps[0]), steps[1..], primary, steps[0].w.appliedAt);
      } else {
        OtherStepsKeepOrder(t, steps[0]);
        assert forall id :: id in Next(t, steps[0]).snapshots ==> id in t.snapshots.Keys;
        RisingIsHarmless(Next(t, steps[0]), steps[1..], primary, if steps[0].PublishStep? then steps[0].w.appliedAt
                         else c);
      }
    }
  }

  /** In particular when every publish carries the primary and a later clock than all before it. */
  lemma RunKeepsServable(t: Tables, steps: seq<Step>, primary: Id, c: Clock)
    requires Sound(t) && NewestServable(t, primary) && NoLaterThan(t, c) && Rising(steps, primary, c)
    ensures ServableThroughout(t, steps, primary) && NewestServable(Run(t, steps), primary)
  {
    RisingIsHarmless(t, steps, primary, c);
    RunServableIff(t, steps, primary);
    ServableAtTheEnd(t, steps, primary);
  }
}
