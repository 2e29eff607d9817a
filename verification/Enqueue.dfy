/**
 * Queueing an apply of the current configuration. The configuration's stable text names its revision: equal
 * configurations share one, different ones never do.
 */
module Enqueue {
  import opened Options
  import opened JsonReader
  import opened StableJson
  import opened NodeTables
  import opened NodeImport
  import opened Jobs

  datatype State = State(revisions: map<Id, Revision>, jobs: seq<Job>, desired: Option<Id>)

  /** The text encoding of the store and its checksum. */
  datatype Codec = Codec(bytes: string -> Bytes, hash: Bytes -> Hash)

  ghost predicate Injective(c: Codec) {
    && (forall a, b :: c.bytes(a) == c.bytes(b) ==> a == b)
    && (forall a, b :: c.hash(a) == c.hash(b) ==> a == b)
  }

  datatype Ids = Ids(revision: Id, job: Id)

  // ---------------------------------------------------------------- one enqueue

  ghost function Checksum(snapshot: Json, c: Codec): Hash {
    c.hash(c.bytes(Text(snapshot)))
  }

  ghost function WithJob(s: State, r: Id, job: Id): State {
    s.(jobs := s.jobs + [Job(job, r, Status.Queued, false)], desired := Some(r))
  }

  /** Finds the revision by checksum or inserts the next one, points the desired configuration at it and queues a
      job; refused without a default pool. */
  ghost function Requested(s: State, snapshot: Json, hasPool: bool, c: Codec, ids: Ids): (State, Outcome<Id>) {
    if !hasPool || HasJob(s.jobs, ids.job) then (s, Refused)
    else match FindChecksum(s.revisions, Checksum(snapshot, c))
      case Some(r) => (WithJob(s, r, ids.job), Ok(r))
      case None =>
        if ids.revision in s.revisions then (s, Refused)
        else
          var row := Revision(Top(s.revisions) + 1, Checksum(snapshot, c), false, c.bytes(Text(snapshot)), false);
          (WithJob(s.(revisions := s.revisions[ids.revision := row]), ids.revision, ids.job), Ok(ids.revision))
  }

  class ApplyQueue {
    var revisions: map<Id, Revision>
    var jobs: seq<Job>
    var desired: Option<Id>

    ghost function View(): State
      reads this
    {
      State(revisions, jobs, desired)
    }

    constructor ()
      ensures View() == State(map[], [], None)
    {
      revisions, jobs, desired := map[], [], None;
    }

    method CreateApplyJob(snapshot: Json, hasPool: bool, c: Codec, ids: Ids) returns (r: Outcome<Id>)
      requires UniqueChecksums(revisions)
      modifies this
      ensures (View(), r) == Requested(old(View()), snapshot, hasPool, c, ids)
    {
      if !hasPool || HasJob(jobs, ids.job) {
        return Refused;
      }
      var text := WriteStable([], snapshot);
      assert text == Text(snapshot);
      var checksum, revision := c.hash(c.bytes(text)), ids.revision;
      if id :| id in revisions && revisions[id].checksum == checksum {
        FindsTheOne(revisions, id, checksum);
        revision := id;
      } else {
        FindsNone(revisions, checksum);
        if ids.revision in revisions {
          return Refused;
        }
        var top := MaxNumber(revisions);
        revisions := revisions[revision := Revision(top + 1, checksum, false, c.bytes(text), false)];
      }
      desired := Some(revision);
      jobs := jobs + [Job(ids.job, revision, Status.Queued, false)];
      return Ok(revision);
    }
  }

  // ---------------------------------------------------------------- what every run keeps

  /** Numbers and checksums are unique, and every checksum is that of the row's own text. */
  ghost predicate Sound(revisions: map<Id, Revision>, c: Codec) {
    && UniqueChecksums(revisions) && UniqueNumbers(revisions)
    && forall r :: r in revisions ==> revisions[r].checksum == c.hash(revisions[r].snapshot)
  }

  /** A run of enqueues. */
  datatype Step = Step(snapshot: Json, hasPool: bool, ids: Ids)

  ghost function Run(s: State, steps: seq<Step>, c: Codec): State
    decreases |steps|
  {
    if steps == [] then s else Run(Requested(s, steps[0].snapshot, steps[0].hasPool, c, steps[0].ids).0, steps[1..], c)
  }

  lemma EnqueueKeepsSound(s: State, snapshot: Json, hasPool: bool, c: Codec, ids: Ids)
    requires Sound(s.revisions, c)
    ensures Sound(Requested(s, snapshot, hasPool, c, ids).0.revisions, c)
    ensures var t := Requested(s, snapshot, hasPool, c, ids).0;
            forall r :: r in s.revisions ==> r in t.revisions && t.revisions[r] == s.revisions[r]
  {
    var found := FindChecksum(s.revisions, Checksum(snapshot, c));
    if found.None? && ids.revision !in s.revisions {
      var row := Revision(Top(s.revisions) + 1, Checksum(snapshot, c), false, c.bytes(Text(snapshot)), false);
      RaisedToTop(s.revisions, ids.revision, row);
      ChecksumStaysUnique(s.revisions, ids.revision, row);
    }
  }

  lemma {:induction false} RunKeepsRevisions(s: State, steps: seq<Step>, c: Codec)
    requires Sound(s.revisions, c)
    ensures Sound(Run(s, steps, c).revisions, c)
    ensures forall r :: r in s.revisions ==>
            r in Run(s, steps, c).revisions && Run(s, steps, c).revisions[r] == s.revisions[r]
    decreases |steps|
  {
    if steps != [] {
      EnqueueKeepsSound(s, steps[0].snapshot, steps[0].hasPool, c, steps[0].ids);
      RunKeepsRevisions(Requested(s, steps[0].snapshot, steps[0].hasPool, c, steps[0].ids).0, steps[1..], c);
    }
  }

  /** An enqueue goes through exactly with a default pool and a new job id, unless it needs a revision id that is
      taken; a new revision gets the largest number and is not applied, and a known one stays as it is. */
  lemma EnqueueSucceedsIff(s: State, snapshot: Json, hasPool: bool, c: Codec, ids: Ids)
    ensures var (t, r) := Requested(s, snapshot, hasPool, c, ids); var checksum := c.hash(c.bytes(Text(snapshot)));
            var known := exists k :: k in s.revisions && s.revisions[k].checksum == checksum;
            && (r.Ok? <==> hasPool && (forall j :: j in s.jobs ==> j.id != ids.job) &&
                           (known || ids.revision !in s.revisions))
            && (r.Refused? ==> t == s)
            && (r.Ok? && known ==> t.revisions == s.revisions && r.result in s.revisions &&
                                   s.revisions[r.result].checksum == checksum)
            && (r.Ok? && !known ==>
                  && r.result == ids.revision && ids.revision in t.revisions
                  && t.revisions == s.revisions[ids.revision := t.revisions[ids.revision]]
                  && !t.revisions[ids.revision].imported && !t.revisions[ids.revision].applied
                  && forall k :: k in s.revisions ==> s.revisions[k].number < t.revisions[ids.revision].number)
  {
    var checksum := c.hash(c.bytes(Text(snapshot)));
    if FindChecksum(s.revisions, checksum).None? {
      assert forall k :: k in s.revisions ==> !HasChecksum(s.revisions, k, checksum);
    } else {
      assert HasChecksum(s.revisions, FindChecksum(s.revisions, checksum).value, checksum);
    }
  }

  /** The revision an enqueue answers with holds exactly the enqueued configuration. */
  lemma EnqueuedRevisionHoldsText(s: State, snapshot: Json, hasPool: bool, c: Codec, ids: Ids)
    requires Injective(c) && Sound(s.revisions, c) && Requested(s, snapshot, hasPool, c, ids).1.Ok?
    ensures var (t, r) := Requested(s, snapshot, hasPool, c, ids);
            && r.result in t.revisions && t.revisions[r.result].snapshot == c.bytes(Text(snapshot)) &&
               t.desired == Some(r.result)
            && t.jobs == s.jobs + [Job(ids.job, r.result, Status.Queued, false)]
  {
  }

  /** Two enqueues, whatever was enqueued between them, get the same revision if and only if their configurations
      are equal. */
  lemma SameRevisionIffSameConfiguration(s: State, first: Step, between: seq<Step>, second: Step, c: Codec)
    requires Injective(c) && Sound(s.revisions, c)
    requires Requested(s, first.snapshot, first.hasPool, c, first.ids).1.Ok?
    requires var t := Run(Requested(s, first.snapshot, first.hasPool, c, first.ids).0, between, c);
             Requested(t, second.snapshot, second.hasPool, c, second.ids).1.Ok?
    ensures var (s1, a) := Requested(s, first.snapshot, first.hasPool, c, first.ids);
            var (s2, b) := Requested(Run(s1, between, c), second.snapshot, second.hasPool, c, second.ids);
            a == b <==> first.snapshot == second.snapshot
  {
    var (s1, a) := Requested(s, first.snapshot, first.hasPool, c, first.ids);
    var t := Run(s1, between, c);
    var (s2, b) := Requested(t, second.snapshot, second.hasPool, c, second.ids);
    EnqueueKeepsSound(s, first.snapshot, first.hasPool, c, first.ids);
    EnqueuedRevisionHoldsText(s, first.snapshot, first.hasPool, c, first.ids);
    RunKeepsRevisions(s1, between, c);
    EnqueueKeepsSound(t, second.snapshot, second.hasPool, c, second.ids);
    EnqueuedRevisionHoldsText(t, second.snapshot, second.hasPool, c, second.ids);
    StableTextIdentifiesTree(first.snapshot, second.snapshot);
    if first.snapshot == second.snapshot {
      assert s2.revisions[a.result].checksum == s2.revisions[b.result].checksum;
    }
  }
}
