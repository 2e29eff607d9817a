/**
 * `ApplyOrchestrator.apply`: validate every candidate, promote every candidate, reload and probe every
 * service, and roll back what was promoted when anything fails. Every reply and every store call may fail;
 * a log keeps what was asked and answered.
 */
module ApplySaga {
  import opened Options
  import opened ControlPlane
  import opened Jobs

  predicate LegalPath(path: seq<Status>) {
    forall i :: 0 < i < |path| ==> Allowed(path[i - 1], path[i])
  }

  datatype Outcome = Returned(status: Status) | Threw

  // ---------------------------------------------------------------- the log

  datatype Operation = Write | Stage | Validate | Promotion | Reload | Health | Undo
  // Drifted: a healthy service that runs another configuration. Lost: no reply, or a file that was not written.
  datatype Reply = Fine | Denied | Drifted | Lost
  datatype Event = Asked(op: Operation, candidate: Candidate, reply: Reply)
                 | Stored(status: Status, ok: bool)
                 | Marked(ok: bool)

  predicate Well(e: Event) {
    match e
    case Asked(_, _, reply) => reply == Fine
    case Stored(_, ok) => ok
    case Marked(ok) => ok
  }

  /** Some event from the `from`th on did not go well. */
  ghost predicate Trouble(log: seq<Event>, from: nat) {
    exists i :: from <= i < |log| && !Well(log[i])
  }

  /** Every candidate was written, staged and validated, in order. */
  function AllValidated(cs: seq<Candidate>): seq<Event> {
    if cs == [] then []
    else
      var c := cs[|cs| - 1];
      AllValidated(cs[..|cs| - 1]) + [Asked(Write, c, Fine), Asked(Stage, c, Fine), Asked(Validate, c, Fine)]
  }

  function AllPromoted(cs: seq<Candidate>): seq<Event> {
    if cs == [] then [] else AllPromoted(cs[..|cs| - 1]) + [Asked(Promotion, cs[|cs| - 1], Fine)]
  }

  /** Every service was reloaded and then found healthy with the promoted configuration. */
  function AllProbed(cs: seq<Candidate>): seq<Event> {
    if cs == [] then []
    else
      var c := cs[|cs| - 1];
      AllProbed(cs[..|cs| - 1]) + [Asked(Reload, c, Fine), Asked(Health, c, Fine)]
  }

  /** Every candidate was rolled back, the last one first. */
  function AllUndone(cs: seq<Candidate>): seq<Event> {
    if cs == [] then [] else [Asked(Undo, cs[|cs| - 1], Fine)] + AllUndone(cs[..|cs| - 1])
  }

  /** The log up to the first promotion. */
  function Ready(status: Status, cs: seq<Candidate>): seq<Event> {
    (if status == Queued then [Stored(Validating, true)] else []) + AllValidated(cs) + [Stored(Applying, true)]
  }

  /** A rollback from the `from`th event on was not answered well, or its status could not be stored. */
  ghost predicate UndoFailed(log: seq<Event>, from: nat) {
    exists i :: from <= i < |log| && !Well(log[i]) &&
                ((log[i].Asked? && log[i].op == Undo) || (log[i].Stored? && log[i].status == RolledBack))
  }

  /** Two status writes from the `from`th event on failed. */
  ghost predicate StoredTwiceInVain(log: seq<Event>, from: nat) {
    exists i, k :: from <= i < k < |log| && log[i].Stored? && !log[i].ok && log[k].Stored? && !log[k].ok
  }

  /** The promotion of the first candidate came right behind `before` and succeeded. */
  predicate Began(log: seq<Event>, before: seq<Event>, cs: seq<Candidate>) {
    cs != [] && before + [Asked(Promotion, cs[0], Fine)] <= log
  }

  /** Nothing from the `from`th event on is a promotion or a rollback, unless `ready` came before it. */
  ghost predicate ReadyFirst(log: seq<Event>, from: nat, ready: seq<Event>) {
    forall i :: from <= i < |log| && log[i].Asked? && log[i].op in {Promotion, Undo} ==> ready <= log[..i]
  }

  ghost predicate Unready(log: seq<Event>, from: nat) {
    forall i :: from <= i < |log| && log[i].Asked? ==> log[i].op !in {Promotion, Undo}
  }

  lemma ReadyStaysFirst(log: seq<Event>, from: nat, ready: seq<Event>)
    requires from <= |ready| && ready <= log && Unready(ready, from)
    ensures ReadyFirst(log, from, ready)
  {
    assert forall i :: from <= i < |ready| ==> log[i] == ready[i];
  }

  lemma UnreadyFrom(before: seq<Event>, log: seq<Event>, from: nat)
    requires from <= |before| && before <= log && Unready(before, from) && Unready(log, |before|)
    ensures Unready(log, from)
  {
    assert forall i :: from <= i < |before| ==> log[i] == before[i];
  }

  /** Behind `from` the log ends with the rollback of `promoted` and the status that follows it. */
  ghost predicate EndsUndone(log: seq<Event>, from: seq<Event>, promoted: seq<Candidate>) {
    && promoted != []
    && exists middle :: from <= middle && log == middle + AllUndone(promoted) + [Stored(RolledBack, true)]
  }

  /** The first `k` candidates were promoted behind `before`, no more of them were, and the log ends with the
      rollback of these `k`. */
  ghost predicate UndoneAtTheEnd(log: seq<Event>, before: seq<Event>, cs: seq<Candidate>, k: nat) {
    && k <= |cs| && EndsUndone(log, before + AllPromoted(cs[..k]), cs[..k])
    && (k < |cs| ==> !(before + AllPromoted(cs[..k]) + [Asked(Promotion, cs[k], Fine)] <= log))
  }

  predicate DistinctServices(cs: seq<Candidate>) {
    forall i, k :: 0 <= i < k < |cs| ==> cs[i].Service() != cs[k].Service()
  }

  predicate Has(cs: seq<Candidate>, s: Service) {
    exists i :: 0 <= i < |cs| && cs[i].Service() == s
  }

  /** Promoted services can be undone; the others still have the configuration the job started from. */
  ghost predicate Recoverable(p: Plane, orig: Plane, promoted: seq<Candidate>) {
    forall s: Service :: if Has(promoted, s) then Undoable(p, orig, s) else SameConfiguration(p, orig, s)
  }

  ghost predicate Untouched(p: Plane, orig: Plane) {
    forall s: Service :: SameConfiguration(p, orig, s)
  }

  ghost predicate AllLive(p: Plane, cs: seq<Candidate>) {
    forall i :: 0 <= i < |cs| ==> IsLive(p, cs[i])
  }

  /** Every candidate that no later candidate of its service replaces is live. */
  ghost predicate LatestLive(p: Plane, cs: seq<Candidate>) {
    forall i :: 0 <= i < |cs| && (forall k :: i < k < |cs| ==> cs[k].Service() != cs[i].Service()) ==> IsLive(p, cs[i])
  }

  /** Whatever failed silently, a promotion that reports success makes its candidate live and replaces no other
      service's. */
  lemma PromoteKeepsLive(p: Plane, promoted: seq<Candidate>, c: Candidate, plan: Plan)
    requires PlanFor(c, plan) && LatestLive(p, promoted) && Promote(p, c, plan).1
    ensures LatestLive(Promote(p, c, plan).0, promoted + [c])
  {
    var q, all := Promote(p, c, plan).0, promoted + [c];
    assert all[|promoted|] == c && IsLive(q, c);
    forall i | 0 <= i < |promoted| && forall k :: i < k < |all| ==> all[k].Service() != all[i].Service()
      ensures IsLive(q, all[i])
    {
      assert all[i] == promoted[i];
      assert all[|promoted|].Service() != all[i].Service();
      assert forall k :: i < k < |promoted| ==> promoted[k] == all[k];
      OthersUntouchedByPromote(p, p, c, plan, promoted[i].Service());
    }
  }

  lemma DistinctAreAllLive(p: Plane, cs: seq<Candidate>)
    requires DistinctServices(cs) && LatestLive(p, cs)
    ensures AllLive(p, cs)
  {
  }

  lemma PromoteKeepsRecoverable(p: Plane, orig: Plane, promoted: seq<Candidate>, c: Candidate, plan: Plan)
    requires PlanFor(c, plan) && Clean(p, plan) && Recoverable(p, orig, promoted) && DistinctServices(promoted + [c])
    ensures var (q, ok) := Promote(p, c, plan); Recoverable(q, orig, if ok then promoted + [c] else promoted)
  {
    var (q, ok) := Promote(p, c, plan);
    PromoteIsAllOrNothing(p, c, plan);
    var all := promoted + [c];
    assert forall i :: 0 <= i < |promoted| ==> promoted[i] == all[i];
    assert forall i :: 0 <= i < |promoted| ==> all[i].Service() != all[|promoted|].Service();
    assert !Has(promoted, c.Service());
    assert all[|promoted|] == c && Has(all, c.Service());
    forall s: Service | s != c.Service()
      ensures Has(all, s) <==> Has(promoted, s)
      ensures SameConfiguration(q, p, s) && (Undoable(p, orig, s) ==> Undoable(q, orig, s))
    {
      OthersUntouchedByPromote(p, orig, c, plan, s);
      if Has(promoted, s) {
        var i :| 0 <= i < |promoted| && promoted[i].Service() == s;
        assert all[i].Service() == s;
      }
    }
  }

  /** What was tried begins with the promotion of exactly the first `k`. */
  ghost predicate PromotedFirst(tried: seq<Event>, before: seq<Event>, cs: seq<Candidate>, k: nat) {
    && k <= |cs| && before + AllPromoted(cs[..k]) <= tried
    && (k < |cs| ==> !(before + AllPromoted(cs[..k]) + [Asked(Promotion, cs[k], Fine)] <= tried) &&
                     |before + AllPromoted(cs[..k])| < |tried|)
  }

  lemma TroubleStays(tried: seq<Event>, log: seq<Event>, from: nat)
    requires tried <= log && Trouble(tried, from)
    ensures Trouble(log, from)
  {
    var i :| from <= i < |tried| && !Well(tried[i]);
    assert !Well(log[i]);
  }

  lemma TroubleFrom(log: seq<Event>, from: nat, later: nat)
    requires from <= later && Trouble(log, later)
    ensures Trouble(log, from)
  {
    var i :| later <= i < |log| && !Well(log[i]);
  }

  lemma LastIsTrouble(log: seq<Event>, e: Event, from: nat)
    requires from <= |log| && !Well(e)
    ensures Trouble(log + [e], from)
  {
    assert (log + [e])[|log|] == e;
  }

  /** One more promotion of the loop. */
  lemma OneMorePromoted(before: seq<Event>, cs: seq<Candidate>, k: nat, reply: Reply)
    requires k < |cs|
    ensures reply == Fine ==>
              before + AllPromoted(cs[..k]) + [Asked(Promotion, cs[k], reply)] == before + AllPromoted(cs[..k + 1])
    ensures reply != Fine ==>
              PromotedFirst(before + AllPromoted(cs[..k]) + [Asked(Promotion, cs[k], reply)], before, cs, k)
  {
    assert cs[..k + 1][..k] == cs[..k];
    var start := before + AllPromoted(cs[..k]);
    assert (start + [Asked(Promotion, cs[k], reply)])[|start|] == Asked(Promotion, cs[k], reply);
    assert (start + [Asked(Promotion, cs[k], Fine)])[|start|] == Asked(Promotion, cs[k], Fine);
  }

  lemma PromoteKeepsTracked(p: Plane, orig: Plane, cs: seq<Candidate>, k: nat, plan: Plan)
    requires k < |cs| && DistinctServices(cs) && PlanFor(cs[k], plan) && Clean(p, plan) &&
             Recoverable(p, orig, cs[..k])
    ensures var (q, ok) := Promote(p, cs[k], plan); Recoverable(q, orig, if ok then cs[..k + 1] else cs[..k])
  {
    assert cs[..k] + [cs[k]] == cs[..k + 1];
    PromoteKeepsRecoverable(p, orig, cs[..k], cs[k], plan);
  }

  lemma UndoFailedStays(tried: seq<Event>, log: seq<Event>, from: nat, earlier: nat)
    requires tried <= log && earlier <= from && UndoFailed(tried, from)
    ensures UndoFailed(log, earlier)
  {
    var i :| from <= i < |tried| && !Well(tried[i]) &&
             ((tried[i].Asked? && tried[i].op == Undo) || (tried[i].Stored? && tried[i].status == RolledBack));
    assert log[i] == tried[i];
  }

  lemma NotBegun(tried: seq<Event>, log: seq<Event>, before: seq<Event>, cs: seq<Candidate>)
    requires PromotedFirst(tried, before, cs, 0) && tried <= log && cs != []
    ensures !Began(log, before, cs)
  {
    assert before + AllPromoted(cs[..0]) == before;
    assert log[..|before| + 1] == tried[..|before| + 1];
  }

  lemma UnreadyIsNotBegun(log: seq<Event>, from: nat, before: seq<Event>, cs: seq<Candidate>)
    requires Unready(log, from) && from <= |before|
    ensures !Began(log, before, cs)
  {
    if cs != [] && |before| < |log| {
      assert log[|before|] != (before + [Asked(Promotion, cs[0], Fine)])[|before|];
    }
  }

  lemma UndoneIsAtTheEnd(tried: seq<Event>, log: seq<Event>, before: seq<Event>, cs: seq<Candidate>, k: nat)
    requires PromotedFirst(tried, before, cs, k) && EndsUndone(log, tried, cs[..k])
    ensures UndoneAtTheEnd(log, before, cs, k)
  {
    var start := before + AllPromoted(cs[..k]);
    var middle :| tried <= middle && log == middle + AllUndone(cs[..k]) + [Stored(RolledBack, true)];
    assert start <= middle && tried <= log;
    if k < |cs| {
      assert tried[|start|] == log[|start|];
      assert tried[..|start|] == start && tried[..|start| + 1] == start + [tried[|start|]];
    }
  }

  /** What the log says of a deployment, from what it says of the steps behind the first `k` promotions. */
  lemma DeployEnds(tried: seq<Event>, log: seq<Event>, before: seq<Event>, cs: seq<Candidate>, k: nat,
                   outcome: Outcome)
    requires PromotedFirst(tried, before, cs, k) && tried <= log && before <= tried
    requires outcome == Returned(RolledBack) ==> EndsUndone(log, tried, cs[..k])
    requires outcome == Returned(Failed) && k > 0 ==> UndoFailed(log, |tried|)
    ensures outcome == Returned(RolledBack) ==> UndoneAtTheEnd(log, before, cs, k)
    ensures outcome == Returned(Failed) && Began(log, before, cs) ==> UndoFailed(log, |before|)
  {
    if outcome == Returned(RolledBack) {
      UndoneIsAtTheEnd(tried, log, before, cs, k);
    } else if outcome == Returned(Failed) && cs != [] {
      if k == 0 {
        NotBegun(tried, log, before, cs);
      } else {
        UndoFailedStays(log, log, |tried|, |before|);
      }
    }
  }

  lemma UndoneLast(log: seq<Event>, promoted: seq<Candidate>, i: nat)
    requires i < |promoted|
    ensures log + AllUndone(promoted[..i + 1]) == log + [Asked(Undo, promoted[i], Fine)] + AllUndone(promoted[..i])
  {
    assert promoted[..i + 1][..i] == promoted[..i];
  }

  /** One job, one revision mark and the control plane, with a record of what the caller cannot see. */
  class Orchestrator {
    var plane: Plane
    var status: Status                 // the stored job status
    var marked: bool                   // the revision's applied_at
    ghost var path: seq<Status>        // every status the job was given, oldest first
    ghost var log: seq<Event>          // everything that was asked of a service or a store, oldest first
    ghost var clean: bool              // no silent failure so far
    ghost var refused: bool            // some rollback reply was a failure
    ghost var markedPlane: Plane       // the control plane when the revision was marked
    ghost var stalled: bool            // the revision was marked and the job's applied status could not be stored

    ghost predicate Valid()
      reads this
    {
      |path| > 0 && path[|path| - 1] == status && LegalPath(path)
    }

    /** What a rolled-back or failed outcome says about the configuration, against the one before the job. */
    ghost predicate Kept(outcome: Outcome, orig: Plane)
      reads this
    {
      && (outcome == Returned(RolledBack) ==> Untouched(plane, orig))
      && (outcome == Returned(Failed) ==> Untouched(plane, orig) || refused)
    }

    constructor (plane: Plane, status: Status)
      ensures Valid() && this.plane == plane && this.status == status && clean && !refused && !marked && !stalled
      ensures path == [status] && log == []
    {
      this.plane, this.status, marked, markedPlane := plane, status, false, plane;
      path, log, clean, refused, stalled := [status], [], true, false, false;
    }

    /** `setStatus`: an impossible transition throws, and so may the store. */
    method SetStatus(current: Status, next: Status) returns (ok: bool)
      requires Valid() && current == status
      modifies this`status, this`path, this`log
      ensures Valid() && log == old(log) + [Stored(next, ok)]
      ensures ok ==> status == next && path == old(path) + [next]
      ensures ok ==> (current, next) in {(Queued, Validating), (Validating, Applying), (Validating, Failed),
                                         (Applying, Applied), (Applying, Failed), (Applying, RolledBack),
                                         (Failed, Queued), (RolledBack, Queued)}
      ensures !ok ==> status == old(status) && path == old(path)
    {
      var stored: bool := *;
      ok := stored && Allowed(current, next);
      log := log + [Stored(next, ok)];
      if ok {
        status := next;
        path := path + [next];
      }
    }

    /** A request that changes no configuration; only a health reply can report a drift. */
    method Request(op: Operation, c: Candidate) returns (reply: Reply)
      modifies this`log
      ensures log == old(log) + [Asked(op, c, reply)] && (reply == Drifted ==> op == Health)
    {
      reply := *;
      if reply == Drifted && op != Health {
        reply := Denied;
      }
      log := log + [Asked(op, c, reply)];
    }

    method PromoteOne(c: Candidate) returns (ok: bool, ghost plan: Plan)
      modifies this`plane, this`clean, this`log
      ensures PlanFor(c, plan)
      ensures (plane, ok) == Promote(old(plane), c, plan)
      ensures clean == (old(clean) && Clean(old(plane), plan))
      ensures exists reply :: log == old(log) + [Asked(Promotion, c, reply)] && (ok <==> reply == Fine)
    {
      var core: CorePlan := *;
      var nginx: NginxPlan := *;
      var chosen := if c.CoreDnsCandidate? then CoreWith(core) else NginxWith(nginx);
      plan := chosen;
      clean := clean && Clean(plane, chosen);
      var r := Promote(plane, c, chosen);
      plane, ok := r.0, r.1;
      log := log + [Asked(Promotion, c, if ok then Fine else Denied)];
    }

    method RollbackOne(c: Candidate) returns (ok: bool, ghost plan: RollbackPlan)
      modifies this`plane, this`refused, this`log
      ensures (plane, ok) == Rollback(old(plane), c.Service(), plan)
      ensures refused == (old(refused) || !ok)
      ensures exists reply :: log == old(log) + [Asked(Undo, c, reply)] && (ok <==> reply == Fine)
    {
      var chosen: RollbackPlan := *;
      plan := chosen;
      var r := Rollback(plane, c.Service(), chosen);
      plane, ok := r.0, r.1;
      refused := refused || !ok;
      log := log + [Asked(Undo, c, if ok then Fine else Denied)];
    }

    /** Rolls back in reverse order, going on after a failed reply. */
    method RollbackAll(promoted: seq<Candidate>, ghost orig: Plane) returns (succeeded: bool)
      modifies this`plane, this`refused, this`log
      ensures !succeeded ==> refused && UndoFailed(log, |old(log)|)
      ensures succeeded ==> refused == old(refused)
      ensures old(log) <= log && (succeeded ==> log == old(log) + AllUndone(promoted))
      ensures Recoverable(old(plane), orig, promoted) ==> Recoverable(plane, orig, promoted)
      ensures succeeded && Recoverable(old(plane), orig, promoted) ==> Untouched(plane, orig)
    {
      succeeded := true;
      ghost var recoverable := Recoverable(plane, orig, promoted);
      var i := |promoted|;
      assert promoted[..i] == promoted;
      while i > 0
        invariant 0 <= i <= |promoted|
        invariant succeeded ==> refused == old(refused)
        invariant !succeeded ==> refused && UndoFailed(log, |old(log)|)
        invariant old(log) <= log && (succeeded ==> log + AllUndone(promoted[..i]) == old(log) + AllUndone(promoted))
        invariant recoverable ==> Recoverable(plane, orig, promoted)
        invariant recoverable && succeeded ==>
          forall k :: i <= k < |promoted| ==> SameConfiguration(plane, orig, promoted[k].Service())
      {
        i := i - 1;
        ghost var before := plane;
        ghost var service := promoted[i].Service();
        assert Has(promoted, service);
        UndoneLast(log, promoted, i);
        ghost var asked := log;
        var ok, plan := RollbackOne(promoted[i]);
        if !ok {
          assert !Well(log[|asked|]);
        } else if !succeeded {
          UndoFailedStays(asked, log, |old(log)|, |old(log)|);
        }
        if recoverable {
          RollbackRestores(before, orig, service, plan);
          forall s: Service | s != service
            ensures SameConfiguration(plane, before, s) && (Undoable(before, orig, s) ==> Undoable(plane, orig, s))
          {
            OthersUntouchedByRollback(before, orig, service, plan, s);
          }
        }
        succeeded := ok && succeeded;
      }
    }

    /** The validation loop touches no live file. */
    method ValidateAll(candidates: seq<Candidate>) returns (ok: bool, threw: bool)
      modifies this`log
      ensures ok ==> !threw && log == old(log) + AllValidated(candidates)
      ensures old(log) <= log && (!ok ==> Trouble(log, |old(log)|))
      ensures forall i :: |old(log)| <= i < |log| ==> log[i].Asked? && log[i].op in {Write, Stage, Validate}
    {
      var i := 0;
      while i < |candidates|
        invariant 0 <= i <= |candidates| && log == old(log) + AllValidated(candidates[..i])
        invariant forall k :: |old(log)| <= k < |log| ==> log[k].Asked? && log[k].op in {Write, Stage, Validate}
      {
        ghost var before := log;
        assert candidates[..i + 1][..i] == candidates[..i];
        var written := Request(Write, candidates[i]);
        if written != Fine {
          assert !Well(log[|log| - 1]);
          return false, true;
        }
        var staged := Request(Stage, candidates[i]);
        if staged != Fine {
          assert !Well(log[|log| - 1]);
          return false, staged == Lost;
        }
        var validated := Request(Validate, candidates[i]);
        if validated != Fine {
          assert !Well(log[|log| - 1]);
          return false, validated == Lost;
        }
        assert log == before + [Asked(Write, candidates[i], Fine), Asked(Stage, candidates[i], Fine),
                                Asked(Validate, candidates[i], Fine)];
        i := i + 1;
      }
      assert candidates[..i] == candidates;
      return true, false;
    }

    method PromoteAll(candidates: seq<Candidate>, ghost orig: Plane) returns (promoted: seq<Candidate>)
      modifies this`plane, this`clean, this`log
      ensures promoted <= candidates && old(log) <= log
      ensures PromotedFirst(log, old(log), candidates, |promoted|)
      ensures if promoted == candidates then log == old(log) + AllPromoted(candidates) else Trouble(log, |old(log)|)
      ensures clean ==> old(clean)
      ensures promoted == candidates ==> LatestLive(plane, candidates)
      ensures clean && Untouched(old(plane), orig) && DistinctServices(candidates) ==>
              Recoverable(plane, orig, promoted)
    {
      promoted := [];
      ghost var tracked := Untouched(plane, orig) && DistinctServices(candidates);
      var n := 0;
      while n < |candidates|
        invariant 0 <= n <= |candidates| && promoted == candidates[..n]
        invariant log == old(log) + AllPromoted(candidates[..n])
        invariant clean ==> old(clean)
        invariant LatestLive(plane, promoted)
        invariant clean && tracked ==> Recoverable(plane, orig, promoted)
      {
        ghost var before, asked := plane, log;
        var ok, plan := PromoteOne(candidates[n]);
        ghost var reply := log[|asked|].reply;
        OneMorePromoted(old(log), candidates, n, reply);
        if clean && tracked {
          PromoteKeepsTracked(before, orig, candidates, n, plan);
        }
        if !ok {
          LastIsTrouble(asked, Asked(Promotion, candidates[n], reply), |old(log)|);
          return;
        }
        PromoteKeepsLive(before, promoted, candidates[n], plan);
        promoted := promoted + [candidates[n]];
        n := n + 1;
      }
    }

    /** Reload and health of every service; `unhealthy` is the branch that rolls back inside the try block. */
    method ProbeAll(candidates: seq<Candidate>) returns (ok: bool, unhealthy: bool)
      modifies this`log
      ensures ok ==> !unhealthy && log == old(log) + AllProbed(candidates)
      ensures old(log) <= log && (!ok ==> candidates != [] && Trouble(log, |old(log)|))
      ensures !ok ==> |log| > |old(log)| && var last := log[|log| - 1];
                last.Asked? && (unhealthy <==> last.op == Health && last.reply != Lost)
    {
      var i := 0;
      while i < |candidates|
        invariant 0 <= i <= |candidates| && log == old(log) + AllProbed(candidates[..i])
      {
        ghost var before := log;
        assert candidates[..i + 1][..i] == candidates[..i];
        var reloaded := Request(Reload, candidates[i]);
        if reloaded != Fine {
          assert !Well(log[|log| - 1]);
          return false, false;
        }
        var health := Request(Health, candidates[i]);
        if health != Fine {
          assert !Well(log[|log| - 1]);
          return false, health != Lost;
        }
        assert log == before + [Asked(Reload, candidates[i], Fine), Asked(Health, candidates[i], Fine)];
        i := i + 1;
      }
      assert candidates[..i] == candidates;
      return true, false;
    }

    /** `markApplied`, and then the status. */
    method Settle() returns (ok: bool)
      requires Valid() && !stalled && status == Applying
      modifies this`status, this`path, this`log, this`marked, this`markedPlane, this`stalled
      ensures Valid() && old(path) <= path && old(log) <= log
      ensures if ok then status == Applied && log == old(log) + [Marked(true), Stored(Applied, true)]
              else Trouble(log, |old(log)|)
      ensures marked <==> old(marked) || ok || stalled
      ensures markedPlane == if ok || stalled then plane else old(markedPlane)
      ensures ok ==> !stalled
    {
      var recorded: bool := *;
      log := log + [Marked(recorded)];
      if !recorded {
        LastIsTrouble(old(log), Marked(false), |old(log)|);
        return false;
      }
      marked, markedPlane := true, plane;
      ghost var marking := log;
      ok := SetStatus(status, Applied);
      if !ok {
        LastIsTrouble(marking, Stored(Applied, false), |old(log)|);
        stalled := true;
      }
    }

    /** `fail`. */
    method Fail() returns (outcome: Outcome)
      requires Valid()
      modifies this`status, this`path, this`log
      ensures Valid() && old(path) <= path
      ensures outcome == Threw || (outcome == Returned(Failed) && status == Failed)
      ensures log == old(log) + [Stored(Failed, outcome.Returned?)]
    {
      var stored := SetStatus(status, Failed);
      return if stored then Returned(Failed) else Threw;
    }

    /** The catch block. */
    method Recover(promoted: seq<Candidate>, ghost orig: Plane) returns (outcome: Outcome)
      requires Valid()
      modifies this
      ensures Valid() && old(path) <= path && clean == old(clean)
      ensures marked == old(marked) && markedPlane == old(markedPlane) && stalled == old(stalled)
      ensures outcome.Returned? ==> outcome.status == status && (status == Failed || status == RolledBack)
      ensures old(refused) ==> refused
      ensures old(log) <= log
      ensures promoted == [] ==> plane == old(plane) && exists ok :: log == old(log) + [Stored(Failed, ok)]
      ensures outcome == Returned(RolledBack) ==> EndsUndone(log, old(log), promoted)
      ensures outcome == Returned(Failed) && promoted != [] ==> UndoFailed(log, |old(log)|)
      ensures outcome == Threw ==> |log| > |old(log)| && log[|log| - 1].Stored? && !log[|log| - 1].ok
      ensures outcome == Returned(RolledBack) && Recoverable(old(plane), orig, promoted) ==> Untouched(plane, orig)
      ensures outcome == Returned(Failed) && Recoverable(old(plane), orig, promoted) ==>
              Untouched(plane, orig) || refused
    {
      if |promoted| > 0 {
        var undone := RollbackAll(promoted, orig);
        if undone {
          var stored := SetStatus(status, RolledBack);
          return if stored then Returned(RolledBack) else Threw;
        }
      }
      assert |promoted| == 0 ==> forall s: Service :: !Has(promoted, s);
      ghost var undoing := log;
      outcome := Fail();
      if promoted != [] {
        UndoFailedStays(undoing, log, |old(log)|, |old(log)|);
      }
    }

    /** From the first promotion on; the job is `applying`. */
    method Deploy(candidates: seq<Candidate>) returns (outcome: Outcome)
      requires Valid() && !stalled && status == Applying
      modifies this
      ensures Valid() && old(path) <= path && (clean ==> old(clean)) && old(log) <= log
      ensures outcome.Returned? ==> Settled(outcome.status) && outcome.status == status
      ensures outcome == Returned(Applied) ==> marked && LatestLive(plane, candidates)
      ensures outcome == Returned(Applied) ==>
                log == old(log) + AllPromoted(candidates) + AllProbed(candidates) +
                       [Marked(true), Stored(Applied, true)]
      ensures outcome != Returned(Applied) ==> Trouble(log, |old(log)|)
      ensures outcome == Returned(RolledBack) ==> exists k :: UndoneAtTheEnd(log, old(log), candidates, k)
      ensures outcome == Returned(Failed) && Began(log, old(log), candidates) ==> UndoFailed(log, |old(log)|)
      ensures marked <==> old(marked) || outcome == Returned(Applied) || stalled
      ensures marked && !old(marked) ==> LatestLive(markedPlane, candidates)
      ensures stalled ==> outcome != Returned(Applied)
      ensures clean && DistinctServices(candidates) ==> Kept(outcome, old(plane))
    {
      ghost var orig := plane;
      var promoted := PromoteAll(candidates, orig);
      ghost var tried := log;
      assert candidates[..|promoted|] == promoted;
      if |promoted| < |candidates| {
        outcome := Recover(promoted, orig);
        TroubleStays(tried, log, |old(log)|);
      } else {
        outcome := Conclude(candidates, orig);
        if outcome != Returned(Applied) {
          TroubleFrom(log, |old(log)|, |tried|);
        }
      }
      DeployEnds(tried, log, old(log), candidates, |promoted|, outcome);
    }

    /** Everything is promoted: probe, mark and settle, or roll back. */
    method Conclude(candidates: seq<Candidate>, ghost orig: Plane) returns (outcome: Outcome)
      requires Valid() && !stalled && status == Applying && LatestLive(plane, candidates)
      modifies this
      ensures Valid() && old(path) <= path && clean == old(clean) && old(log) <= log
      ensures outcome.Returned? ==> Settled(outcome.status) && outcome.status == status
      ensures outcome == Returned(Applied) ==> marked && plane == old(plane)
      ensures outcome == Returned(Applied) ==>
                log == old(log) + AllProbed(candidates) + [Marked(true), Stored(Applied, true)]
      ensures outcome != Returned(Applied) ==> Trouble(log, |old(log)|)
      ensures outcome == Returned(RolledBack) ==> EndsUndone(log, old(log), candidates)
      ensures outcome == Returned(Failed) && candidates != [] ==> UndoFailed(log, |old(log)|)
      ensures marked <==> old(marked) || outcome == Returned(Applied) || stalled
      ensures marked && !old(marked) ==> LatestLive(markedPlane, candidates)
      ensures stalled ==> outcome != Returned(Applied)
      ensures Recoverable(old(plane), orig, candidates) ==> Kept(outcome, orig)
    {
      var probed, unhealthy := ProbeAll(candidates);
      ghost var tried := log;
      if !probed {
        outcome := GiveUp(candidates, unhealthy, orig);
        TroubleStays(tried, log, |old(log)|);
        if outcome == Returned(Failed) {
          UndoFailedStays(log, log, |tried|, |old(log)|);
        }
        return;
      }
      var settled := Settle();
      if settled {
        return Returned(Applied);
      }
      ghost var broken := log;
      TroubleFrom(broken, |old(log)|, |tried|);
      outcome := Recover(candidates, orig);
      TroubleStays(broken, log, |old(log)|);
      if outcome == Returned(Failed) && candidates != [] {
        UndoFailedStays(log, log, |broken|, |old(log)|);
      }
    }

    /** A reload or a probe did not go well; an unhealthy reply is rolled back before the catch block is. */
    method GiveUp(candidates: seq<Candidate>, unhealthy: bool, ghost orig: Plane) returns (outcome: Outcome)
      requires Valid() && candidates != []
      modifies this
      ensures Valid() && old(path) <= path && clean == old(clean) && old(log) <= log
      ensures outcome.Returned? ==> Settled(outcome.status) && outcome.status == status && status != Applied
      ensures marked == old(marked) && markedPlane == old(markedPlane) && stalled == old(stalled)
      ensures outcome == Returned(RolledBack) ==> EndsUndone(log, old(log), candidates)
      ensures outcome == Returned(Failed) ==> UndoFailed(log, |old(log)|)
      ensures outcome == Threw && unhealthy ==> StoredTwiceInVain(log, |old(log)|)
      ensures Recoverable(old(plane), orig, candidates) ==> Kept(outcome, orig)
    {
      if unhealthy {
        var undone := RollbackAll(candidates, orig);
        ghost var undoing := log;
        var stored := SetStatus(status, if undone then RolledBack else Failed);
        if stored {
          if !undone {
            UndoFailedStays(undoing, log, |old(log)|, |old(log)|);
          }
          return Returned(status);
        }
      }
      ghost var caught := log;
      outcome := Recover(candidates, orig);
      assert log[..|caught|] == caught;
      if outcome == Returned(Failed) {
        UndoFailedStays(log, log, |caught|, |old(log)|);
      } else if outcome == Threw && unhealthy {
        assert log[|caught| - 1].Stored? && log[|log| - 1].Stored?;
      }
    }

    /** A queued job is claimed, and a claimed one taken as it is. */
    method Claim() returns (ok: bool)
      requires Valid()
      modifies this`status, this`path, this`log
      ensures Valid() && old(path) <= path && old(log) <= log && Unready(log, |old(log)|)
      ensures ok ==> status == Validating && old(status) in {Queued, Validating}
      ensures ok ==> log == old(log) + if old(status) == Queued then [Stored(Validating, true)] else []
      ensures !ok ==> old(status) !in {Queued, Validating} || Trouble(log, |old(log)|)
    {
      if status != Queued {
        return status == Validating;
      }
      ok := SetStatus(status, Validating);
      if !ok {
        LastIsTrouble(old(log), Stored(Validating, false), |old(log)|);
      }
    }

    /** From the claim up to `applying`: None when everything is validated. Nothing is promoted, so the catch block
        is `fail`. */
    method Check(candidates: seq<Candidate>) returns (outcome: Option<Outcome>)
      requires Valid() && status == Validating
      modifies this`status, this`path, this`log
      ensures Valid() && old(path) <= path && old(log) <= log
      ensures outcome.None? ==>
                status == Applying && log == old(log) + AllValidated(candidates) + [Stored(Applying, true)]
      ensures outcome.Some? ==> Trouble(log, |old(log)|)
      ensures outcome.Some? ==> outcome.value == Threw || (outcome.value == Returned(Failed) && status == Failed)
      ensures Unready(log, |old(log)|)
    {
      var valid, threw := ValidateAll(candidates);
      ghost var tried := log;
      if valid {
        var applying := SetStatus(status, Applying);
        if applying {
          return None;
        }
        LastIsTrouble(tried, Stored(Applying, false), |old(log)|);
        tried := log;
      } else if !threw {
        var failed := Fail();
        if failed.Returned? {
          TroubleStays(tried, log, |old(log)|);
          return Some(failed);
        }
      }
      var failed := Fail();
      TroubleStays(tried, log, |old(log)|);
      return Some(failed);
    }

    /** The job is claimed and there are candidates; `start` is the log before the claim, `ready` the one to reach
        before the first promotion. */
    method Carry(candidates: seq<Candidate>, ghost start: seq<Event>, ghost ready: seq<Event>)
      returns (outcome: Outcome)
      requires Valid() && clean && !refused && !stalled && status == Validating && candidates != []
      requires start <= log && Unready(log, |start|)
      requires log + AllValidated(candidates) + [Stored(Applying, true)] == ready
      modifies this
      ensures Valid() && old(path) <= path && old(log) <= log
      ensures outcome.Returned? ==> Settled(outcome.status) && outcome.status == status
      ensures ReadyFirst(log, |start|, ready)
      ensures outcome == Returned(RolledBack) ==> exists k :: UndoneAtTheEnd(log, ready, candidates, k)
      ensures outcome == Returned(Failed) && Began(log, ready, candidates) ==> UndoFailed(log, |ready|)
      ensures outcome == Returned(Applied) ==>
                marked &&
                log == ready + AllPromoted(candidates) + AllProbed(candidates) + [Marked(true), Stored(Applied, true)]
      ensures outcome != Returned(Applied) ==> Trouble(log, |start|)
      ensures marked <==> old(marked) || outcome == Returned(Applied) || stalled
      ensures marked && !old(marked) ==> LatestLive(markedPlane, candidates)
      ensures outcome == Returned(Applied) ==> !stalled && LatestLive(plane, candidates)
      ensures clean && DistinctServices(candidates) ==> Kept(outcome, old(plane))
    {
      ghost var orig := plane;
      var settled := Check(candidates);
      ghost var checked := log;
      UnreadyFrom(old(log), checked, |start|);
      if settled.Some? {
        TroubleFrom(log, |start|, |old(log)|);
        UnreadyIsNotBegun(log, |start|, ready, candidates);
        return settled.value;
      }
      outcome := Deploy(candidates);
      ReadyStaysFirst(log, |start|, checked);
      if outcome != Returned(Applied) {
        TroubleFrom(log, |start|, |checked|);
      }
    }

    /** `rendered` is None when rendering threw. */
    method Apply(rendered: Option<seq<Candidate>>) returns (outcome: Outcome)
      requires Valid() && clean && !refused && !stalled
      modifies this
      ensures Valid() && old(path) <= path && old(log) <= log
      ensures outcome.Returned? ==> Settled(outcome.status) && outcome.status == status
      ensures outcome == Returned(Applied) ==>
                && old(status) in {Queued, Validating} && rendered.Some? && rendered.value != [] && marked
                && log == old(log) + Ready(old(status), rendered.value) + AllPromoted(rendered.value) +
                          AllProbed(rendered.value) + [Marked(true), Stored(Applied, true)]
      ensures outcome != Returned(Applied) ==>
                old(status) !in {Queued, Validating} || rendered.GetOr([]) == [] || Trouble(log, |old(log)|)
      ensures ReadyFirst(log, |old(log)|, old(log) + Ready(old(status), rendered.GetOr([])))
      ensures outcome == Returned(RolledBack) ==>
                exists k ::
                  UndoneAtTheEnd(log, old(log) + Ready(old(status), rendered.GetOr([])), rendered.GetOr([]), k)
      ensures var ready := old(log) + Ready(old(status), rendered.GetOr([]));
              outcome == Returned(Failed) && Began(log, ready, rendered.GetOr([])) ==> UndoFailed(log, |ready|)
      ensures marked <==> old(marked) || outcome == Returned(Applied) || stalled
      ensures marked && !old(marked) ==> LatestLive(markedPlane, rendered.GetOr([]))
      ensures outcome == Returned(Applied) ==> !stalled && LatestLive(plane, rendered.GetOr([]))
      ensures outcome == Returned(Applied) && DistinctServices(rendered.GetOr([])) ==>
              AllLive(plane, rendered.GetOr([]))
      ensures clean && DistinctServices(rendered.GetOr([])) ==> Kept(outcome, old(plane))
    {
      var claimed := Claim();
      if !claimed {
        return Threw;
      }
      if rendered.None? || rendered.value == [] {
        assert forall s: Service :: !Has([], s);
        outcome := Recover([], plane);
        return;
      }
      var candidates := rendered.value;
      ghost var ready := old(log) + Ready(old(status), candidates);
      assert log + AllValidated(candidates) + [Stored(Applying, true)] == ready;
      outcome := Carry(candidates, old(log), ready);
      if outcome == Returned(Applied) && DistinctServices(candidates) {
        DistinctAreAllLive(plane, candidates);
      }
    }
  }
}
