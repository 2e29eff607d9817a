/**
 * The files the Docker control operations promote and roll back. A plan says where an operation breaks;
 * a broken step leaves arbitrary contents behind, and the best-effort restore after it may break too.
 */
module ControlPlane {
  import opened Options

  type Content = seq<char>
  type Dir = map<string, Content>

  datatype Service = CoreDns | Nginx

  datatype Candidate =
    | CoreDnsCandidate(corefile: Content, zones: Dir)
    | NginxCandidate(conf: Content)
  {
    function Service(): Service {
      if CoreDnsCandidate? then CoreDns else Nginx
    }
  }

  datatype Plane = Plane(
    corefile: Option<Content>,      // the persisted Corefile
    baked: Content,                 // the Corefile of the image, read when none is persisted
    zones: Dir,
    previousCorefile: Option<Content>,
    previousZones: Dir,
    active: Option<Content>,        // /etc/nginx/nginx.conf
    backup: Option<Content>,        // /etc/nginx/.proxycore.previous.conf
    stable: Option<Content>,
    previousStable: Option<Content>)

  function Corefile(p: Plane): Content {
    p.corefile.GetOr(p.baked)
  }

  // ---------------------------------------------------------------- CoreDNS

  datatype CorePlan =
    | CoreDone
    | CoreEarly(savedCorefile: Option<Content>, savedZones: Dir)     // broke before touching live files
    | CoreLate(corefileBack: bool, zonesBack: bool, leftCorefile: Option<Content>, leftZones: Dir)

  function PromoteCoreDns(p: Plane, c: Candidate, plan: CorePlan): (r: (Plane, bool))
    requires c.CoreDnsCandidate?
  {
    var previous := Corefile(p);
    var saved := p.(previousCorefile := Some(previous), previousZones := p.zones);
    match plan
    case CoreDone => (saved.(zones := c.zones, corefile := Some(c.corefile)), true)
    case CoreEarly(savedCorefile, savedZones) =>
      (p.(previousCorefile := savedCorefile, previousZones := savedZones), false)
    case CoreLate(corefileBack, zonesBack, leftCorefile, leftZones) =>
      (saved.(corefile := if corefileBack then Some(previous) else leftCorefile,
              zones := if zonesBack then p.zones else leftZones), false)
  }

  datatype RollbackPlan = RollbackDone | RollbackBroken(corefileLeft: Option<Content>, zonesLeft: Dir,
                                                        activeLeft: Option<Content>, stableLeft: Option<Content>)

  function RollbackCoreDns(p: Plane, plan: RollbackPlan): (Plane, bool) {
    if p.previousCorefile.None? then (p, false)
    else match plan
      case RollbackDone => (p.(corefile := p.previousCorefile, zones := p.previousZones), true)
      case RollbackBroken(c, z, _, _) => (p.(corefile := c, zones := z), false)
  }

  // ---------------------------------------------------------------- nginx

  /** `got`: the running configuration was read; `saved`: it was copied aside. Either failure is silent. */
  datatype NginxPlan = NginxPlan(got: bool, saved: bool, outcome: NginxOutcome)
  datatype NginxOutcome =
    | Unread                                                             // the candidate could not be read
    | Promoted
    | Undone(back: bool, leftActive: Option<Content>, leftStable: Option<Content>, leftPrevious: Option<Content>)

  function Got(p: Plane, plan: NginxPlan): Option<Content> {
    if plan.got then p.active else None
  }

  function Backup(p: Plane, plan: NginxPlan): Option<Content> {
    if plan.saved && p.active.Some? then p.active else p.backup
  }

  function PromoteNginx(p: Plane, c: Candidate, plan: NginxPlan): (r: (Plane, bool))
    requires c.NginxCandidate?
  {
    var got, backup := Got(p, plan), Backup(p, plan);
    match plan.outcome
    case Unread => (p, false)
    case Promoted =>
      (p.(backup := backup, active := Some(c.conf), stable := Some(c.conf),
          previousStable := if got.Some? && |got.value| > 0 then got else None), true)
    case Undone(back, leftActive, leftStable, leftPrevious) =>
      (p.(backup := backup, stable := leftStable, previousStable := leftPrevious,
          active := if !back then leftActive else if got.Some? then got else backup), false)
  }

  /** What a rollback copies over the running configuration. */
  function NginxSource(p: Plane): Option<Content> {
    if p.previousStable.Some? then p.previousStable else p.backup
  }

  function RollbackNginx(p: Plane, plan: RollbackPlan): (Plane, bool) {
    if NginxSource(p).None? then (p, false)
    else match plan
      case RollbackDone =>
        (p.(active := NginxSource(p), stable := p.previousStable), true)
      case RollbackBroken(_, _, activeLeft, stableLeft) => (p.(active := activeLeft, stable := stableLeft), false)
  }

  // ---------------------------------------------------------------- what can be undone

  /** The configuration the two services read: what a rollback must bring back. */
  predicate SameConfiguration(p: Plane, q: Plane, s: Service) {
    match s
    case CoreDns => Corefile(p) == Corefile(q) && p.zones == q.zones
    case Nginx => p.active == q.active
  }

  /** Rolling service `s` back from `p` brings the configuration of `orig` back. */
  predicate Undoable(p: Plane, orig: Plane, s: Service) {
    match s
    case CoreDns => p.previousCorefile == Some(Corefile(orig)) && p.previousZones == orig.zones
    case Nginx => NginxSource(p) == orig.active && orig.active.Some?
  }

  /** The candidate is what the service reads, also after its container was created anew. */
  predicate IsLive(p: Plane, c: Candidate) {
    match c
    case CoreDnsCandidate(corefile, zones) => p.corefile == Some(corefile) && p.zones == zones
    case NginxCandidate(conf) => p.active == Some(conf) && p.stable == Some(conf)
  }

  datatype Plan = CoreWith(core: CorePlan) | NginxWith(nginx: NginxPlan)

  predicate PlanFor(c: Candidate, plan: Plan) {
    c.CoreDnsCandidate? <==> plan.CoreWith?
  }

  function Promote(p: Plane, c: Candidate, plan: Plan): (Plane, bool)
    requires PlanFor(c, plan)
  {
    if c.CoreDnsCandidate? then PromoteCoreDns(p, c, plan.core) else PromoteNginx(p, c, plan.nginx)
  }

  function Rollback(p: Plane, s: Service, plan: RollbackPlan): (Plane, bool) {
    if s == CoreDns then RollbackCoreDns(p, plan) else RollbackNginx(p, plan)
  }

  /** Nothing went wrong silently: a promotion kept a copy of a non-empty running nginx configuration to return to,
      and whatever restore a broken promotion tried did complete. */
  predicate Clean(p: Plane, plan: Plan) {
    match plan
    case CoreWith(core) => core.CoreLate? ==> core.corefileBack && core.zonesBack
    case NginxWith(nginx) =>
      (match nginx.outcome
       case Unread => true
       case Promoted => p.active.Some? && ((nginx.got && |p.active.value| > 0) || nginx.saved)
       case Undone(back, _, _, _) => back && p.active.Some? && (nginx.got || nginx.saved))
  }

  /** A promotion either makes the candidate live and undoable, or leaves the service's configuration as it was. */
  lemma PromoteIsAllOrNothing(p: Plane, c: Candidate, plan: Plan)
    requires PlanFor(c, plan) && Clean(p, plan)
    ensures var (q, ok) := Promote(p, c, plan);
            && (ok ==> IsLive(q, c) && Undoable(q, p, c.Service()))
            && (!ok ==> SameConfiguration(q, p, c.Service()))
  {
  }

  /** Promote then roll back nginx: the running configuration returns exactly when a copy was kept, or when the copy
      left over from some earlier promotion happens to be the same. The persisted one is then the one that was read.
      */
  lemma NginxRollbackRestoresIff(p: Plane, c: Candidate, plan: NginxPlan)
    requires c.NginxCandidate? && plan.outcome.Promoted?
    ensures var (q, _) := PromoteNginx(p, c, plan);
            var (back, ok) := RollbackNginx(q, RollbackDone);
            && (ok && back.active == p.active <==>
                Clean(p, NginxWith(plan)) || (p.active.Some? && p.backup == p.active))
            && (ok ==> back.stable == if plan.got && p.active.Some? && p.active.value != [] then p.active else None)
  {
  }

  /** A broken CoreDNS promotion leaves the old configuration for every residue exactly when both restores ran. */
  lemma BrokenCorePromoteRestoresIff(p: Plane, c: Candidate, corefileBack: bool, zonesBack: bool)
    requires c.CoreDnsCandidate?
    ensures (forall f, z ::
               SameConfiguration(PromoteCoreDns(p, c, CoreLate(corefileBack, zonesBack, f, z)).0, p, CoreDns)) <==>
            corefileBack && zonesBack
  {
    var f: Option<Content> := Some(Corefile(p) + ['#']);
    var z: Dir := p.zones["residue" := if "residue" in p.zones then p.zones["residue"] + ['#'] else []];
    assert z["residue"] == [] || z["residue"] != p.zones["residue"];
    assert z != p.zones;
    var q := PromoteCoreDns(p, c, CoreLate(corefileBack, zonesBack, f, z)).0;
    if !corefileBack {
      assert Corefile(q) == f.value && |f.value| > |Corefile(p)|;
      assert !SameConfiguration(q, p, CoreDns);
    } else if !zonesBack {
      assert !SameConfiguration(q, p, CoreDns);
    }
  }

  /** A broken nginx promotion leaves the running configuration for every residue exactly when its restore ran and
      had the right contents: those it read, or else those copied aside. */
  lemma BrokenNginxPromoteRestoresIff(p: Plane, c: Candidate, got: bool, saved: bool, back: bool)
    requires c.NginxCandidate?
    ensures (forall a, s, r ::
               SameConfiguration(PromoteNginx(p, c, NginxPlan(got, saved, Undone(back, a, s, r))).0, p, Nginx)) <==>
            back && ((got && p.active.Some?) || Backup(p, NginxPlan(got, saved, Promoted)) == p.active)
  {
    var a: Option<Content> := if p.active.Some? then None else Some([]);
    var q := PromoteNginx(p, c, NginxPlan(got, saved, Undone(back, a, None, None))).0;
    assert !back ==> !SameConfiguration(q, p, Nginx);
    assert back && SameConfiguration(q, p, Nginx) ==>
      (got && p.active.Some?) || Backup(p, NginxPlan(got, saved, Promoted)) == p.active;
  }

  /** A completed rollback brings the service back; any rollback, even a broken one, can be repeated. */
  lemma RollbackRestores(p: Plane, orig: Plane, s: Service, plan: RollbackPlan)
    requires Undoable(p, orig, s)
    ensures Rollback(p, s, plan).1 ==> SameConfiguration(Rollback(p, s, plan).0, orig, s)
    ensures Undoable(Rollback(p, s, plan).0, orig, s)
  {
  }

  lemma OthersUntouchedByPromote(p: Plane, orig: Plane, c: Candidate, plan: Plan, s: Service)
    requires PlanFor(c, plan) && s != c.Service()
    ensures SameConfiguration(Promote(p, c, plan).0, p, s)
    ensures Undoable(p, orig, s) ==> Undoable(Promote(p, c, plan).0, orig, s)
    ensures forall d: Candidate :: d.Service() == s ==> IsLive(Promote(p, c, plan).0, d) == IsLive(p, d)
  {
  }

  lemma OthersUntouchedByRollback(p: Plane, orig: Plane, rolled: Service, plan: RollbackPlan, s: Service)
    requires s != rolled
    ensures SameConfiguration(Rollback(p, rolled, plan).0, p, s)
    ensures Undoable(p, orig, s) ==> Undoable(Rollback(p, rolled, plan).0, orig, s)
  {
  }

  function Twice(p: Plane, first: Candidate, second: Candidate, core: Plan): Plane
    requires PlanFor(first, core) && PlanFor(second, core)
  {
    Promote(Promote(p, first, core).0, second, core).0
  }

  /** Two promotions of one service keep one copy, so undoing both returns to the first candidate: the original
      configuration is back exactly when the first candidate already was that configuration. */
  lemma RepeatedServiceRestoredIff(p: Plane, first: Candidate, second: Candidate)
    requires first.Service() == second.Service()
    ensures var plan := if first.CoreDnsCandidate? then CoreWith(CoreDone)
            else NginxWith(NginxPlan(true, true, Promoted));
            var back :=
              Rollback(Rollback(Twice(p, first, second, plan), first.Service(), RollbackDone).0, first.Service(),
                       RollbackDone).0;
            SameConfiguration(back, p, first.Service()) <==>
            match first
            case CoreDnsCandidate(corefile, zones) => corefile == Corefile(p) && zones == p.zones
            case NginxCandidate(conf) => p.active == Some(conf)
  {
  }

  /** No copy could be made and an older one lies around: the rollback succeeds and brings the older one back. */
  lemma RollbackBringsStaleCopyBack(p: Plane, c: Candidate, running: Content, older: Content)
    requires c.NginxCandidate? && p.active == Some(running) && p.backup == Some(older) && running != older
    ensures var (q, promoted) := PromoteNginx(p, c, NginxPlan(false, false, Promoted));
            var (back, ok) := RollbackNginx(q, RollbackDone);
            promoted && ok && back.active == Some(older) && back.active != p.active
  {
  }

  /** Two CoreDNS candidates over the Corefile `o`: both rollbacks succeed and leave the first candidate. */
  lemma RepeatedServiceLosesTheOriginal()
    ensures var p := Plane(Some(['o']), ['o'], map[], None, map[], None, None, None, None);
            var first, second := CoreDnsCandidate(['a'], map[]), CoreDnsCandidate(['b'], map[]);
            var (once, ok) := RollbackCoreDns(Twice(p, first, second, CoreWith(CoreDone)), RollbackDone);
            var (back, again) := RollbackCoreDns(once, RollbackDone);
            ok && again && Corefile(back) == ['a'] && !SameConfiguration(back, p, CoreDns)
  {
    assert ['a'][0] != ['o'][0];
  }
}
