/**
 * Any number of issuers, CA users and hostname updates, interleaved. An issuer reads its inputs in three
 * separate queries outside the writer, so what it read may never have been the state of any one moment;
 * its commit is one transaction. `version` counts the transactions that changed an input.
 */
module EnrollmentTlsRuns {
  import opened Options
  import opened EnrollmentTls

  type Pid = nat

  datatype Phase =
    | Idle
    | Named(began: nat, names: Names)                        // hostnames read
    | Marked(began: nat, names: Names, established: bool)     // marker read
    | Ready(began: nat, before: Inputs, offer: Offer, at: Clock) // CA row read, leaf signed
    | Offering(cert: CaCert)                                  // an internal CA created, not yet stored
    // The hostnames it was handed out for, the clock it was validated at, and whether it was signed for this caller.
    | Done(material: Material, names: Names, at: Clock, signed: bool)
    | HasCa(cert: CaCert)
    | Failed

  datatype Caller = Caller(phase: Phase, retries: nat)
  datatype World = World(db: Db, version: nat, callers: map<Pid, Caller>)

  datatype Step =
    | ReadNames(p: Pid)
    | ReadMarker(p: Pid)
    | ReadRow(p: Pid, now: Clock, newCa: CaCert, newKey: Key)
    | Commit(p: Pid, now: Clock, caId: Id, leafId: Id)
    | LoadCa(p: Pid, now: Clock, newCa: CaCert)
    | StoreCa(p: Pid, now: Clock, caId: Id)
    | SetNames(names: Names)

  function Moved(w: World, p: Pid, phase: Phase): World {
    w.(callers := w.callers[p := Caller(phase, if p in w.callers then w.callers[p].retries else 0)])
  }

  /** A transaction's effect on the tables; the version advances when an issuance input changed. */
  function Wrote(w: World, db: Db): World {
    World(db, if InputsOf(db) == InputsOf(w.db) && db.ca == w.db.ca && db.marker == w.db.marker then w.version
              else w.version + 1, w.callers)
  }

  function PhaseOf(w: World, p: Pid): Phase {
    if p in w.callers then w.callers[p].phase else Idle
  }

  function Next(w: World, s: Step): World {
    match s
    case ReadNames(p) =>
      if !PhaseOf(w, p).Idle? then w
      else Moved(w, p, if w.db.names == [] then Failed else Named(w.version, w.db.names))
    case ReadMarker(p) =>
      (match PhaseOf(w, p)
       case Named(began, names) => Moved(w, p, Marked(began, names, w.db.marker))
       case _ => w)
    case ReadRow(p, now, newCa, newKey) =>
      (match PhaseOf(w, p)
       case Marked(began, names, established) =>
         var before := Inputs(names, established, w.db.ca);
         (match Prepare(before, w.db.secrets, now, newCa, newKey)
          case Refused => Moved(w, p, Failed)
          case Reuse(material) => Moved(w, p, Done(material, names, now, false))
          case Sign(offer) => Moved(w, p, Ready(began, before, offer, now)))
       case _ => w)
    case Commit(p, now, caId, leafId) =>
      if caId == leafId || caId in w.db.secrets || leafId in w.db.secrets then w
      else
        (match PhaseOf(w, p)
         case Ready(_, before, offer, at) =>
           (match Recheck(w.db, before, now)
            case Error => Moved(w, p, Failed)
            case Existing(material) => Moved(w, p, Done(material, w.db.names, now, false))
            case Retry => w.(callers := w.callers[p := Caller(Idle, w.callers[p].retries + 1)])
            case Committed =>
              Moved(Wrote(w, CommitEnrollment(w.db, before, offer, now, caId, leafId)), p,
                    Done(Material(offer.ca, offer.leaf, offer.leafKey), w.db.names, at, true)))
         case _ => w)
    case LoadCa(p, now, newCa) =>
      if !PhaseOf(w, p).Idle? then w
      else if w.db.ca.None? then Moved(w, p, Offering(newCa))
      else Moved(w, p, if CaKeyValid(w.db.ca.value, w.db.secrets, now) then HasCa(w.db.ca.value.cert) else Failed)
    case StoreCa(p, now, caId) =>
      if caId in w.db.secrets then w
      else
        (match PhaseOf(w, p)
         case Offering(cert) =>
           if w.db.ca.Some? && !CaKeyValid(w.db.ca.value, w.db.secrets, now) then Moved(w, p, Failed)
           else
             var db := CommitCa(w.db, cert, caId);
             Moved(Wrote(w, db), p, HasCa(db.ca.value.cert))
         case _ => w)
    case SetNames(names) => Wrote(w, w.db.(names := names))
  }

  function Run(w: World, steps: seq<Step>): World
    decreases |steps|
  {
    if steps == [] then w else Run(Next(w, steps[0]), steps[1..])
  }

  // ---------------------------------------------------------------- the invariant

  ghost predicate DbOk(db: Db) {
    && (db.marker <==> db.ca.Some? && db.ca.value.leaf.Some?)
    && (db.ca.Some? ==>
          var row := db.ca.value;
          && row.keyId in db.secrets && db.secrets[row.keyId] == Secret(CaKey, row.cert.key)
          && (row.leaf.Some? <==> row.leafKeyId.Some?)
          && (row.leaf.Some? ==>
                && row.leafKeyId.value in db.secrets
                && db.secrets[row.leafKeyId.value] == Secret(LeafKey, row.leaf.value.key)
                && row.leaf.value.issuer == row.cert))
    && (forall id :: id in db.secrets ==>
          && db.ca.Some?
          && (db.secrets[id].purpose == CaKey ==> id == db.ca.value.keyId)
          && (db.secrets[id].purpose == LeafKey ==> db.ca.value.leafKeyId == Some(id)))
  }

  /** The stored identity: the CA row once written, and the leaf key once established. */
  ghost predicate SameIdentity(d: Db, e: Db) {
    && (d.ca.Some? ==> e.ca.Some? && e.ca.value.cert == d.ca.value.cert && e.ca.value.keyId == d.ca.value.keyId)
    && (d.marker ==> e.marker && d.ca.Some? && e.ca.Some? && e.ca.value.leafKeyId == d.ca.value.leafKeyId)
    && (forall id :: id in d.secrets ==> id in e.secrets && e.secrets[id] == d.secrets[id])
  }

  ghost predicate Agrees(m: Material, db: Db) {
    && db.marker && db.ca.Some? && db.ca.value.leafKeyId.Some? && db.ca.value.leafKeyId.value in db.secrets
    && m.ca == db.ca.value.cert && m.key == db.secrets[db.ca.value.leafKeyId.value].key
    && m.leaf.issuer == m.ca && m.leaf.key == m.key
  }

  /** What a caller gets is for exactly the hostnames read or stored in that step and valid at that clock, and,
      unless it was signed for this very caller, good for another thirty days. */
  ghost predicate Fitting(d: Phase)
    requires d.Done?
  {
    && d.material.leaf.names == d.names
    && d.material.ca.notBefore <= d.at < d.material.ca.notAfter
    && d.material.leaf.notBefore <= d.at <= d.material.leaf.notAfter
    && (!d.signed ==> d.at + 30 * 24 * 60 * 60 < d.material.leaf.notAfter)
  }

  ghost predicate CallerOk(w: World, c: Caller) {
    && c.retries <= w.version
    && match c.phase
       case Named(began, names) =>
         c.retries <= began <= w.version && names != [] && (began == w.version ==> names == w.db.names)
       case Marked(began, names, established) =>
         && c.retries <= began <= w.version && names != [] && (established ==> w.db.marker)
         && (began == w.version ==> names == w.db.names && established == w.db.marker)
       case Ready(began, before, offer, at) =>
         && c.retries <= began <= w.version && before.names != []
         && (began == w.version ==> before == InputsOf(w.db))
         && offer.caKey == offer.ca.key && offer.leaf.issuer == offer.ca && offer.leaf.key == offer.leafKey
         && offer.leaf.names == before.names
         && offer.ca.notBefore <= at < offer.ca.notAfter && offer.leaf.notBefore <= at <= offer.leaf.notAfter
         && (before.ca.Some? ==> offer.ca == before.ca.value.cert)
         && (before.established ==>
               && before.ca.Some? && before.ca.value.leafKeyId.Some?
               && before.ca.value.leafKeyId.value in w.db.secrets
               && w.db.secrets[before.ca.value.leafKeyId.value].key == offer.leafKey)
       case Done(material, _, _, _) => Agrees(material, w.db) && Fitting(c.phase)
       case HasCa(cert) => w.db.ca.Some? && w.db.ca.value.cert == cert
       case _ => true
  }

  ghost predicate Inv(w: World) {
    DbOk(w.db) && forall p :: p in w.callers ==> CallerOk(w, w.callers[p])
  }

  // ---------------------------------------------------------------- one step

  lemma WritesKeepDb(w: World, s: Step)
    requires Inv(w)
    ensures DbOk(Next(w, s).db)
    ensures SameIdentity(w.db, Next(w, s).db)
    ensures w.version <= Next(w, s).version <= w.version + 1
  {
    if s.Commit? && PhaseOf(w, s.p).Ready? {
      assert CallerOk(w, w.callers[s.p]);
    }
  }

  /** Callers that did not move stay sound under another transaction. */
  lemma OthersStayOk(w: World, s: Step, p: Pid)
    requires Inv(w) && p in w.callers && p in Next(w, s).callers && Next(w, s).callers[p] == w.callers[p]
    ensures CallerOk(Next(w, s), w.callers[p])
  {
    WritesKeepDb(w, s);
    assert CallerOk(w, w.callers[p]);
  }

  lemma CommitterStaysOk(w: World, s: Step)
    requires Inv(w) && (s.Commit? || s.StoreCa?) && Next(w, s) != w
    ensures s.p in Next(w, s).callers && CallerOk(Next(w, s), Next(w, s).callers[s.p])
  {
    WritesKeepDb(w, s);
    assert s.p in w.callers;
    assert CallerOk(w, w.callers[s.p]);
  }

  lemma ReaderStaysOk(w: World, s: Step)
    requires Inv(w) && !s.SetNames? && !s.Commit? && !s.StoreCa? && Next(w, s) != w
    ensures s.p in Next(w, s).callers && CallerOk(Next(w, s), Next(w, s).callers[s.p])
  {
    if s.p in w.callers {
      assert CallerOk(w, w.callers[s.p]);
    }
  }

  lemma MoverStaysOk(w: World, s: Step)
    requires Inv(w) && !s.SetNames? && Next(w, s) != w
    ensures s.p in Next(w, s).callers && CallerOk(Next(w, s), Next(w, s).callers[s.p])
  {
    if s.Commit? || s.StoreCa? {
      CommitterStaysOk(w, s);
    } else {
      ReaderStaysOk(w, s);
    }
  }

  lemma NextKeepsInv(w: World, s: Step)
    requires Inv(w)
    ensures Inv(Next(w, s))
  {
    var u := Next(w, s);
    WritesKeepDb(w, s);
    forall p | p in u.callers
      ensures CallerOk(u, u.callers[p])
    {
      if p in w.callers && u.callers[p] == w.callers[p] {
        OthersStayOk(w, s, p);
      } else {
        MoverStaysOk(w, s);
      }
    }
  }

  /** A leaf enters the row only for the CA and the hostnames stored at that very moment, and with the stored key.
      */
  lemma LeafIssuedForStoredInputs(w: World, s: Step)
    requires Inv(w)
    requires Next(w, s).db.ca.Some? && Next(w, s).db.ca.value.leaf.Some?
    requires w.db.ca.None? || w.db.ca.value.leaf != Next(w, s).db.ca.value.leaf
    ensures var row := Next(w, s).db.ca.value;
            && row.leaf.value.issuer == row.cert && row.leaf.value.names == w.db.names == Next(w, s).db.names
            && Next(w, s).db.secrets[row.leafKeyId.value].key == row.leaf.value.key
  {
    WritesKeepDb(w, s);
    assert s.Commit?;
    assert CallerOk(w, w.callers[s.p]);
  }

  /** A caller goes back to the start only when some transaction changed an input after its reads began. */
  lemma RetryOnlyAfterChange(w: World, s: Step, p: Pid)
    requires Inv(w) && p in w.callers && p in Next(w, s).callers
    requires Next(w, s).callers[p].retries != w.callers[p].retries
    ensures w.callers[p].phase.Ready? && w.callers[p].phase.began < w.version
  {
    assert CallerOk(w, w.callers[p]);
  }

  /** The row read fails exactly for a torn read (marker read before, row after, the first establishment) or outside
      a validity period: of the stored CA, of a CA just created, or of the leaf, which is refused before it can be
      renewed. */
  lemma ReadRowFailsIff(w: World, p: Pid, now: Clock, newCa: CaCert, newKey: Key)
    requires Inv(w) && PhaseOf(w, p).Marked?
    ensures PhaseOf(Next(w, ReadRow(p, now, newCa, newKey)), p).Failed? <==>
            || (w.db.marker && !PhaseOf(w, p).established)
            || !(var ca := if w.db.ca.Some? then w.db.ca.value.cert else newCa; ca.notBefore <= now < ca.notAfter)
            || (w.db.marker && !(w.db.ca.value.leaf.value.notBefore <= now <= w.db.ca.value.leaf.value.notAfter))
  {
    assert CallerOk(w, w.callers[p]);
  }

  /** What a commit comes to, in terms of the rows at that moment: it fails outside a validity period; it answers
      the stored material if that is for the stored hostnames and good for thirty more days; it goes back to the
      start if the inputs are not the ones read; and otherwise stores its leaf. */
  lemma CommitOutcomeIff(w: World, p: Pid, now: Clock, caId: Id, leafId: Id)
    requires Inv(w) && PhaseOf(w, p).Ready? && caId != leafId && caId !in w.db.secrets && leafId !in w.db.secrets
    ensures var u, row, before := Next(w, Commit(p, now, caId, leafId)), w.db.ca, PhaseOf(w, p).before;
            var failed := w.db.names != [] && row.Some? &&
                          (!(row.value.cert.notBefore <= now < row.value.cert.notAfter) ||
                           (w.db.marker && !(row.value.leaf.value.notBefore <= now <= row.value.leaf.value.notAfter)));
            var good := w.db.names != [] && w.db.marker && row.value.leaf.value.names == w.db.names &&
                        now + 30 * 24 * 60 * 60 < row.value.leaf.value.notAfter;
            var same := w.db.names == before.names && w.db.marker == before.established && row == before.ca;
            && (PhaseOf(u, p).Failed? <==> failed)
            && (PhaseOf(u, p).Done? && !PhaseOf(u, p).signed <==> !failed && good)
            && (PhaseOf(u, p).Idle? <==> !failed && !good && !same)
            && (PhaseOf(u, p).Done? && PhaseOf(u, p).signed <==> !failed && !good && same)
            && (u.db != w.db ==> !failed && !good && same)
            && (PhaseOf(u, p).Done? ==> u.db.ca.Some? && u.db.ca.value.leaf == Some(PhaseOf(u, p).material.leaf))
  {
    assert CallerOk(w, w.callers[p]);
  }

  /** A candidate signed for other hostnames than those stored is never committed: its caller gets the existing
      material, an error, or another turn. */
  lemma UpdateInvalidatesCandidates(w: World, names: Names, p: Pid, now: Clock)
    requires Inv(w) && PhaseOf(w, p).Ready? && PhaseOf(w, p).before.names != names
    ensures Recheck(Next(w, SetNames(names)).db, PhaseOf(w, p).before, now) != Committed
  {
    assert CallerOk(w, w.callers[p]);
  }

  // ---------------------------------------------------------------- whole runs

  lemma {:induction false} RunKeepsInv(w: World, steps: seq<Step>)
    requires Inv(w)
    ensures Inv(Run(w, steps))
    decreases |steps|
  {
    if steps != [] {
      NextKeepsInv(w, steps[0]);
      RunKeepsInv(Next(w, steps[0]), steps[1..]);
    }
  }

  /** The CA row, the leaf key id and every stored secret are the same at the end of any run as at its start. */
  lemma {:induction false} RunKeepsIdentity(w: World, steps: seq<Step>)
    requires Inv(w)
    ensures SameIdentity(w.db, Run(w, steps).db)
    decreases |steps|
  {
    if steps != [] {
      NextKeepsInv(w, steps[0]);
      WritesKeepDb(w, steps[0]);
      RunKeepsIdentity(Next(w, steps[0]), steps[1..]);
    }
  }

  /** Material once returned stays in the run's record and agrees with the store in every later state. */
  lemma {:induction false} RunKeepsDone(w: World, steps: seq<Step>, p: Pid)
    requires Inv(w) && p in w.callers && w.callers[p].phase.Done?
    ensures p in Run(w, steps).callers && Run(w, steps).callers[p] == w.callers[p]
    ensures Agrees(w.callers[p].phase.material, Run(w, steps).db) && Fitting(w.callers[p].phase)
    decreases |steps|
  {
    if steps == [] {
      assert CallerOk(w, w.callers[p]);
    } else {
      NextKeepsInv(w, steps[0]);
      RunKeepsDone(Next(w, steps[0]), steps[1..], p);
    }
  }

  const EMPTY := World(Db([], false, None, map[]), 0, map[])

  /** From an empty installation: the marker exists exactly with a leaf, at most one secret of each purpose was ever
      stored, all the material ever returned shares one CA and one private key, and each was fitting when returned.
      */
  lemma EveryRunIsSafe(steps: seq<Step>)
    ensures var w := Run(EMPTY, steps);
            && (w.db.marker <==> w.db.ca.Some? && w.db.ca.value.leaf.Some?)
            && (forall a, b | a in w.db.secrets && b in w.db.secrets ::
                  w.db.secrets[a].purpose == w.db.secrets[b].purpose ==> a == b)
            && (forall p :: p in w.callers && w.callers[p].phase.Done? ==> Fitting(w.callers[p].phase))
            && (forall p, q | p in w.callers && q in w.callers ::
                  w.callers[p].phase.Done? && w.callers[q].phase.Done? ==>
                  && w.callers[p].phase.material.ca == w.callers[q].phase.material.ca
                  && w.callers[p].phase.material.key == w.callers[q].phase.material.key)
  {
    RunKeepsInv(EMPTY, steps);
    var w := Run(EMPTY, steps);
    assert forall p :: p in w.callers ==> CallerOk(w, w.callers[p]);
    forall p, q | p in w.callers && q in w.callers && w.callers[p].phase.Done? && w.callers[q].phase.Done?
      ensures w.callers[p].phase.material.ca == w.callers[q].phase.material.ca
      ensures w.callers[p].phase.material.key == w.callers[q].phase.material.key
    {
      assert CallerOk(w, w.callers[p]) && CallerOk(w, w.callers[q]);
    }
  }

  /** No caller retries more often than the inputs changed: some other caller always made progress. */
  lemma RetriesAreBoundedByChanges(steps: seq<Step>, p: Pid)
    requires p in Run(EMPTY, steps).callers
    ensures Run(EMPTY, steps).callers[p].retries <= Run(EMPTY, steps).version
  {
    RunKeepsInv(EMPTY, steps);
    assert CallerOk(Run(EMPTY, steps), Run(EMPTY, steps).callers[p]);
  }

  // ---------------------------------------------------------------- a torn read

  /** Caller 1 reads hostnames and marker, caller 2 establishes the CA and the leaf, caller 1 reads the row: it
      fails with nothing expired and nothing wrong in the store. */
  lemma TornReadFails(newCa: CaCert)
    requires InForce(newCa, 0)
    ensures var steps :=
            [SetNames(["a"]), ReadNames(1), ReadMarker(1), ReadNames(2), ReadMarker(2), ReadRow(2, 0, newCa, 8),
                          Commit(2, 0, 10, 11), ReadRow(1, 0, newCa, 9)];
            var w := Run(EMPTY, steps);
            && PhaseOf(w, 1).Failed? && PhaseOf(w, 2).Done? && w.db.marker
            && w.db.ca.Some? && MaterialValid(w.db.ca.value, w.db.secrets, 0) && Consistent(InputsOf(w.db))
  {
    var steps := [SetNames(["a"]), ReadNames(1), ReadMarker(1), ReadNames(2), ReadMarker(2), ReadRow(2, 0, newCa, 8),
                  Commit(2, 0, 10, 11), ReadRow(1, 0, newCa, 9)];
    var named, marked := Named(1, ["a"]), Marked(1, ["a"], false);
    var db := Db(["a"], false, None, map[]);
    var w1 := World(db, 1, map[]);
    var w2 := World(db, 1, map[1 := Caller(named, 0)]);
    var w3 := World(db, 1, map[1 := Caller(marked, 0)]);
    var w4 := World(db, 1, map[1 := Caller(marked, 0), 2 := Caller(named, 0)]);
    var w5 := World(db, 1, map[1 := Caller(marked, 0), 2 := Caller(marked, 0)]);
    assert Next(EMPTY, steps[0]) == w1 && Next(w1, steps[1]) == w2 && Next(w2, steps[2]) == w3;
    assert Next(w3, steps[3]) == w4 && Next(w4, steps[4]) == w5;
    FiveSteps(EMPTY, steps, w1, w2, w3, w4, w5);
    EstablishesBeside(w5, newCa);
    var w6 := Next(w5, steps[5]);
    var w7 := Next(w6, steps[6]);
    var rest := steps[5..];
    assert rest[1..] == steps[6..] && steps[6..][1..] == steps[7..] && steps[7..][1..] == [];
    assert Run(w7, steps[7..]) == Next(w7, steps[7]);
    assert Run(w6, steps[6..]) == Run(w7, steps[7..]);
  }

  /** Caller 2 signs and commits while caller 1 still holds the marker it read before. */
  lemma EstablishesBeside(w: World, newCa: CaCert)
    requires InForce(newCa, 0) && w.db == Db(["a"], false, None, map[]) && w.version == 1
    requires w.callers == map[1 := Caller(Marked(1, ["a"], false), 0), 2 := Caller(Marked(1, ["a"], false), 0)]
    ensures var u := Next(Next(w, ReadRow(2, 0, newCa, 8)), Commit(2, 0, 10, 11));
            && u.db.marker && u.db.ca.Some? && MaterialValid(u.db.ca.value, u.db.secrets, 0) &&
               Consistent(InputsOf(u.db))
            && PhaseOf(u, 2).Done? && PhaseOf(u, 1) == Marked(1, ["a"], false)
            && PhaseOf(Next(u, ReadRow(1, 0, newCa, 9)), 1).Failed? &&
               PhaseOf(Next(u, ReadRow(1, 0, newCa, 9)), 2).Done?
            && Next(u, ReadRow(1, 0, newCa, 9)).db == u.db
  {
    var before := Inputs(["a"], false, None);
    var offer := Offer(newCa, newCa.key, Issued(newCa, ["a"], 8, 0), 8);
    NewLeafReusableIff(newCa, ["a"], 8, 0);
    assert Prepare(before, map[], 0, newCa, 8) == Sign(offer);
    var v := Next(w, ReadRow(2, 0, newCa, 8));
    assert v.db == w.db && PhaseOf(v, 2) == Ready(1, before, offer, 0);
    assert Recheck(v.db, before, 0) == Committed;
  }

  lemma FiveSteps(w: World, steps: seq<Step>, w1: World, w2: World, w3: World, w4: World, w5: World)
    requires |steps| >= 5 && Next(w, steps[0]) == w1 && Next(w1, steps[1]) == w2 && Next(w2, steps[2]) == w3
    requires Next(w3, steps[3]) == w4 && Next(w4, steps[4]) == w5
    ensures Run(w, steps) == Run(w5, steps[5..])
  {
    assert steps[1..][1..] == steps[2..] && steps[2..][1..] == steps[3..];
    assert steps[3..][1..] == steps[4..] && steps[4..][1..] == steps[5..];
    assert Run(w4, steps[4..]) == Run(w5, steps[5..]);
    assert Run(w3, steps[3..]) == Run(w4, steps[4..]);
    assert Run(w2, steps[2..]) == Run(w3, steps[3..]);
    assert Run(w1, steps[1..]) == Run(w2, steps[2..]);
  }

  // ---------------------------------------------------------------- a call after an update of the hostnames

  /** The stored CA and leaf are within their validity periods. */
  predicate Valid(db: Db, now: Clock) {
    db.ca.Some? ==>
      && db.ca.value.cert.notBefore <= now < db.ca.value.cert.notAfter
      && (db.ca.value.leaf.Some? ==> db.ca.value.leaf.value.notBefore <= now <= db.ca.value.leaf.value.notAfter)
  }

  /** A caller that reads and commits alone, from the state it finds. */
  function LoneCall(w: World, p: Pid, now: Clock, later: Clock, newCa: CaCert, newKey: Key, caId: Id,
                    leafId: Id): World {
    Next(Next(Next(Next(w, ReadNames(p)), ReadMarker(p)), ReadRow(p, now, newCa, newKey)),
         Commit(p, later, caId, leafId))
  }

  lemma LoneReads(w: World, p: Pid, now: Clock, newCa: CaCert, newKey: Key)
    requires Inv(w) && p !in w.callers && w.db.names != [] && Valid(w.db, now)
    requires newCa.notBefore <= now < newCa.notAfter
    ensures var v := Next(Next(Next(w, ReadNames(p)), ReadMarker(p)), ReadRow(p, now, newCa, newKey));
            && Inv(v) && v.db == w.db
            && (PhaseOf(v, p).Ready? || PhaseOf(v, p).Done?)
            && (PhaseOf(v, p).Ready? ==> PhaseOf(v, p).before == InputsOf(w.db))
            && (PhaseOf(v, p).Done? ==> w.db.marker && PhaseOf(v, p).names == w.db.names &&
                                        PhaseOf(v, p).material.leaf == w.db.ca.value.leaf.value)
  {
    var v1 := Next(w, ReadNames(p));
    var v2 := Next(v1, ReadMarker(p));
    assert PhaseOf(v2, p) == Marked(w.version, w.db.names, w.db.marker);
    NextKeepsInv(w, ReadNames(p));
    NextKeepsInv(v1, ReadMarker(p));
    NextKeepsInv(v2, ReadRow(p, now, newCa, newKey));
    ReadRowFailsIff(v2, p, now, newCa, newKey);
  }

  /** Whatever was stored for other hostnames: the next lone call after an update ends with a leaf for exactly the
      new ones, and with that leaf in the store. */
  lemma UpdateRenewsTheLeaf(w: World, names: Names, p: Pid, now: Clock, later: Clock, newCa: CaCert, newKey: Key,
                            caId: Id, leafId: Id)
    requires Inv(w) && p !in w.callers && names != [] && caId != leafId && caId !in w.db.secrets &&
             leafId !in w.db.secrets
    requires Valid(w.db, now) && Valid(w.db, later) && newCa.notBefore <= now < newCa.notAfter
    ensures var u := LoneCall(Next(w, SetNames(names)), p, now, later, newCa, newKey, caId, leafId);
            && PhaseOf(u, p).Done? && PhaseOf(u, p).material.leaf.names == names == u.db.names
            && u.db.ca.Some? && u.db.ca.value.leaf == Some(PhaseOf(u, p).material.leaf)
  {
    var v0 := Next(w, SetNames(names));
    NextKeepsInv(w, SetNames(names));
    LoneReads(v0, p, now, newCa, newKey);
    var v := Next(Next(Next(v0, ReadNames(p)), ReadMarker(p)), ReadRow(p, now, newCa, newKey));
    NextKeepsInv(v, Commit(p, later, caId, leafId));
    var u := Next(v, Commit(p, later, caId, leafId));
    if PhaseOf(v, p).Ready? {
      CommitOutcomeIff(v, p, later, caId, leafId);
    } else {
      assert u == v;
    }
    assert CallerOk(u, u.callers[p]);
  }
}
