/**
 * The internal CA row, the enrollment leaf and their key secrets, as the two writers of that row see them.
 * Certificates are values that name their issuer, their names and their key, so a signature check is an
 * equality. A certificate authority is in force before its `notAfter` clock, a leaf up to and with it.
 */
module EnrollmentTls {
  import opened Options

  type Id = nat
  type Clock = int
  type Key = nat
  type Names = seq<string>

  const RENEWAL_WINDOW: Clock := 30 * 24 * 60 * 60
  const LEAF_VALIDITY: Clock := 365 * 24 * 60 * 60
  const LEAF_BACKDATED: Clock := 5 * 60

  datatype CaCert = CaCert(serial: nat, key: Key, notBefore: Clock, notAfter: Clock)
  datatype Leaf = Leaf(issuer: CaCert, names: Names, key: Key, notBefore: Clock, notAfter: Clock)
  datatype Purpose = CaKey | LeafKey
  datatype Secret = Secret(purpose: Purpose, key: Key)

  datatype CaRow = CaRow(cert: CaCert, keyId: Id, leaf: Option<Leaf>, leafKeyId: Option<Id>)
  datatype Db = Db(names: Names, marker: bool, ca: Option<CaRow>, secrets: map<Id, Secret>)

  /** `sqliteEnrollmentState`: every input of an issuance. Unconfigured names hide the rest. */
  datatype Inputs = Inputs(names: Names, established: bool, ca: Option<CaRow>)

  function InputsOf(db: Db): Inputs {
    if db.names == [] then Inputs([], false, None) else Inputs(db.names, db.marker, db.ca)
  }

  /** What `sqliteReadEnrollmentState` refuses: a marker without its row or leaf, or a leaf without its marker. */
  predicate Consistent(v: Inputs) {
    v.names == [] ||
    (if v.established
     then v.ca.Some? && v.ca.value.leaf.Some? && v.ca.value.leafKeyId.Some?
     else v.ca.Some? ==> v.ca.value.leaf.None? && v.ca.value.leafKeyId.None?)
  }

  /** The validity period of a CA ends before its last clock. */
  predicate InForce(cert: CaCert, now: Clock) {
    cert.notBefore <= now < cert.notAfter
  }

  /** `parseCAMaterial`: the stored key belongs to the CA, and the CA is in force. */
  predicate CaKeyValid(row: CaRow, secrets: map<Id, Secret>, now: Clock) {
    row.keyId in secrets && secrets[row.keyId].key == row.cert.key && InForce(row.cert, now)
  }

  /** Signed by the CA, for the stored key, within its validity period. */
  predicate LeafValid(leaf: Leaf, key: Key, cert: CaCert, now: Clock) {
    leaf.issuer == cert && leaf.key == key && leaf.notBefore <= now <= leaf.notAfter
  }

  predicate MaterialValid(row: CaRow, secrets: map<Id, Secret>, now: Clock) {
    && CaKeyValid(row, secrets, now)
    && row.leaf.Some? && row.leafKeyId.Some? && row.leafKeyId.value in secrets
    && LeafValid(row.leaf.value, secrets[row.leafKeyId.value].key, row.cert, now)
  }

  /** A new leaf never outlives its CA. */
  function Issued(cert: CaCert, names: Names, key: Key, now: Clock): Leaf {
    var expires := now + LEAF_VALIDITY;
    Leaf(cert, names, key, now - LEAF_BACKDATED, if expires > cert.notAfter then cert.notAfter else expires)
  }

  predicate Reusable(leaf: Leaf, names: Names, now: Clock) {
    leaf.names == names && leaf.notAfter > now + RENEWAL_WINDOW
  }

  datatype Material = Material(ca: CaCert, leaf: Leaf, key: Key)
  datatype Offer = Offer(ca: CaCert, caKey: Key, leaf: Leaf, leafKey: Key)

  // ---------------------------------------------------------------- the work done outside the writer

  datatype Signing = Refused | Reuse(material: Material) | Sign(offer: Offer)

  /** From the inputs read, either existing material or a candidate; `newCa` is a newly created CA. */
  function Prepare(before: Inputs, secrets: map<Id, Secret>, now: Clock, newCa: CaCert, newKey: Key): Signing {
    if before.names == [] || !Consistent(before) then Signing.Refused
    else if before.ca.Some? && !CaKeyValid(before.ca.value, secrets, now) then Signing.Refused
    else if before.established && !MaterialValid(before.ca.value, secrets, now) then Signing.Refused
    else if before.established && Reusable(before.ca.value.leaf.value, before.names, now) then
      Reuse(Stored(before.ca.value, secrets))
    else
      var cert := if before.ca.Some? then before.ca.value.cert else newCa;
      var key := if before.established then secrets[before.ca.value.leafKeyId.value].key else newKey;
      var leaf := Issued(cert, before.names, key, now);
      if InForce(cert, now) && LeafValid(leaf, key, cert, now) then Sign(Offer(cert, cert.key, leaf, key))
        else Signing.Refused
  }

  function Stored(row: CaRow, secrets: map<Id, Secret>): Material
    requires row.leaf.Some? && row.leafKeyId.Some? && row.leafKeyId.value in secrets
  {
    Material(row.cert, row.leaf.value, secrets[row.leafKeyId.value].key)
  }

  // ---------------------------------------------------------------- the writer transactions

  datatype Verdict = Error | Existing(material: Material) | Retry | Committed

  function Recheck(db: Db, before: Inputs, now: Clock): Verdict {
    var current := InputsOf(db);
    if !Consistent(current) then Error
    else if current.established && !MaterialValid(current.ca.value, db.secrets, now) then Error
    else if current.established && Reusable(current.ca.value.leaf.value, current.names, now) then
      Existing(Stored(current.ca.value, db.secrets))
    else if !current.established && current.ca.Some? && !CaKeyValid(current.ca.value, db.secrets, now) then Error
    else if current != before then Retry
    else Committed
  }

  /** The tables after the writes of a committed issuance; `caId` and `leafId` are fresh secret ids. */
  function Establish(db: Db, offer: Offer, caId: Id, leafId: Id): Db {
    var base := if db.ca.Some? then db.ca.value else CaRow(offer.ca, caId, None, None);
    var secrets := if db.ca.Some? then db.secrets else db.secrets[caId := Secret(CaKey, offer.caKey)];
    if db.marker then db.(ca := Some(base.(leaf := Some(offer.leaf))), secrets := secrets)
    else db.(marker := true, ca := Some(base.(leaf := Some(offer.leaf), leafKeyId := Some(leafId))),
             secrets := secrets[leafId := Secret(LeafKey, offer.leafKey)])
  }

  function CommitEnrollment(db: Db, before: Inputs, offer: Offer, now: Clock, caId: Id, leafId: Id): Db {
    if Recheck(db, before, now) == Committed then Establish(db, offer, caId, leafId) else db
  }

  /** `ensureInternalCA`: the first writer stores the key and the row, every later one returns the winner. */
  function CommitCa(db: Db, offer: CaCert, caId: Id): Db {
    if db.ca.Some? then db
    else db.(ca := Some(CaRow(offer, caId, None, None)), secrets := db.secrets[caId := Secret(CaKey, offer.key)])
  }

  class CaStore {
    var names: Names
    var marker: bool
    var ca: Option<CaRow>
    var secrets: map<Id, Secret>

    ghost function View(): Db
      reads this
    {
      Db(names, marker, ca, secrets)
    }

    constructor ()
      ensures View() == Db([], false, None, map[])
    {
      names, marker, ca, secrets := [], false, None, map[];
    }

    method WriteEnrollment(before: Inputs, offer: Offer, now: Clock, caId: Id, leafId: Id) returns (verdict: Verdict)
      requires before.names != []
      modifies this
      ensures verdict == Recheck(old(View()), before, now)
      ensures View() == CommitEnrollment(old(View()), before, offer, now, caId, leafId)
    {
      var current := InputsOf(Db(names, marker, ca, secrets));
      if !Consistent(current) {
        return Error;
      }
      if current.established {
        if !MaterialValid(current.ca.value, secrets, now) {
          return Error;
        }
        if Reusable(current.ca.value.leaf.value, current.names, now) {
          return Existing(Stored(current.ca.value, secrets));
        }
      } else if current.ca.Some? && !CaKeyValid(current.ca.value, secrets, now) {
        return Error;
      }
      if current != before {
        return Retry;
      }
      if current.ca.None? {
        secrets := secrets[caId := Secret(CaKey, offer.caKey)];
        ca := Some(CaRow(offer.ca, caId, None, None));
      }
      var storedLeafId := if current.ca.Some? then current.ca.value.leafKeyId else None;
      if !current.established {
        secrets := secrets[leafId := Secret(LeafKey, offer.leafKey)];
        storedLeafId := Some(leafId);
      }
      ca := Some(ca.value.(leaf := Some(offer.leaf), leafKeyId := storedLeafId));
      if !current.established {
        marker := true;
      }
      return Committed;
    }

    /** Refused exactly when a CA is stored whose key is missing or foreign or which is not in force. */
    method WriteInternalCa(offer: CaCert, caId: Id, now: Clock) returns (cert: Option<CaCert>)
      modifies this`ca, this`secrets
      ensures cert.None? <==>
              old(ca).Some? &&
              !(old(ca).value.keyId in old(secrets) &&
                old(secrets)[old(ca).value.keyId].key == old(ca).value.cert.key &&
                old(ca).value.cert.notBefore <= now < old(ca).value.cert.notAfter)
      ensures cert.Some? ==> ca.Some? && cert.value == ca.value.cert
      ensures View() == CommitCa(old(View()), offer, caId)
    {
      if ca.Some? {
        return if CaKeyValid(ca.value, secrets, now) then Some(ca.value.cert) else None;
      }
      secrets := secrets[caId := Secret(CaKey, offer.key)];
      ca := Some(CaRow(offer, caId, None, None));
      return Some(offer);
    }

    method UpdateHostnames(canonical: Names)
      modifies this`names
      ensures View() == old(View()).(names := canonical)
    {
      names := canonical;
    }
  }

  // ---------------------------------------------------------------- a store that was tampered with

  /** The stored CA key or the leaf with its key is missing, or does not belong to the stored CA. */
  predicate Tampered(db: Db)
    requires db.ca.Some?
  {
    var row := db.ca.value;
    || row.keyId !in db.secrets || db.secrets[row.keyId].key != row.cert.key
    || (db.marker && (row.leaf.None? || row.leafKeyId.None? || row.leafKeyId.value !in db.secrets ||
                      row.leaf.value.key != db.secrets[row.leafKeyId.value].key || row.leaf.value.issuer != row.cert))
    || (!db.marker && (row.leaf.Some? || row.leafKeyId.Some?))
  }

  /** Such a store is never used: nothing is reused, signed or committed. */
  lemma TamperedIsRefused(db: Db, before: Inputs, now: Clock, newCa: CaCert, newKey: Key)
    requires db.names != [] && db.ca.Some? && Tampered(db)
    ensures Prepare(InputsOf(db), db.secrets, now, newCa, newKey).Refused?
    ensures Recheck(db, before, now) == Error
  {
  }

  // ---------------------------------------------------------------- the end of a CA

  /** A leaf signed now is valid and ends in a year or with its CA, and it is good enough to be reused exactly while
      the CA outlives the renewal window. */
  lemma NewLeafReusableIff(cert: CaCert, names: Names, key: Key, now: Clock)
    requires InForce(cert, now)
    ensures LeafValid(Issued(cert, names, key, now), key, cert, now)
    ensures var days := 24 * 60 * 60;
            Issued(cert, names, key, now).notAfter in {cert.notAfter, now + 365 * days} &&
              Issued(cert, names, key, now).notAfter <= cert.notAfter &&
              Issued(cert, names, key, now).notAfter <= now + 365 * days
    ensures Reusable(Issued(cert, names, key, now), names, now) <==> now + RENEWAL_WINDOW < cert.notAfter
  {
  }

  /** A call that signs at `now` and commits, alone. */
  predicate SignsAndCommits(db: Db, offer: Offer, now: Clock, newCa: CaCert, newKey: Key, caId: Id, leafId: Id) {
    && caId != leafId && caId !in db.secrets && leafId !in db.secrets
    && Prepare(InputsOf(db), db.secrets, now, newCa, newKey) == Sign(offer)
    && Recheck(db, InputsOf(db), now) == Committed
  }

  /** So in the last days of a CA the next call does not reuse what this one stored: as long as CA and leaf are
      valid it signs and commits again, and once they are not it is refused. */
  lemma DyingCaIsSignedForEveryCall(db: Db, offer: Offer, now: Clock, later: Clock, newCa: CaCert, newKey: Key,
                                    caId: Id, leafId: Id)
    requires SignsAndCommits(db, offer, now, newCa, newKey, caId, leafId)
    requires now <= later && later + RENEWAL_WINDOW >= offer.ca.notAfter
    ensures var after := CommitEnrollment(db, InputsOf(db), offer, now, caId, leafId);
            && (Recheck(after, InputsOf(after), later) == Committed <==>
                InForce(offer.ca, later) && later <= offer.leaf.notAfter)
            && (Prepare(InputsOf(after), after.secrets, later, newCa, newKey).Sign? <==>
                InForce(offer.ca, later) && later <= offer.leaf.notAfter)
            && !Prepare(InputsOf(after), after.secrets, later, newCa, newKey).Reuse?
  {
    var after := CommitEnrollment(db, InputsOf(db), offer, now, caId, leafId);
    assert offer.leaf.names == db.names && after.names == db.names && after.marker;
    assert offer.leaf.notAfter <= offer.ca.notAfter;
    assert !Reusable(offer.leaf, db.names, later);
    assert after.ca.Some? && after.ca.value.leaf == Some(offer.leaf) && after.ca.value.cert == offer.ca;
  }

  /** A CA with a hundred seconds left: the call at 0 commits a leaf, and the call at 50 signs and commits another.
      */
  lemma TwoCallsSignTwice()
    ensures var ca := CaCert(1, 5, 0, 100); var db := Db(["a"], false, None, map[]);
            var offer := Offer(ca, 5, Issued(ca, ["a"], 8, 0), 8);
            var after := CommitEnrollment(db, InputsOf(db), offer, 0, 10, 11);
            && SignsAndCommits(db, offer, 0, ca, 8, 10, 11)
            && Prepare(InputsOf(after), after.secrets, 50, ca, 9).Sign?
            && Recheck(after, InputsOf(after), 50) == Committed
  {
    var ca, db := CaCert(1, 5, 0, 100), Db(["a"], false, None, map[]);
    var offer := Offer(ca, 5, Issued(ca, ["a"], 8, 0), 8);
    assert InputsOf(db) == Inputs(["a"], false, None);
    DyingCaIsSignedForEveryCall(db, offer, 0, 50, ca, 8, 10, 11);
  }
}
