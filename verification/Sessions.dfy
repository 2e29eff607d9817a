/**
 * Logins racing password changes. A login verifies a password outside the writer and inserts its session
 * inside it; resets and changes revoke sessions in the transaction that writes the new hash.
 */
module Sessions {
  import opened Options

  type Id = nat
  type Hash = string
  datatype User = User(hash: Hash, active: bool, changeRequired: bool)
  datatype Session = Session(user: Id, expiresAt: int, revokedAt: Option<int>)
  datatype Tables = Tables(users: map<Id, User>, sessions: map<Id, Session>)

  // ---------------------------------------------------------------- the transactions

  /** `CreateSessionForCredential`: only while the user is active and still has the hash that was verified. */
  predicate MayInsert(t: Tables, id: Id, user: Id, expected: Hash) {
    user in t.users && t.users[user].active && t.users[user].hash == expected && id !in t.sessions
  }

  function Inserted(t: Tables, id: Id, user: Id, expiresAt: int): Tables {
    t.(sessions := t.sessions[id := Session(user, expiresAt, None)])
  }

  /** Every live session of the user is revoked, except `keep`. */
  function RevokedBut(t: Tables, user: Id, keep: Option<Id>, at: int): map<Id, Session> {
    map s | s in t.sessions :: if t.sessions[s].user == user && t.sessions[s].revokedAt.None? && keep != Some(s)
                               then t.sessions[s].(revokedAt := Some(at)) else t.sessions[s]
  }

  predicate Authorizes(t: Tables, session: Id, user: Id, at: int) {
    && session in t.sessions && t.sessions[session].user == user
    && t.sessions[session].revokedAt.None? && t.sessions[session].expiresAt > at
  }

  /** A reset needs an active user; a change also needs a live, unexpired session of that user. */
  predicate MayMutate(t: Tables, user: Id, via: Option<Id>, at: int) {
    && user in t.users && t.users[user].active
    && (via.Some? ==> Authorizes(t, via.value, user, at))
  }

  function Mutated(t: Tables, user: Id, via: Option<Id>, hash: Hash, at: int): Tables
    requires user in t.users
  {
    Tables(t.users[user := t.users[user].(hash := hash, changeRequired := via.None?)], RevokedBut(t, user, via, at))
  }

  class AuthStore {
    var users: map<Id, User>
    var sessions: map<Id, Session>

    ghost function View(): Tables
      reads this
    {
      Tables(users, sessions)
    }

    constructor ()
      ensures View() == Tables(map[], map[])
    {
      users, sessions := map[], map[];
    }

    method CreateSessionForCredential(id: Id, user: Id, expiresAt: int, expectedHash: Hash) returns (ok: bool)
      modifies this`sessions
      ensures ok <==> user in users && users[user].active && users[user].hash == expectedHash && id !in old(sessions)
      ensures sessions == if ok then old(sessions)[id := Session(user, expiresAt, None)] else old(sessions)
      ensures View() == if ok then Inserted(old(View()), id, user, expiresAt) else old(View())
    {
      if user !in users || !users[user].active || users[user].hash != expectedHash || id in sessions {
        return false;
      }
      sessions := sessions[id := Session(user, expiresAt, None)];
      return true;
    }

    /** `passwordMutation`; `via` is the session that changes its own user's password, none for a reset. */
    method PasswordMutation(user: Id, via: Option<Id>, hash: Hash, at: int) returns (ok: bool)
      modifies this
      ensures ok <==>
              && user in old(users) && old(users)[user].active
              && (via.Some? ==>
                    && via.value in old(sessions) && old(sessions)[via.value].user == user
                    && old(sessions)[via.value].revokedAt.None? && at < old(sessions)[via.value].expiresAt)
      ensures ok ==> users == old(users)[user := User(hash, true, via.None?)] && sessions.Keys == old(sessions).Keys
      ensures ok ==> forall s :: s in old(sessions) ==>
                sessions[s] == if old(sessions)[s].user == user && old(sessions)[s].revokedAt.None? && via != Some(s)
                               then old(sessions)[s].(revokedAt := Some(at)) else old(sessions)[s]
      ensures View() == if ok then Mutated(old(View()), user, via, hash, at) else old(View())
    {
      if via.Some? {
        if via.value !in sessions {
          return false;
        }
        var session := sessions[via.value];
        if session.user != user || session.revokedAt.Some? || session.expiresAt <= at {
          return false;
        }
      }
      if user !in users || !users[user].active {
        return false;
      }
      users := users[user := users[user].(hash := hash, changeRequired := via.None?)];
      sessions := map s | s in sessions :: if sessions[s].user == user && sessions[s].revokedAt.None? && via != Some(s)
                                           then sessions[s].(revokedAt := Some(at)) else sessions[s];
      return true;
    }
  }

  // ---------------------------------------------------------------- runs

  /** Beside the tables: every password hash a user ever had in order, logins that have verified one of them and not
      yet inserted, the hash each session's login verified, and the session that made a user's latest change. */
  datatype Proof = Proof(user: Id, index: nat)
  datatype World = World(t: Tables, passwords: map<Id, seq<Hash>>, pending: map<Id, Proof>, born: map<Id, nat>,
                         changer: map<Id, Id>)

  datatype Step =
    | AddUser(user: Id, hash: Hash)
    | Verify(login: Id, user: Id, password: string)
    | Finish(login: Id, session: Id, expiresAt: int)
    | Reset(user: Id, hash: Hash, at: int)
    | Change(user: Id, session: Id, hash: Hash, at: int)
    | Logout(session: Id, at: int)
    | SetActive(user: Id, active: bool)

  function Appended(w: World, user: Id, hash: Hash): map<Id, seq<Hash>> {
    w.passwords[user := (if user in w.passwords then w.passwords[user] else []) + [hash]]
  }

  /** New hashes carry a fresh salt, so a user never gets one of their earlier hashes back. */
  predicate NewHash(w: World, user: Id, hash: Hash) {
    user in w.passwords ==> hash !in w.passwords[user]
  }

  function Rewritten(w: World, user: Id, via: Option<Id>, hash: Hash, at: int): World {
    if MayMutate(w.t, user, via, at) && NewHash(w, user, hash)
    then w.(t := Mutated(w.t, user, via, hash, at), passwords := Appended(w, user, hash),
            changer := if via.Some? then w.changer[user := via.value] else w.changer - {user})
    else w
  }

  function Next(w: World, s: Step, accepts: (string, Hash) -> bool): World {
    match s
    case AddUser(user, hash) => Added(w, user, hash)
    case Verify(login, user, password) => Verified(w, login, user, password, accepts)
    case Finish(login, session, expiresAt) => Finished(w, login, session, expiresAt)
    case Reset(user, hash, at) => Rewritten(w, user, None, hash, at)
    case Change(user, session, hash, at) => Rewritten(w, user, Some(session), hash, at)
    case Logout(session, at) => LoggedOut(w, session, at)
    case SetActive(user, active) => Activated(w, user, active)
  }

  function Added(w: World, user: Id, hash: Hash): World {
    if user in w.t.users || user in w.passwords then w
    else w.(t := w.t.(users := w.t.users[user := User(hash, true, false)]), passwords := w.passwords[user := [hash]])
  }

  /** The second half of a login: the session is inserted for the hash that was verified. */
  function Finished(w: World, login: Id, session: Id, expiresAt: int): World {
    if login in w.pending && Current(w, login) && session !in w.born &&
       MayInsert(w.t, session, w.pending[login].user, w.passwords[w.pending[login].user][w.pending[login].index])
    then w.(t := Inserted(w.t, session, w.pending[login].user, expiresAt),
            born := w.born[session := w.pending[login].index])
    else w
  }

  /** The verified hash is one the user has or had. */
  predicate Current(v: World, l: Id) {
    l in v.pending && v.pending[l].user in v.passwords && v.pending[l].index < |v.passwords[v.pending[l].user]|
  }

  /** The first half of a login: the password fits the hash the user has now. */
  function Verified(w: World, login: Id, user: Id, password: string, accepts: (string, Hash) -> bool): World {
    if user in w.t.users && w.t.users[user].active && accepts(password, w.t.users[user].hash) && user in w.passwords &&
      w.passwords[user] != []
    then w.(pending := w.pending[login := Proof(user, |w.passwords[user]| - 1)]) else w
  }

  function LoggedOut(w: World, session: Id, at: int): World {
    if session in w.t.sessions && w.t.sessions[session].revokedAt.None?
    then w.(t := w.t.(sessions := w.t.sessions[session := w.t.sessions[session].(revokedAt := Some(at))])) else w
  }

  function Activated(w: World, user: Id, active: bool): World {
    if user in w.t.users then w.(t := w.t.(users := w.t.users[user := w.t.users[user].(active := active)])) else w
  }

  function Run(w: World, steps: seq<Step>, accepts: (string, Hash) -> bool): World
    decreases |steps|
  {
    if steps == [] then w else Run(Next(w, steps[0], accepts), steps[1..], accepts)
  }

  ghost predicate Distinct(hashes: seq<Hash>) {
    forall i, k :: 0 <= i < k < |hashes| ==> hashes[i] != hashes[k]
  }

  /** The hashes of a user are distinct and the last one is current. */
  ghost predicate HashesOk(w: World) {
    && w.t.users.Keys == w.passwords.Keys
    && forall u :: u in w.passwords ==>
       w.passwords[u] != [] && w.passwords[u][|w.passwords[u]| - 1] == w.t.users[u].hash && Distinct(w.passwords[u])
  }

  ghost predicate ProofsOk(w: World) {
    && (forall l :: l in w.pending ==> Current(w, l))
    && (forall s :: s in w.t.sessions ==>
          s in w.born && w.t.sessions[s].user in w.passwords && w.born[s] < |w.passwords[w.t.sessions[s].user]|)
  }

  ghost predicate Recorded(w: World) {
    HashesOk(w) && ProofsOk(w)
  }

  predicate Live(w: World, s: Id) {
    s in w.t.sessions && w.t.sessions[s].revokedAt.None?
  }

  /** The session's login verified the hash that is current now, or the session itself made the latest change. */
  predicate Trusted(w: World, s: Id)
    requires s in w.t.sessions
  {
    var u := w.t.sessions[s].user;
    u in w.passwords && s in w.born && (w.born[s] == |w.passwords[u]| - 1 || (u in w.changer && w.changer[u] == s))
  }

  ghost predicate Safe(w: World) {
    Recorded(w) && forall s :: Live(w, s) ==> Trusted(w, s)
  }

  /** A login is noted exactly for an active user's fitting password, as a proof of the hash of that moment. */
  lemma VerifyIff(w: World, login: Id, user: Id, password: string, accepts: (string, Hash) -> bool)
    requires Recorded(w) && login !in w.pending
    ensures var v := Next(w, Verify(login, user, password), accepts);
            if user in w.t.users && w.t.users[user].active && accepts(password, w.t.users[user].hash)
            then v == w.(pending := w.pending[login := Proof(user, |w.passwords[user]| - 1)]) &&
                 w.passwords[user][|w.passwords[user]| - 1] == w.t.users[user].hash
            else v == w
  {
    assert user in w.t.users <==> user in w.passwords.Keys;
  }

  /** A change of password takes effect exactly through a live, unexpired session of the same active user; every
      other session of the user is dead after it, and nobody else's is touched. */
  lemma ChangeIff(w: World, user: Id, session: Id, hash: Hash, at: int, accepts: (string, Hash) -> bool)
    requires NewHash(w, user, hash)
    ensures var v := Next(w, Change(user, session, hash, at), accepts);
            && (v != w <==> user in w.t.users && w.t.users[user].active && session in w.t.sessions &&
                            w.t.sessions[session].user == user && w.t.sessions[session].revokedAt.None? &&
                            w.t.sessions[session].expiresAt > at)
            && (v != w ==>
                  && user in v.t.users && v.t.users[user].hash == hash && v.t.sessions.Keys == w.t.sessions.Keys
                  && forall x :: x in w.t.sessions && x != session ==>
                       if w.t.sessions[x].user == user then v.t.sessions[x].revokedAt.Some?
                       else v.t.sessions[x] == w.t.sessions[x])
  {
    var v := Next(w, Change(user, session, hash, at), accepts);
    if MayMutate(w.t, user, Some(session), at) {
      assert v.passwords[user][|v.passwords[user]| - 1] == hash;
      assert v.t.sessions.Keys == w.t.sessions.Keys;
    }
  }

  /** A logout ends exactly its session. */
  lemma LogoutIff(w: World, session: Id, at: int, accepts: (string, Hash) -> bool)
    ensures var v := Next(w, Logout(session, at), accepts);
            if session in w.t.sessions && w.t.sessions[session].revokedAt.None?
            then v == w.(t := w.t.(sessions := w.t.sessions[session := w.t.sessions[session].(revokedAt := Some(at))]))
            else v == w
  {
  }

  /** A login that verified an outdated hash never inserts a session. */
  lemma StaleLoginIsRefused(w: World, login: Id, session: Id, expiresAt: int, accepts: (string, Hash) -> bool)
    requires Recorded(w) && login in w.pending && w.pending[login].index < |w.passwords[w.pending[login].user]| - 1
    ensures Next(w, Finish(login, session, expiresAt), accepts) == w
  {
    var p := w.pending[login];
    assert w.passwords[p.user][p.index] != w.passwords[p.user][|w.passwords[p.user]| - 1];
  }

  lemma DistinctGrows(hashes: seq<Hash>, hash: Hash)
    requires Distinct(hashes) && hash !in hashes
    ensures Distinct(hashes + [hash])
  {
    assert forall i :: 0 <= i < |hashes| ==> hashes[i] in hashes;
  }

  lemma OnlyTheLast(hashes: seq<Hash>, i: nat)
    requires Distinct(hashes) && i < |hashes| && hashes[i] == hashes[|hashes| - 1]
    ensures i == |hashes| - 1
  {
  }

  lemma AppendKeepsHashes(w: World, v: World, user: Id, hash: Hash)
    requires HashesOk(w) && user in w.t.users && NewHash(w, user, hash) && v.passwords == Appended(w, user, hash)
    requires user in v.t.users && v.t.users == w.t.users[user := v.t.users[user]] && v.t.users[user].hash == hash
    ensures HashesOk(v)
  {
    assert user in w.passwords.Keys;
    DistinctGrows(w.passwords[user], hash);
    forall u | u in v.passwords
      ensures v.passwords[u] != [] && v.passwords[u][|v.passwords[u]| - 1] == v.t.users[u].hash &&
              Distinct(v.passwords[u])
    {
      assert u in w.passwords && u in w.t.users.Keys;
    }
    assert v.t.users.Keys == v.passwords.Keys;
  }

  /** No password history gets shorter, and proofs and sessions are those of before. */
  lemma AppendKeepsProofs(w: World, v: World)
    requires ProofsOk(w) && v.pending == w.pending && v.born == w.born
    requires forall u :: u in w.passwords ==> u in v.passwords && |v.passwords[u]| >= |w.passwords[u]|
    requires forall s :: s in v.t.sessions ==> s in w.t.sessions && v.t.sessions[s].user == w.t.sessions[s].user
    ensures ProofsOk(v)
  {
    forall l | l in v.pending
      ensures Current(v, l)
    {
      assert Current(w, l);
    }
  }

  /** Every other user's records are as before, and the rewriting session is noted. */
  ghost predicate SameElsewhere(w: World, v: World, user: Id, via: Option<Id>) {
    && (forall u :: u in w.passwords && u != user ==> u in v.passwords && v.passwords[u] == w.passwords[u])
    && (forall u :: u in w.changer && u != user ==> u in v.changer && v.changer[u] == w.changer[u])
    && v.born == w.born && user in v.passwords && (via.Some? ==> user in v.changer && v.changer[user] == via.value)
  }

  /** Of the user whose hash was rewritten, only the rewriting session may still be alive. */
  ghost predicate OthersGone(w: World, v: World, user: Id, via: Option<Id>) {
    forall x :: Live(v, x) ==>
      Live(w, x) && v.t.sessions[x].user == w.t.sessions[x].user && (v.t.sessions[x].user == user ==> via == Some(x))
  }

  lemma OthersGoneIsTrusted(w: World, v: World, user: Id, via: Option<Id>)
    requires (forall s :: Live(w, s) ==> Trusted(w, s)) && SameElsewhere(w, v, user, via) && OthersGone(w, v, user, via)
    ensures forall s :: Live(v, s) ==> Trusted(v, s)
  {
    forall s | Live(v, s)
      ensures Trusted(v, s)
    {
      assert Live(w, s) && Trusted(w, s);
    }
  }

  lemma RevokedButFacts(t: Tables, user: Id, keep: Option<Id>, at: int, x: Id)
    requires x in RevokedBut(t, user, keep, at)
    ensures var row := RevokedBut(t, user, keep, at)[x];
            && x in t.sessions && row.user == t.sessions[x].user
            && (row.revokedAt.None? ==> t.sessions[x].revokedAt.None? && (row.user == user ==> keep == Some(x)))
  {
  }

  lemma RewriteLeavesOneAlive(w: World, user: Id, via: Option<Id>, hash: Hash, at: int)
    requires MayMutate(w.t, user, via, at) && NewHash(w, user, hash)
    ensures OthersGone(w, Rewritten(w, user, via, hash, at), user, via)
  {
    var v := Rewritten(w, user, via, hash, at);
    assert v.t.sessions == RevokedBut(w.t, user, via, at);
    forall x | Live(v, x)
      ensures Live(w, x) && v.t.sessions[x].user == w.t.sessions[x].user &&
              (v.t.sessions[x].user == user ==> via == Some(x))
    {
      RevokedButFacts(w.t, user, via, at, x);
    }
  }

  lemma RewriteKeepsElsewhere(w: World, user: Id, via: Option<Id>, hash: Hash, at: int)
    requires MayMutate(w.t, user, via, at) && NewHash(w, user, hash)
    ensures SameElsewhere(w, Rewritten(w, user, via, hash, at), user, via)
  {
  }

  lemma RewriteKeepsSafe(w: World, user: Id, via: Option<Id>, hash: Hash, at: int)
    requires Safe(w) && MayMutate(w.t, user, via, at) && NewHash(w, user, hash)
    ensures Safe(Rewritten(w, user, via, hash, at))
  {
    var v := Rewritten(w, user, via, hash, at);
    RewriteKeepsRecorded(w, user, via, hash, at);
    RewriteLeavesOneAlive(w, user, via, hash, at);
    RewriteKeepsElsewhere(w, user, via, hash, at);
    OthersGoneIsTrusted(w, v, user, via);
  }

  lemma RewriteKeepsRecorded(w: World, user: Id, via: Option<Id>, hash: Hash, at: int)
    requires Recorded(w) && MayMutate(w.t, user, via, at) && NewHash(w, user, hash)
    ensures Recorded(Rewritten(w, user, via, hash, at))
  {
    RewriteKeepsHashes(w, user, via, hash, at);
    RewriteKeepsProofs(w, user, via, hash, at);
  }

  lemma RewriteKeepsHashes(w: World, user: Id, via: Option<Id>, hash: Hash, at: int)
    requires HashesOk(w) && MayMutate(w.t, user, via, at) && NewHash(w, user, hash)
    ensures HashesOk(Rewritten(w, user, via, hash, at))
  {
    AppendKeepsHashes(w, Rewritten(w, user, via, hash, at), user, hash);
  }

  lemma RewriteKeepsProofs(w: World, user: Id, via: Option<Id>, hash: Hash, at: int)
    requires ProofsOk(w) && MayMutate(w.t, user, via, at) && NewHash(w, user, hash)
    ensures ProofsOk(Rewritten(w, user, via, hash, at))
  {
    var v := Rewritten(w, user, via, hash, at);
    forall x | x in v.t.sessions
      ensures x in w.t.sessions && v.t.sessions[x].user == w.t.sessions[x].user
    {
      RevokedButFacts(w.t, user, via, at, x);
    }
    AppendKeepsProofs(w, v);
  }

  lemma FinishKeepsSafe(w: World, login: Id, session: Id, expiresAt: int)
    requires Safe(w)
    ensures Safe(Finished(w, login, session, expiresAt))
  {
    var v := Finished(w, login, session, expiresAt);
    if v != w {
      var p := w.pending[login];
      assert p.user in w.passwords.Keys;
      OnlyTheLast(w.passwords[p.user], p.index);
      assert forall l :: l in v.pending ==> Current(w, l);
      forall x | Live(v, x)
        ensures Trusted(v, x)
      {
        assert x != session ==> Live(w, x) && Trusted(w, x);
      }
    }
  }

  /** The same hashes and proofs, and no session more alive than before. */
  ghost predicate NoMoreAlive(w: World, v: World) {
    && v.passwords == w.passwords && v.born == w.born && v.changer == w.changer
    && v.t.users.Keys == w.t.users.Keys && (forall u :: u in w.t.users ==> v.t.users[u].hash == w.t.users[u].hash)
    && (forall x :: x in v.t.sessions ==> x in w.t.sessions && v.t.sessions[x].user == w.t.sessions[x].user)
    && (forall x :: Live(v, x) ==> Live(w, x))
    && (forall l :: l in v.pending && l in w.pending ==> v.pending[l] == w.pending[l] || Current(v, l))
    && (forall l :: l in v.pending ==> l in w.pending || Current(v, l))
  }

  lemma NoMoreAliveIsSafe(w: World, v: World)
    requires Safe(w) && NoMoreAlive(w, v)
    ensures Safe(v)
  {
    forall u | u in v.passwords
      ensures v.passwords[u] != [] && v.passwords[u][|v.passwords[u]| - 1] == v.t.users[u].hash &&
              Distinct(v.passwords[u])
    {
      assert u in w.passwords && u in w.t.users.Keys;
    }
    assert HashesOk(v);
    forall l | l in v.pending
      ensures Current(v, l)
    {
      assert l in w.pending ==> Current(w, l);
    }
    assert ProofsOk(v);
    forall x | Live(v, x)
      ensures Trusted(v, x)
    {
      assert Live(w, x) && Trusted(w, x);
    }
  }

  lemma VerifyIsQuiet(w: World, login: Id, user: Id, password: string, accepts: (string, Hash) -> bool)
    ensures NoMoreAlive(w, Verified(w, login, user, password, accepts))
  {
    var v := Verified(w, login, user, password, accepts);
    assert v.t == w.t;
  }

  lemma LogoutIsQuiet(w: World, session: Id, at: int)
    ensures NoMoreAlive(w, LoggedOut(w, session, at))
  {
    var v := LoggedOut(w, session, at);
    assert v.pending == w.pending;
  }

  lemma SetActiveIsQuiet(w: World, user: Id, active: bool)
    ensures NoMoreAlive(w, Activated(w, user, active))
  {
    var v := Activated(w, user, active);
    assert v.t.users.Keys == w.t.users.Keys && v.t.sessions == w.t.sessions && v.pending == w.pending;
  }

  lemma VerifyKeepsSafe(w: World, login: Id, user: Id, password: string, accepts: (string, Hash) -> bool)
    requires Safe(w)
    ensures Safe(Verified(w, login, user, password, accepts))
  {
    VerifyIsQuiet(w, login, user, password, accepts);
    NoMoreAliveIsSafe(w, Verified(w, login, user, password, accepts));
  }

  lemma LogoutKeepsSafe(w: World, session: Id, at: int)
    requires Safe(w)
    ensures Safe(LoggedOut(w, session, at))
  {
    LogoutIsQuiet(w, session, at);
    NoMoreAliveIsSafe(w, LoggedOut(w, session, at));
  }

  lemma SetActiveKeepsSafe(w: World, user: Id, active: bool)
    requires Safe(w)
    ensures Safe(Activated(w, user, active))
  {
    SetActiveIsQuiet(w, user, active);
    NoMoreAliveIsSafe(w, Activated(w, user, active));
  }

  lemma AddUserKeepsSafe(w: World, user: Id, hash: Hash)
    requires Safe(w)
    ensures Safe(Added(w, user, hash))
  {
    AddUserKeepsHashes(w, user, hash);
    AppendKeepsProofs(w, Added(w, user, hash));
    AddUserKeepsTrust(w, user, hash);
  }

  lemma AddUserKeepsTrust(w: World, user: Id, hash: Hash)
    requires forall x :: Live(w, x) ==> Trusted(w, x)
    ensures forall x :: Live(Added(w, user, hash), x) ==> Trusted(Added(w, user, hash), x)
  {
    var v := Added(w, user, hash);
    forall x | Live(v, x)
      ensures Trusted(v, x)
    {
      assert Live(w, x) && Trusted(w, x);
    }
  }

  lemma AddUserKeepsHashes(w: World, user: Id, hash: Hash)
    requires HashesOk(w)
    ensures HashesOk(Added(w, user, hash))
  {
    var v := Added(w, user, hash);
    forall u | u in v.passwords
      ensures u in v.t.users && v.passwords[u] != [] && v.passwords[u][|v.passwords[u]| - 1] == v.t.users[u].hash &&
              Distinct(v.passwords[u])
    {
      assert u in w.passwords ==> u in w.t.users.Keys;
    }
    assert v.t.users.Keys == v.passwords.Keys;
  }

  lemma LoginsKeepSafe(w: World, s: Step, accepts: (string, Hash) -> bool)
    requires Safe(w) && (s.AddUser? || s.Verify? || s.Finish?)
    ensures Safe(Next(w, s, accepts))
  {
    match s {
      case AddUser(user, hash) => AddUserKeepsSafe(w, user, hash);
      case Verify(login, user, password) => VerifyKeepsSafe(w, login, user, password, accepts);
      case Finish(login, session, expiresAt) => FinishKeepsSafe(w, login, session, expiresAt);
      case _ =>
    }
  }

  lemma PasswordsKeepSafe(w: World, user: Id, via: Option<Id>, hash: Hash, at: int)
    requires Safe(w)
    ensures Safe(Rewritten(w, user, via, hash, at))
  {
    if MayMutate(w.t, user, via, at) && NewHash(w, user, hash) {
      RewriteKeepsSafe(w, user, via, hash, at);
    }
  }

  lemma NextKeepsSafe(w: World, s: Step, accepts: (string, Hash) -> bool)
    requires Safe(w)
    ensures Safe(Next(w, s, accepts))
  {
    if s.AddUser? || s.Verify? || s.Finish? {
      LoginsKeepSafe(w, s, accepts);
    } else if s.Reset? || s.Change? {
      PasswordsKeepSafe(w, s.user, if s.Change? then Some(s.session) else None, s.hash, s.at);
    } else {
      EndingsKeepSafe(w, s, accepts);
    }
  }

  lemma EndingsKeepSafe(w: World, s: Step, accepts: (string, Hash) -> bool)
    requires Safe(w) && (s.Logout? || s.SetActive?)
    ensures Safe(Next(w, s, accepts))
  {
    match s {
      case Logout(session, at) => LogoutKeepsSafe(w, session, at);
      case SetActive(user, active) => SetActiveKeepsSafe(w, user, active);
      case _ =>
    }
  }

  lemma {:induction false} RunKeepsSafe(w: World, steps: seq<Step>, accepts: (string, Hash) -> bool)
    requires Safe(w)
    ensures Safe(Run(w, steps, accepts))
    decreases |steps|
  {
    if steps != [] {
      NextKeepsSafe(w, steps[0], accepts);
      RunKeepsSafe(Next(w, steps[0], accepts), steps[1..], accepts);
    }
  }

  // ---------------------------------------------------------------- the update that revokes nothing

  /** `UpdateUser` with a password patch writes the hash and leaves sessions alone. */
  function Overwritten(w: World, user: Id, hash: Hash): World
    requires user in w.t.users
  {
    w.(t := w.t.(users := w.t.users[user := w.t.users[user].(hash := hash)]), passwords := Appended(w, user, hash),
       changer := w.changer - {user})
  }

  /** It keeps sessions trustworthy exactly when the user has no live session. */
  lemma OverwriteIsSafeIff(w: World, user: Id, hash: Hash)
    requires Safe(w) && user in w.t.users && NewHash(w, user, hash)
    ensures Safe(Overwritten(w, user, hash)) <==> forall s :: Live(w, s) ==> w.t.sessions[s].user != user
  {
    var v := Overwritten(w, user, hash);
    OverwriteKeepsRecorded(w, user, hash);
    forall s
      ensures Live(v, s) <==> Live(w, s)
      ensures Live(w, s) ==> (Trusted(v, s) <==> w.t.sessions[s].user != user)
    {
      if Live(w, s) {
        assert Trusted(w, s);
      }
    }
  }

  lemma OverwriteKeepsRecorded(w: World, user: Id, hash: Hash)
    requires Recorded(w) && user in w.t.users && NewHash(w, user, hash)
    ensures Recorded(Overwritten(w, user, hash))
  {
    var v := Overwritten(w, user, hash);
    AppendKeepsHashes(w, v, user, hash);
    AppendKeepsProofs(w, v);
  }

  const NOBODY := World(Tables(map[], map[]), map[], map[], map[], map[])

  /** A user logs in; an administrator patches the password; the session opened with the old one is still alive. */
  lemma PatchLeavesSessionAlive(password: string, hash: Hash, other: Hash, accepts: (string, Hash) -> bool)
    requires accepts(password, hash) && hash != other
    ensures var w := Run(NOBODY, [AddUser(1, hash), Verify(5, 1, password), Finish(5, 9, 100)], accepts);
            1 in w.t.users && Safe(w) && Live(w, 9) && Live(Overwritten(w, 1, other), 9) &&
              !Safe(Overwritten(w, 1, other))
  {
    var steps := [AddUser(1, hash), Verify(5, 1, password), Finish(5, 9, 100)];
    var users := map[1 := User(hash, true, false)];
    var w1 := World(Tables(users, map[]), map[1 := [hash]], map[], map[], map[]);
    var w2 := w1.(pending := map[5 := Proof(1, 0)]);
    var w3 := w2.(t := Tables(users, map[9 := Session(1, 100, None)]), born := map[9 := 0]);
    assert Next(NOBODY, steps[0], accepts) == w1 && Next(w1, steps[1], accepts) == w2 &&
           Next(w2, steps[2], accepts) == w3;
    assert steps[1..][1..] == steps[2..] && steps[2..][1..] == [];
    assert Run(w2, steps[2..], accepts) == w3;
    assert Run(w1, steps[1..], accepts) == w3;
    RunKeepsSafe(NOBODY, steps, accepts);
    assert Live(w3, 9) && w3.t.sessions[9].user == 1;
    OverwriteIsSafeIff(w3, 1, other);
  }
}
