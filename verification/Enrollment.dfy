/**
 * The enrollment tables of a PRIMARY: tokens, node credentials, enrolled nodes, grants and snapshot
 * acknowledgements, with every transaction that writes them. A failing transaction leaves no trace.
 */
module Enrollment {
  import opened Options

  type Id = nat
  type Clock = int

  const HASH_VERSION := "sha256-v1"

  // Tokens are looked up by their unique selector; here the selector is the key.
  datatype Token = Token(hash: string, version: string, owner: Id, expiresAt: Clock, consumedAt: Option<Clock>,
                         consumedBy: Option<Id>, revokedAt: Option<Clock>)
  datatype Credential = Credential(node: Id, hash: string, version: string, createdAt: Clock, revokedAt: Option<Clock>)
  datatype EnrolledNode = EnrolledNode(installation: Id, primary: Id, credential: Id, enrolledAt: Clock, attempt: Id,
                                       revokedAt: Option<Clock>, unlinkedAt: Option<Clock>, lastSeen: Option<Clock>,
                                       ipv4: Option<string>, ipv6: Option<string>)
  datatype Grant = Grant(token: Id, installation: Id, node: Id, primary: Id, generation: nat, recipient: seq<bv8>,
                         digest: seq<bv8>, payload: seq<bv8>, createdAt: Clock, expiresAt: Clock)
  datatype Ack = Ack(snapshotVersion: int, replicationVersion: int, revision: Id, generation: nat,
                     appliedAt: Clock, receivedAt: Clock)
  datatype AckKey = AckKey(node: Id, contentHash: string)

  datatype Role = Standalone | Primary | PrimaryWithNodes | OtherRole
  datatype Identity = Identity(primary: Id, role: Role, generation: nat, latest: nat)

  datatype Tables = Tables(tokens: map<Id, Token>, credentials: map<Id, Credential>, nodes: map<Id, EnrolledNode>,
                           grants: map<Id, Grant>, acks: map<AckKey, Ack>, identity: Identity)

  /** An installation that has enrolled nobody yet. */
  function Fresh(identity: Identity): Tables {
    Tables(map[], map[], map[], map[], map[], identity)
  }

  /** One exchange: the token with the hash of the presented secret, the identities, the recipient's key and the
      verified preview, the issued credential and the sealed payload. `issuable` says whether credential, cluster
      key and seal could be made. */
  datatype Exchange = Exchange(token: Id, secretHash: string, attempt: Id, installation: Id, node: Id, primary: Id,
                               generation: nat, recipient: seq<bv8>, digest: seq<bv8>, credential: Id,
                               credentialHash: string, version: string, payload: seq<bv8>, now: Clock, ttl: int,
                               issuable: bool)

  function Coalesce<T>(a: Option<T>, b: Option<T>): Option<T> {
    if a.Some? then a else b
  }

  // ---------------------------------------------------------------- the four writes of an exchange

  /** The credential row of the node, if node and credential point at each other. */
  predicate Joined(t: Tables, node: Id) {
    node in t.nodes && t.nodes[node].credential in t.credentials && t.credentials[t.nodes[node].credential].node == node
  }

  function NewCredential(q: Exchange): Credential {
    Credential(q.node, q.credentialHash, q.version, q.now, None)
  }

  /** A revoked node's row is re-keyed in place; a node without a row gets one; a live node is refused. */
  function PutCredential(t: Tables, q: Exchange): Option<Tables> {
    if !Joined(t, q.node) then
      if q.credential in t.credentials || exists c :: c in t.credentials && t.credentials[c].node == q.node then None
      else Some(t.(credentials := t.credentials[q.credential := NewCredential(q)]))
    else
      var existing := t.nodes[q.node].credential;
      if t.nodes[q.node].revokedAt.None? || (q.credential in t.credentials && q.credential != existing) then None
      else Some(t.(credentials := (t.credentials - {existing})[q.credential := NewCredential(q)]))
  }

  /** The unique indexes on credential and attempt, against every other node. */
  predicate Unclaimed(t: Tables, q: Exchange) {
    forall n :: n in t.nodes && n != q.node ==> t.nodes[n].credential != q.credential && t.nodes[n].attempt != q.attempt
  }

  function PutNode(t: Tables, q: Exchange, rotated: Option<Id>): Option<Tables> {
    if !Unclaimed(t, q) then None
    else if rotated.Some? then
      if rotated.value == q.node && q.node in t.nodes && t.nodes[q.node].installation == q.installation &&
        t.nodes[q.node].revokedAt.Some?
      then Some(t.(nodes := t.nodes[q.node := t.nodes[q.node].(primary := q.primary, credential := q.credential,
                                      enrolledAt := q.now, attempt := q.attempt, revokedAt := None,
                                        unlinkedAt := None)]))
      else None
    else if q.node in t.nodes || exists n :: n in t.nodes && t.nodes[n].installation == q.installation then None
    else Some(t.(nodes := t.nodes[q.node := EnrolledNode(q.installation, q.primary, q.credential, q.now, q.attempt,
                                                         None, None, None, None, None)]))
  }

  function NewGrant(q: Exchange): Grant {
    Grant(q.token, q.installation, q.node, q.primary, q.generation, q.recipient, q.digest, q.payload, q.now,
          q.now + q.ttl)
  }

  function PutGrant(t: Tables, q: Exchange): Option<Tables> {
    if q.generation == 0 || q.payload == [] || q.ttl <= 0 || q.attempt in t.grants || q.token !in t.tokens ||
       exists a :: a in t.grants && t.grants[a].token == q.token
    then None
    else Some(t.(grants := t.grants[q.attempt := NewGrant(q)]))
  }

  function Consume(t: Tables, q: Exchange): Option<Tables> {
    if q.token !in t.tokens || t.tokens[q.token].consumedAt.Some? || t.tokens[q.token].revokedAt.Some? then None
    else Some(t.(tokens :=
                 t.tokens[q.token := t.tokens[q.token].(consumedAt := Some(q.now), consumedBy := Some(q.attempt))]))
  }

  predicate TokenAccepts(t: Tables, token: Id, hash: string) {
    token in t.tokens && t.tokens[token].version == HASH_VERSION && t.tokens[token].hash == hash
  }

  /** The first exchange makes a primary one with nodes, at exactly the generation that was verified. */
  function Transition(t: Tables, q: Exchange): Option<Tables> {
    if t.identity.role != Primary then Some(t)
    else if q.generation == 0 || t.identity.generation != q.generation || t.identity.latest != q.generation then None
    else Some(t.(identity := t.identity.(role := PrimaryWithNodes)))
  }

  /** The installation is the primary the request expects, at its newest generation. */
  predicate Expected(t: Tables, q: Exchange) {
    && t.identity.primary == q.primary && t.identity.generation == q.generation && t.identity.latest == q.generation
    && (t.identity.role == Primary || t.identity.role == PrimaryWithNodes)
  }

  predicate Presented(t: Tables, q: Exchange) {
    TokenAccepts(t, q.token, q.secretHash) && Expected(t, q)
  }

  /** An exchange writes only when its token was never consumed. */
  predicate MayIssue(t: Tables, q: Exchange) {
    && Presented(t, q) && q.issuable
    && t.tokens[q.token].consumedAt.None? && t.tokens[q.token].consumedBy.None?
    && t.tokens[q.token].expiresAt > q.now && t.tokens[q.token].revokedAt.None?
  }

  function Issued(t: Tables, q: Exchange): Option<Tables> {
    if !MayIssue(t, q) then None
    else match PutCredential(t, q)
      case None => None
      case Some(t1) => match PutNode(t1, q, if Joined(t, q.node) then Some(q.node) else None)
        case None => None
        case Some(t2) => match PutGrant(t2, q)
          case None => None
          case Some(t3) => match Consume(t3, q)
            case None => None
            case Some(t4) => Transition(t4, q)
  }

  /** The stored grant is the one this attempt was given, for the same recipient and preview, and has not run out.
      */
  predicate MatchesRetry(g: Grant, q: Exchange) {
    && g.token == q.token && g.installation == q.installation && g.node == q.node && g.primary == q.primary
    && g.generation == q.generation && g.recipient == q.recipient && g.digest == q.digest
    && g.expiresAt > q.now && g.payload != []
  }

  /** A consumed token still answers the attempt that consumed it, with the stored payload and without writing. */
  predicate MayRetry(t: Tables, q: Exchange) {
    && Presented(t, q) && t.tokens[q.token].consumedAt.Some? && t.tokens[q.token].consumedBy == Some(q.attempt)
    && q.attempt in t.grants && MatchesRetry(t.grants[q.attempt], q)
  }

  function Answer(t: Tables, q: Exchange): Option<seq<bv8>> {
    if MayRetry(t, q) then Some(t.grants[q.attempt].payload)
    else if Issued(t, q).Some? then Some(q.payload)
    else None
  }

  /** The token row of an enrollable installation; a standalone one becomes a primary with it. */
  function TokenCreated(t: Tables, token: Id, row: Token): Tables {
    if token in t.tokens || row.version != HASH_VERSION || t.identity.role == OtherRole ||
      t.identity.generation < t.identity.latest
    then t
    else t.(tokens := t.tokens[token := row.(consumedAt := None, consumedBy := None, revokedAt := None)],
            identity := t.identity.(role := if t.identity.role == Standalone then Primary else t.identity.role))
  }

  // ---------------------------------------------------------------- tokens

  predicate Spendable(t: Tables, token: Id, hash: string, now: Clock) {
    TokenAccepts(t, token, hash) && t.tokens[token].expiresAt > now && t.tokens[token].consumedAt.None? &&
      t.tokens[token].revokedAt.None?
  }

  function Checked(t: Tables, token: Id, hash: string, now: Clock, consume: bool): Tables {
    if Spendable(t, token, hash, now) && consume
    then t.(tokens := t.tokens[token := t.tokens[token].(consumedAt := Some(now))])
    else t
  }

  function Revoked(t: Tables, token: Id, owner: Id, now: Clock): Tables {
    if token in t.tokens && t.tokens[token].owner == owner
    then t.(tokens := t.tokens[token := t.tokens[token].(revokedAt := Coalesce(t.tokens[token].revokedAt, Some(now)))])
    else t
  }

  predicate Granted(t: Tables, token: Id) {
    exists a :: a in t.grants && t.grants[a].token == token
  }

  /** Only a token without a grant goes, and only once it was revoked or ran out unconsumed. */
  predicate Deletable(t: Tables, token: Id, owner: Id, now: Clock) {
    token in t.tokens && t.tokens[token].owner == owner && !Granted(t, token) &&
    (t.tokens[token].revokedAt.Some? || (t.tokens[token].consumedAt.None? && t.tokens[token].expiresAt <= now))
  }

  // ---------------------------------------------------------------- nodes

  function RevokedCredentials(t: Tables, node: Option<Id>, now: Clock): map<Id, Credential> {
    map c | c in t.credentials :: if node.None? || t.credentials[c].node == node.value
                                  then t.credentials[c].(revokedAt := Coalesce(t.credentials[c].revokedAt, Some(now)))
                                  else t.credentials[c]
  }

  function Unlinked(t: Tables, node: Id, now: Clock): Tables {
    if node !in t.nodes then t
    else
      var row := t.nodes[node];
      t.(credentials := RevokedCredentials(t, Some(node), now),
         nodes :=
           t.nodes[node :=
                   row.(revokedAt := Coalesce(row.revokedAt, Some(now)),
                        unlinkedAt := Coalesce(row.unlinkedAt, Some(now)))])
  }

  /** A demotion or promotion of the primary ends every relationship but keeps the rows. */
  function Retired(t: Tables, now: Clock): Tables {
    t.(credentials := RevokedCredentials(t, None, now),
       nodes := map n | n in t.nodes :: t.nodes[n].(revokedAt := Coalesce(t.nodes[n].revokedAt, Some(now))))
  }

  function Seen(t: Tables, node: Id, now: Clock, ipv4: Option<string>, ipv6: Option<string>): Tables {
    if node in t.nodes && t.nodes[node].revokedAt.None? && t.nodes[node].unlinkedAt.None?
    then t.(nodes := t.nodes[node := t.nodes[node].(lastSeen := Some(now), ipv4 := Coalesce(ipv4, t.nodes[node].ipv4),
                                                    ipv6 := Coalesce(ipv6, t.nodes[node].ipv6))])
    else t
  }

  /** `sqliteAckCredential`: the credential, its node, the node's grant and the grant's token all exist and agree.
      */
  predicate Lineage(t: Tables, node: Id) {
    && Joined(t, node) && t.nodes[node].attempt in t.grants
    && var g := t.grants[t.nodes[node].attempt];
       && g.node == node && g.installation == t.nodes[node].installation && g.primary == t.nodes[node].primary
       && g.token in t.tokens
  }

  /** Any revocation along the lineage counts; consumption of the token does not. */
  predicate LineageRevoked(t: Tables, node: Id)
    requires Lineage(t, node)
  {
    t.credentials[t.nodes[node].credential].revokedAt.Some? || t.nodes[node].revokedAt.Some? ||
    t.tokens[t.grants[t.nodes[node].attempt].token].revokedAt.Some?
  }

  /** This installation still leads, at the generation the node was enrolled for. */
  predicate Leads(t: Tables, node: Id)
    requires Lineage(t, node)
  {
    && (t.identity.role == Primary || t.identity.role == PrimaryWithNodes)
    && t.identity.generation > 0 && t.identity.generation == t.identity.latest
    && t.nodes[node].primary == t.identity.primary
    && t.grants[t.nodes[node].attempt].generation == t.identity.generation
  }

  predicate Acknowledges(t: Tables, node: Id) {
    Lineage(t, node) && !LineageRevoked(t, node) && Leads(t, node)
  }

  /** `proven` says whether the key lineage and the published snapshot match the acknowledgement. */
  function Acknowledged(t: Tables, key: AckKey, ack: Ack, proven: bool): Tables {
    if Acknowledges(t, key.node) && proven then t.(acks := t.acks[key := ack]) else t
  }

  datatype AckAnswer = Recorded | Denied | Withdrawn

  // ---------------------------------------------------------------- the store

  class EnrollmentStore {
    var tokens: map<Id, Token>
    var credentials: map<Id, Credential>
    var nodes: map<Id, EnrolledNode>
    var grants: map<Id, Grant>
    var acks: map<AckKey, Ack>
    var identity: Identity
    // The node whose credential the running exchange has re-keyed.
    var rotatedNode: Option<Id>

    ghost function View(): Tables
      reads this
    {
      Tables(tokens, credentials, nodes, grants, acks, identity)
    }

    constructor (identity: Identity)
      ensures View() == Fresh(identity)
    {
      tokens, credentials, nodes, grants, acks := map[], map[], map[], map[], map[];
      this.identity, rotatedNode := identity, None;
    }

    method CreateNodeCredential(q: Exchange) returns (ok: bool)
      requires rotatedNode == None
      modifies this`credentials, this`rotatedNode
      ensures ok <==> PutCredential(old(View()), q).Some?
      ensures View() == PutCredential(old(View()), q).GetOr(old(View()))
      ensures rotatedNode == if ok && Joined(old(View()), q.node) then Some(q.node) else None
    {
      if q.node in nodes && nodes[q.node].credential in credentials &&
        credentials[nodes[q.node].credential].node == q.node {
        var existing := nodes[q.node].credential;
        if nodes[q.node].revokedAt.None? || (q.credential in credentials && q.credential != existing) {
          return false;
        }
        credentials := (credentials - {existing})[q.credential := NewCredential(q)];
        rotatedNode := Some(q.node);
        return true;
      }
      if q.credential in credentials || exists c :: c in credentials && credentials[c].node == q.node {
        return false;
      }
      credentials := credentials[q.credential := NewCredential(q)];
      return true;
    }

    method CreateEnrolledNode(q: Exchange) returns (ok: bool)
      modifies this`nodes
      ensures ok <==> PutNode(old(View()), q, rotatedNode).Some?
      ensures View() == PutNode(old(View()), q, rotatedNode).GetOr(old(View()))
    {
      if exists n ::
        n in nodes && n != q.node && (nodes[n].credential == q.credential || nodes[n].attempt == q.attempt) {
        return false;
      }
      if rotatedNode.Some? {
        if rotatedNode.value != q.node || q.node !in nodes || nodes[q.node].installation != q.installation ||
          nodes[q.node].revokedAt.None? {
          return false;
        }
        nodes := nodes[q.node := nodes[q.node].(primary := q.primary, credential := q.credential, enrolledAt := q.now,
                                                attempt := q.attempt, revokedAt := None, unlinkedAt := None)];
        return true;
      }
      if q.node in nodes || exists n :: n in nodes && nodes[n].installation == q.installation {
        return false;
      }
      nodes :=
        nodes[q.node :=
              EnrolledNode(q.installation, q.primary, q.credential, q.now, q.attempt, None, None, None, None, None)];
      return true;
    }

    method CreateEnrollmentGrant(q: Exchange) returns (ok: bool)
      modifies this`grants
      ensures ok <==> PutGrant(old(View()), q).Some?
      ensures View() == PutGrant(old(View()), q).GetOr(old(View()))
    {
      if q.generation == 0 || q.payload == [] || q.ttl <= 0 || q.attempt in grants || q.token !in tokens {
        return false;
      }
      if exists a :: a in grants && grants[a].token == q.token {
        return false;
      }
      grants := grants[q.attempt := NewGrant(q)];
      return true;
    }

    method ConsumeEnrollmentToken(q: Exchange) returns (ok: bool)
      modifies this`tokens
      ensures ok <==> Consume(old(View()), q).Some?
      ensures View() == Consume(old(View()), q).GetOr(old(View()))
    {
      if q.token !in tokens || tokens[q.token].consumedAt.Some? || tokens[q.token].revokedAt.Some? {
        return false;
      }
      tokens := tokens[q.token := tokens[q.token].(consumedAt := Some(q.now), consumedBy := Some(q.attempt))];
      return true;
    }

    method TransitionPrimaryToWithNodes(q: Exchange) returns (ok: bool)
      modifies this`identity
      ensures ok <==> Transition(old(View()), q).Some?
      ensures View() == Transition(old(View()), q).GetOr(old(View()))
    {
      if identity.role != Primary {
        return true;
      }
      if q.generation == 0 || identity.generation != q.generation || identity.latest != q.generation {
        return false;
      }
      identity := identity.(role := PrimaryWithNodes);
      return true;
    }

    /** An exchange: a retry reads the stored payload; otherwise all writes happen, or none. */
    method IssueGrant(q: Exchange) returns (payload: Option<seq<bv8>>)
      modifies this
      ensures payload == Answer(old(View()), q)
      ensures View() == Issued(old(View()), q).GetOr(old(View()))
    {
      var t := Tables(tokens, credentials, nodes, grants, acks, identity);
      if !Presented(t, q) {
        return None;
      }
      var token := tokens[q.token];
      if token.consumedAt.Some? {
        if token.consumedBy != Some(q.attempt) || q.attempt !in grants || !MatchesRetry(grants[q.attempt], q) {
          return None;
        }
        return Some(grants[q.attempt].payload);
      }
      if token.consumedBy.Some? || token.expiresAt <= q.now || token.revokedAt.Some? || !q.issuable {
        return None;
      }
      var issued := WriteGrant(q);
      return if issued then Some(q.payload) else None;
    }

    method WriteGrant(q: Exchange) returns (ok: bool)
      requires MayIssue(View(), q)
      modifies this
      ensures ok <==> Issued(old(View()), q).Some?
      ensures View() == Issued(old(View()), q).GetOr(old(View()))
    {
      var savedTokens, savedCredentials, savedNodes, savedGrants := tokens, credentials, nodes, grants;
      rotatedNode := None;
      ok := CreateNodeCredential(q);
      if ok {
        ok := CreateEnrolledNode(q);
      }
      if ok {
        ok := CreateEnrollmentGrant(q);
      }
      if ok {
        ok := ConsumeEnrollmentToken(q);
      }
      if ok {
        ok := TransitionPrimaryToWithNodes(q);
      }
      if !ok {
        tokens, credentials, nodes, grants := savedTokens, savedCredentials, savedNodes, savedGrants;
      }
    }

    method CreateEnrollmentToken(token: Id, row: Token) returns (ok: bool)
      modifies this`tokens, this`identity
      ensures View() == TokenCreated(old(View()), token, row)
      ensures ok <==> token !in old(tokens) && token in tokens
    {
      if row.version != HASH_VERSION || identity.role == OtherRole || identity.generation < identity.latest {
        return false;
      }
      if token in tokens {
        return false;
      }
      if identity.role == Standalone {
        identity := identity.(role := Primary);
      }
      tokens := tokens[token := row.(consumedAt := None, consumedBy := None, revokedAt := None)];
      return true;
    }

    method CheckEnrollmentToken(token: Id, hash: string, now: Clock, consume: bool) returns (ok: bool)
      modifies this`tokens
      ensures ok <==> Spendable(old(View()), token, hash, now)
      ensures View() == Checked(old(View()), token, hash, now, consume)
    {
      if token !in tokens {
        return false;
      }
      var row := tokens[token];
      if row.version != HASH_VERSION || row.hash != hash || row.expiresAt <= now || row.consumedAt.Some? ||
        row.revokedAt.Some? {
        return false;
      }
      if consume {
        tokens := tokens[token := row.(consumedAt := Some(now))];
      }
      return true;
    }

    /** The first revocation stands; a token of another owner is left alone. */
    method RevokeEnrollmentToken(token: Id, owner: Id, now: Clock)
      modifies this`tokens
      ensures View() == Revoked(old(View()), token, owner, now)
    {
      if token in tokens && tokens[token].owner == owner {
        tokens := tokens[token := tokens[token].(revokedAt := Coalesce(tokens[token].revokedAt, Some(now)))];
      }
    }

    method DeleteEnrollmentToken(token: Id, owner: Id, now: Clock) returns (ok: bool)
      modifies this`tokens
      ensures ok <==> Deletable(old(View()), token, owner, now)
      ensures View() == if ok then old(View()).(tokens := old(tokens) - {token}) else old(View())
    {
      if token !in tokens || tokens[token].owner != owner {
        return false;
      }
      if exists a :: a in grants && grants[a].token == token {
        return false;
      }
      if tokens[token].revokedAt.None? && (tokens[token].consumedAt.Some? || tokens[token].expiresAt > now) {
        return false;
      }
      tokens := tokens - {token};
      return true;
    }

    /** Repeated unlinks answer the first unlink's time. */
    method UnlinkEnrolledNode(node: Id, now: Clock) returns (at: Option<Clock>)
      modifies this`credentials, this`nodes
      ensures at.Some? <==> node in old(nodes)
      ensures at.Some? ==> at == Coalesce(old(nodes)[node].unlinkedAt, Some(now))
      ensures View() == Unlinked(old(View()), node, now)
    {
      if node !in nodes {
        return None;
      }
      credentials := RevokedCredentials(Tables(tokens, credentials, nodes, grants, acks, identity), Some(node), now);
      var row := nodes[node];
      nodes :=
        nodes[node :=
              row.(revokedAt := Coalesce(row.revokedAt, Some(now)), unlinkedAt := Coalesce(row.unlinkedAt, Some(now)))];
      return nodes[node].unlinkedAt;
    }

    method RecordNodeHeartbeat(node: Id, now: Clock, ipv4: Option<string>, ipv6: Option<string>)
      modifies this`nodes
      ensures View() == Seen(old(View()), node, now, ipv4, ipv6)
    {
      if node in nodes && nodes[node].revokedAt.None? && nodes[node].unlinkedAt.None? {
        var row := nodes[node];
        nodes :=
          nodes[node :=
                row.(lastSeen := Some(now), ipv4 := Coalesce(ipv4, row.ipv4), ipv6 := Coalesce(ipv6, row.ipv6))];
      }
    }

    /** Withdrawn exactly when the lineage stands but something along it was revoked; recorded exactly when nothing
        was and the rest agrees; denied otherwise. */
    method RecordSnapshotAcknowledgement(key: AckKey, ack: Ack, proven: bool) returns (answer: AckAnswer)
      modifies this`acks
      ensures answer == Recorded <==> Acknowledges(old(View()), key.node) && proven
      ensures answer == Withdrawn <==> Lineage(old(View()), key.node) && LineageRevoked(old(View()), key.node)
      ensures View() == Acknowledged(old(View()), key, ack, proven)
    {
      if key.node !in nodes {
        return Denied;
      }
      var node := nodes[key.node];
      if node.credential !in credentials || credentials[node.credential].node != key.node || node.attempt !in grants {
        return Denied;
      }
      var credential, grant := credentials[node.credential], grants[node.attempt];
      if grant.node != key.node || grant.installation != node.installation || grant.primary != node.primary ||
        grant.token !in tokens {
        return Denied;
      }
      if credential.revokedAt.Some? || node.revokedAt.Some? || tokens[grant.token].revokedAt.Some? {
        return Withdrawn;
      }
      if identity.role != Primary && identity.role != PrimaryWithNodes {
        return Denied;
      }
      if identity.generation == 0 || identity.generation != identity.latest || node.primary != identity.primary ||
         grant.generation != identity.generation || !proven {
        return Denied;
      }
      acks := acks[key := ack];
      return Recorded;
    }
  }
}
