/** What every run of the enrollment transactions keeps. */
module EnrollmentRuns {
  import opened Options
  import opened Enrollment

  datatype Step =
    | CreateToken(token: Id, row: Token)
    | IssueStep(q: Exchange)
    | CheckToken(token: Id, hash: string, now: Clock, consume: bool)
    | RevokeToken(token: Id, owner: Id, now: Clock)
    | DeleteToken(token: Id, owner: Id, now: Clock)
    | UnlinkStep(node: Id, now: Clock)
    | RetireStep(now: Clock)
    | IdentityStep(identity: Identity) // a promotion, a demotion, or news of another leader
    | HeartbeatStep(node: Id, now: Clock, ipv4: Option<string>, ipv6: Option<string>)
    | AckStep(key: AckKey, ack: Ack, proven: bool)

  function Next(t: Tables, s: Step): Tables {
    match s
    case CreateToken(token, row) => TokenCreated(t, token, row)
    case IdentityStep(identity) => t.(identity := identity)
    case IssueStep(q) => Issued(t, q).GetOr(t)
    case CheckToken(token, hash, now, consume) => Checked(t, token, hash, now, consume)
    case RevokeToken(token, owner, now) => Revoked(t, token, owner, now)
    case DeleteToken(token, owner, now) => if Deletable(t, token, owner, now) then t.(tokens := t.tokens - {token})
      else t
    case UnlinkStep(node, now) => Unlinked(t, node, now)
    case RetireStep(now) => Retired(t, now)
    case HeartbeatStep(node, now, ipv4, ipv6) => Seen(t, node, now, ipv4, ipv6)
    case AckStep(key, ack, proven) => Acknowledged(t, key, ack, proven)
  }

  function Run(t: Tables, steps: seq<Step>): Tables
    decreases |steps|
  {
    if steps == [] then t else Run(Next(t, steps[0]), steps[1..])
  }

  // ---------------------------------------------------------------- the invariant

  /** Node and credential rows come in pairs that point at each other. */
  ghost predicate Paired(t: Tables) {
    && (forall n :: n in t.nodes ==> Joined(t, n))
    && (forall c :: c in t.credentials ==>
        t.credentials[c].node in t.nodes && t.nodes[t.credentials[c].node].credential == c)
  }

  ghost predicate UniqueNodes(t: Tables) {
    forall m, n | m in t.nodes && n in t.nodes && m != n ::
      t.nodes[m].installation != t.nodes[n].installation && t.nodes[m].attempt != t.nodes[n].attempt
  }

  /** Every grant's token exists and was consumed by exactly the attempt the grant is for. */
  ghost predicate GrantsHold(t: Tables) {
    forall a :: a in t.grants ==>
      t.grants[a].token in t.tokens && t.tokens[t.grants[a].token].consumedAt.Some? &&
        t.tokens[t.grants[a].token].consumedBy == Some(a)
  }

  /** Every node stands on the grant of the attempt that enrolled it last. */
  ghost predicate Rooted(t: Tables) {
    forall n :: n in t.nodes ==>
      && t.nodes[n].attempt in t.grants
      && var g := t.grants[t.nodes[n].attempt];
         g.node == n && g.installation == t.nodes[n].installation && g.primary == t.nodes[n].primary
  }

  /** A node and its credential are revoked together, and an unlinked node is revoked. */
  ghost predicate RevokedTogether(t: Tables) {
    forall n :: n in t.nodes && Joined(t, n) ==>
      && (t.nodes[n].unlinkedAt.Some? ==> t.nodes[n].revokedAt.Some?)
      && (t.nodes[n].revokedAt.Some? <==> t.credentials[t.nodes[n].credential].revokedAt.Some?)
  }

  ghost predicate Inv(t: Tables) {
    Paired(t) && UniqueNodes(t) && GrantsHold(t) && Rooted(t) && RevokedTogether(t)
  }

  /** The node's row after the exchange; a node that comes back keeps what was seen of it. */
  function EnrolledRow(t: Tables, q: Exchange): EnrolledNode {
    var seen := if q.node in t.nodes then t.nodes[q.node]
               else EnrolledNode(q.installation, 0, 0, 0, 0, None, None, None, None, None);
    EnrolledNode(q.installation, q.primary, q.credential, q.now, q.attempt, None, None, seen.lastSeen, seen.ipv4,
                 seen.ipv6)
  }

  /** What an exchange that goes through does to the tables. */
  ghost predicate Shaped(t: Tables, q: Exchange, u: Tables) {
    && q.token in t.tokens && t.tokens[q.token].consumedAt.None? && t.tokens[q.token].revokedAt.None?
    && u.credentials == (if q.node in t.nodes then t.credentials - {t.nodes[q.node].credential} else t.credentials)
                        [q.credential := Credential(q.node, q.credentialHash, q.version, q.now, None)]
    && u.nodes == t.nodes[q.node := EnrolledRow(t, q)]
    && q.attempt !in t.grants
    && u.grants == t.grants[q.attempt := Grant(q.token, q.installation, q.node, q.primary, q.generation, q.recipient,
                                               q.digest, q.payload, q.now, q.now + q.ttl)] && q.payload != []
    && u.identity == t.identity.(role := PrimaryWithNodes) && Expected(t, q)
    && u.tokens == t.tokens[q.token := t.tokens[q.token].(consumedAt := Some(q.now), consumedBy := Some(q.attempt))]
    && u.acks == t.acks
    && (q.node in t.nodes ==> t.nodes[q.node].revokedAt.Some? && t.nodes[q.node].installation == q.installation)
    && (q.credential in t.credentials ==> q.node in t.nodes && q.credential == t.nodes[q.node].credential)
    && (q.node !in t.nodes ==> forall n :: n in t.nodes ==> t.nodes[n].installation != q.installation)
    && Unclaimed(t, q)
  }

  lemma CredentialShape(t: Tables, q: Exchange)
    requires Paired(t) && PutCredential(t, q).Some?
    ensures q.node in t.nodes <==> Joined(t, q.node)
    ensures PutCredential(t, q).value ==
            t.(credentials := (if q.node in t.nodes then t.credentials - {t.nodes[q.node].credential}
                               else t.credentials)[q.credential :=
                                                   Credential(q.node, q.credentialHash, q.version, q.now,
                                                                               None)])
    ensures q.node in t.nodes ==> t.nodes[q.node].revokedAt.Some?
    ensures q.credential in t.credentials ==> q.node in t.nodes && q.credential == t.nodes[q.node].credential
  {
    assert q.node in t.nodes ==> Joined(t, q.node);
  }

  lemma NodeShape(t: Tables, q: Exchange)
    requires var rotated := if q.node in t.nodes then Some(q.node) else None; PutNode(t, q, rotated).Some?
    ensures var rotated := if q.node in t.nodes then Some(q.node) else None;
            PutNode(t, q, rotated).value == t.(nodes := t.nodes[q.node := EnrolledRow(t, q)])
    ensures q.node in t.nodes ==> t.nodes[q.node].installation == q.installation
    ensures q.node !in t.nodes ==> forall n :: n in t.nodes ==> t.nodes[n].installation != q.installation
  {
  }

  lemma IssueShape(t: Tables, q: Exchange)
    requires Paired(t) && Issued(t, q).Some?
    ensures Shaped(t, q, Issued(t, q).value)
  {
    CredentialShape(t, q);
    var t1 := PutCredential(t, q).value;
    NodeShape(t1, q);
    var t2 := PutNode(t1, q, if Joined(t, q.node) then Some(q.node) else None).value;
    var t3 := PutGrant(t2, q).value;
    var t4 := Consume(t3, q).value;
    assert t1.nodes == t.nodes && t2.grants == t.grants && t3.tokens == t.tokens && t4.identity == t.identity;
  }

  lemma ShapeKeepsPairs(t: Tables, q: Exchange, u: Tables)
    requires Paired(t) && RevokedTogether(t) && Shaped(t, q, u)
    ensures Paired(u) && RevokedTogether(u)
  {
    forall n | n in u.nodes && n != q.node
      ensures Joined(u, n) && u.credentials[u.nodes[n].credential] == t.credentials[t.nodes[n].credential]
    {
      assert Joined(t, n);
    }
  }

  lemma ShapeKeepsUnique(t: Tables, q: Exchange, u: Tables)
    requires UniqueNodes(t) && Shaped(t, q, u)
    ensures UniqueNodes(u)
  {
  }

  lemma ShapeKeepsGrants(t: Tables, q: Exchange, u: Tables)
    requires GrantsHold(t) && Rooted(t) && Shaped(t, q, u)
    ensures GrantsHold(u) && Rooted(u)
  {
    forall a | a in t.grants
      ensures t.grants[a].token != q.token
    {
      assert t.tokens[t.grants[a].token].consumedAt.Some?;
    }
  }

  lemma IssueKeepsInv(t: Tables, q: Exchange)
    requires Inv(t) && Issued(t, q).Some?
    ensures Inv(Issued(t, q).value)
  {
    var u := Issued(t, q).value;
    IssueShape(t, q);
    ShapeKeepsPairs(t, q, u);
    ShapeKeepsUnique(t, q, u);
    ShapeKeepsGrants(t, q, u);
  }

  /** Only clocks of revocation, visits and acknowledgements differ. */
  ghost predicate SameLinks(t: Tables, u: Tables) {
    && u.tokens == t.tokens && u.grants == t.grants && u.nodes.Keys == t.nodes.Keys &&
       u.credentials.Keys == t.credentials.Keys
    && (forall c :: c in t.credentials ==>
        u.credentials[c].node == t.credentials[c].node && u.credentials[c].hash == t.credentials[c].hash)
    && (forall n :: n in t.nodes ==> SameNodeLinks(t.nodes[n], u.nodes[n]))
  }

  predicate SameNodeLinks(a: EnrolledNode, b: EnrolledNode) {
    a.credential == b.credential && a.attempt == b.attempt && a.installation == b.installation &&
      a.primary == b.primary &&
    a.enrolledAt == b.enrolledAt
  }

  predicate ClocksOnly(s: Step) {
    s.UnlinkStep? || s.RetireStep? || s.HeartbeatStep? || s.AckStep?
  }

  lemma UnlinkKeepsLinks(t: Tables, node: Id, now: Clock)
    ensures SameLinks(t, Unlinked(t, node, now))
  {
    var u := Unlinked(t, node, now);
    assert u.nodes.Keys == t.nodes.Keys && u.credentials.Keys == t.credentials.Keys;
  }

  lemma RetireKeepsLinks(t: Tables, now: Clock)
    ensures SameLinks(t, Retired(t, now))
  {
    var u := Retired(t, now);
    assert u.nodes.Keys == t.nodes.Keys && u.credentials.Keys == t.credentials.Keys;
  }

  lemma ClocksKeepLinks(t: Tables, s: Step)
    requires ClocksOnly(s)
    ensures SameLinks(t, Next(t, s))
  {
    if s.UnlinkStep? {
      UnlinkKeepsLinks(t, s.node, s.now);
    } else if s.RetireStep? {
      RetireKeepsLinks(t, s.now);
    } else {
      var u := Next(t, s);
      assert u.nodes.Keys == t.nodes.Keys && u.credentials.Keys == t.credentials.Keys;
    }
  }

  lemma LinksKeepInv(t: Tables, u: Tables)
    requires Paired(t) && UniqueNodes(t) && GrantsHold(t) && Rooted(t) && SameLinks(t, u)
    ensures Paired(u) && UniqueNodes(u) && GrantsHold(u) && Rooted(u)
  {
    assert forall n :: n in u.nodes ==> n in t.nodes.Keys && SameNodeLinks(t.nodes[n], u.nodes[n]);
    assert forall c :: c in u.credentials ==> c in t.credentials.Keys;
    forall n | n in u.nodes
      ensures Joined(u, n)
    {
      assert Joined(t, n);
      assert t.nodes[n].credential in t.credentials.Keys;
    }
  }

  lemma UnlinkKeepsRevokedTogether(t: Tables, node: Id, now: Clock)
    requires Paired(t) && RevokedTogether(t)
    ensures RevokedTogether(Unlinked(t, node, now))
  {
    var u := Unlinked(t, node, now);
    forall n | n in u.nodes && Joined(u, n)
      ensures u.nodes[n].unlinkedAt.Some? ==> u.nodes[n].revokedAt.Some?
      ensures u.nodes[n].revokedAt.Some? <==> u.credentials[u.nodes[n].credential].revokedAt.Some?
    {
      assert n in t.nodes && Joined(t, n);
    }
  }

  lemma RetireKeepsRevokedTogether(t: Tables, now: Clock)
    requires Paired(t) && RevokedTogether(t)
    ensures RevokedTogether(Retired(t, now))
  {
    var u := Retired(t, now);
    forall n | n in u.nodes && Joined(u, n)
      ensures u.nodes[n].unlinkedAt.Some? ==> u.nodes[n].revokedAt.Some?
      ensures u.nodes[n].revokedAt.Some? <==> u.credentials[u.nodes[n].credential].revokedAt.Some?
    {
      assert n in t.nodes && Joined(t, n);
    }
  }

  lemma ClocksKeepRevokedTogether(t: Tables, s: Step)
    requires Paired(t) && RevokedTogether(t) && ClocksOnly(s)
    ensures RevokedTogether(Next(t, s))
  {
    if s.UnlinkStep? {
      UnlinkKeepsRevokedTogether(t, s.node, s.now);
    } else if s.RetireStep? {
      RetireKeepsRevokedTogether(t, s.now);
    } else {
      var u := Next(t, s);
      assert forall n :: n in u.nodes ==> Joined(u, n) == Joined(t, n);
    }
  }

  lemma ClocksKeepInv(t: Tables, s: Step)
    requires Inv(t) && ClocksOnly(s)
    ensures Inv(Next(t, s))
  {
    ClocksKeepLinks(t, s);
    LinksKeepInv(t, Next(t, s));
    ClocksKeepRevokedTogether(t, s);
  }

  /** A token with a grant keeps its consumption. */
  ghost predicate GrantedKept(t: Tables, u: Tables) {
    forall token :: token in t.tokens && Granted(t, token) && t.tokens[token].consumedAt.Some? ==>
      token in u.tokens && u.tokens[token].consumedAt.Some? && u.tokens[token].consumedBy == t.tokens[token].consumedBy
  }

  lemma TokenStepKeepsGranted(t: Tables, s: Step)
    requires !s.IssueStep? && !ClocksOnly(s)
    ensures Next(t, s) == t.(tokens := Next(t, s).tokens, identity := Next(t, s).identity)
    ensures GrantedKept(t, Next(t, s))
  {
  }

  lemma TokensKeepInv(t: Tables, u: Tables)
    requires Inv(t) && u == t.(tokens := u.tokens, identity := u.identity) && GrantedKept(t, u)
    ensures Inv(u)
  {
    assert forall n :: Joined(t, n) <==> Joined(u, n);
    forall a | a in t.grants
      ensures t.grants[a].token in u.tokens && u.tokens[t.grants[a].token].consumedAt.Some? &&
              u.tokens[t.grants[a].token].consumedBy == Some(a)
    {
      assert Granted(t, t.grants[a].token);
    }
  }

  lemma NextKeepsInv(t: Tables, s: Step)
    requires Inv(t)
    ensures Inv(Next(t, s))
  {
    if s.IssueStep? {
      if Issued(t, s.q).Some? {
        IssueKeepsInv(t, s.q);
      }
    } else if ClocksOnly(s) {
      ClocksKeepInv(t, s);
    } else {
      TokenStepKeepsGranted(t, s);
      TokensKeepInv(t, Next(t, s));
    }
  }

  lemma {:induction false} RunKeepsInv(t: Tables, steps: seq<Step>)
    requires Inv(t)
    ensures Inv(Run(t, steps))
    decreases |steps|
  {
    if steps != [] {
      NextKeepsInv(t, steps[0]);
      RunKeepsInv(Next(t, steps[0]), steps[1..]);
    }
  }

  // ---------------------------------------------------------------- exchanges

  predicate CredentialFree(t: Tables, q: Exchange) {
    q.credential in t.credentials ==> q.node in t.nodes && t.nodes[q.node].credential == q.credential
  }

  /** A new node with a new installation, or a revoked node coming back with its own installation. */
  ghost predicate NodeWelcome(t: Tables, q: Exchange) {
    if q.node in t.nodes then t.nodes[q.node].revokedAt.Some? && t.nodes[q.node].installation == q.installation
    else forall n :: n in t.nodes ==> t.nodes[n].installation != q.installation
  }

  ghost predicate Welcome(t: Tables, q: Exchange) {
    && MayIssue(t, q) && q.generation > 0 && q.payload != [] && q.ttl > 0
    && q.attempt !in t.grants && CredentialFree(t, q) && NodeWelcome(t, q)
  }

  lemma WelcomeSuffices(t: Tables, q: Exchange)
    requires Inv(t) && Welcome(t, q)
    ensures Issued(t, q).Some?
  {
    assert q.node in t.nodes <==> Joined(t, q.node);
    assert !Granted(t, q.token);
    assert Unclaimed(t, q);
  }

  lemma WelcomeIsNeeded(t: Tables, q: Exchange)
    requires Inv(t) && Issued(t, q).Some?
    ensures Welcome(t, q)
  {
    IssueShape(t, q);
  }

  /** The token row has the presented secret's hash, and the installation is the leader the request expects. */
  predicate Shown(t: Tables, q: Exchange) {
    && q.token in t.tokens && t.tokens[q.token].hash == q.secretHash && t.tokens[q.token].version == "sha256-v1"
    && t.identity.role in {Primary, PrimaryWithNodes} && t.identity.primary == q.primary
    && t.identity.generation == t.identity.latest == q.generation
  }

  /** Exactly when an exchange goes through, in terms of the request and the rows before it: it shows a fresh token
      to the right leader, attempt and credential are free, and the node is new or comes back revoked. */
  lemma IssueSucceedsIff(t: Tables, q: Exchange)
    requires Inv(t)
    ensures Issued(t, q).Some? <==>
            && Shown(t, q) && q.issuable && q.generation > 0 && q.payload != [] && q.ttl > 0
            && t.tokens[q.token].consumedAt.None? && t.tokens[q.token].consumedBy.None?
            && t.tokens[q.token].revokedAt.None? && t.tokens[q.token].expiresAt > q.now
            && q.attempt !in t.grants
            && (q.credential in t.credentials ==> q.node in t.nodes && t.nodes[q.node].credential == q.credential)
            && (if q.node in t.nodes
                then t.nodes[q.node].revokedAt.Some? && t.nodes[q.node].installation == q.installation
                else forall n :: n in t.nodes ==> t.nodes[n].installation != q.installation)
  {
    if Welcome(t, q) {
      WelcomeSuffices(t, q);
    }
    if Issued(t, q).Some? {
      WelcomeIsNeeded(t, q);
    }
  }

  /** Exactly when a request is answered and with what: by the exchange that goes through, or, for the attempt that
      consumed the shown token, from the grant it was given for the same node, recipient and preview. */
  lemma AnswerIff(t: Tables, q: Exchange, payload: seq<bv8>)
    ensures Answer(t, q) == Some(payload) <==>
            || (Issued(t, q).Some? && payload == q.payload)
            || (&& Shown(t, q) && t.tokens[q.token].consumedAt.Some? && t.tokens[q.token].consumedBy == Some(q.attempt)
                && q.attempt in t.grants && payload != []
                && t.grants[q.attempt] == Grant(q.token, q.installation, q.node, q.primary, q.generation, q.recipient,
                                                q.digest, payload, t.grants[q.attempt].createdAt,
                                                t.grants[q.attempt].expiresAt)
                && t.grants[q.attempt].expiresAt > q.now)
    ensures Answer(t, q).Some? ==> Shown(t, q)
  {
  }

  /** The attempt's grant and the consumption of its token are the same in both. */
  ghost predicate SameGrant(t: Tables, u: Tables, attempt: Id) {
    && attempt in t.grants && attempt in u.grants && u.grants[attempt] == t.grants[attempt]
    && var token := t.grants[attempt].token;
       token in t.tokens && token in u.tokens && u.tokens[token].consumedAt == t.tokens[token].consumedAt &&
       u.tokens[token].consumedBy == t.tokens[token].consumedBy
  }

  lemma ShapeKeepsGrant(t: Tables, q: Exchange, u: Tables, attempt: Id)
    requires GrantsHold(t) && attempt in t.grants && Shaped(t, q, u)
    ensures SameGrant(t, u, attempt)
  {
  }

  lemma NextKeepsGrant(t: Tables, s: Step, attempt: Id)
    requires Inv(t) && attempt in t.grants
    ensures SameGrant(t, Next(t, s), attempt)
  {
    assert Granted(t, t.grants[attempt].token);
    if s.IssueStep? {
      if Issued(t, s.q).Some? {
        IssueShape(t, s.q);
        ShapeKeepsGrant(t, s.q, Issued(t, s.q).value, attempt);
      }
    } else if ClocksOnly(s) {
      ClocksKeepLinks(t, s);
    }
  }

  /** Grants are kept for good, and the token each of them consumed is kept with them, consumed as it was. */
  lemma {:induction false} GrantedTokenStays(t: Tables, steps: seq<Step>, attempt: Id)
    requires Inv(t) && attempt in t.grants
    ensures SameGrant(t, Run(t, steps), attempt)
    decreases |steps|
  {
    if steps != [] {
      NextKeepsGrant(t, steps[0], attempt);
      NextKeepsInv(t, steps[0]);
      GrantedTokenStays(Next(t, steps[0]), steps[1..], attempt);
    }
  }

  /** A token buys one enrollment: whatever happens after it, no exchange with the same token goes through again. */
  lemma TokenIsSpentOnce(t: Tables, q: Exchange, steps: seq<Step>, again: Exchange)
    requires Inv(t) && Issued(t, q).Some? && again.token == q.token
    ensures Issued(Run(Issued(t, q).value, steps), again).None?
  {
    IssueShape(t, q);
    IssueKeepsInv(t, q);
    GrantedTokenStays(Issued(t, q).value, steps, q.attempt);
  }

  // ---------------------------------------------------------------- tokens

  /** A check accepts exactly a token of this very secret that is neither spent, revoked nor run out, and spends it
      if asked to. */
  lemma CheckIff(t: Tables, token: Id, hash: string, now: Clock, consume: bool)
    ensures Spendable(t, token, hash, now) <==>
            token in t.tokens && t.tokens[token].hash == hash && t.tokens[token].version == "sha256-v1" &&
              t.tokens[token].expiresAt > now && t.tokens[token].consumedAt.None? && t.tokens[token].revokedAt.None?
    ensures Next(t, CheckToken(token, hash, now, consume)) ==
            if Spendable(t, token, hash, now) && consume
              then t.(tokens := t.tokens[token := t.tokens[token].(consumedAt := Some(now))]) else t
  {
  }

  /** Only its owner revokes or deletes a token; what was revoked stays so, and what goes was never granted and is
      of no use any more. */
  lemma OwnerEndsTokenIff(t: Tables, token: Id, owner: Id, now: Clock)
    ensures var u := Next(t, RevokeToken(token, owner, now));
            && (u != t <==> token in t.tokens && t.tokens[token].owner == owner && t.tokens[token].revokedAt.None?)
            && (u != t ==> u == t.(tokens := t.tokens[token := t.tokens[token].(revokedAt := Some(now))]))
    ensures var u := Next(t, DeleteToken(token, owner, now));
            && (u != t <==> token in t.tokens && t.tokens[token].owner == owner &&
                            (forall a :: a in t.grants ==> t.grants[a].token != token) &&
                            (t.tokens[token].revokedAt.Some? ||
                             (t.tokens[token].consumedAt.None? && t.tokens[token].expiresAt <= now)))
            && (u != t ==> u == t.(tokens := t.tokens - {token}))
  {
    if token in t.tokens {
      assert t.tokens[token := t.tokens[token]] == t.tokens;
      assert token !in (t.tokens - {token});
      var u := Next(t, RevokeToken(token, owner, now));
      assert token in u.tokens;
    }
  }

  /** A token is created exactly under a free id on an installation that leads or stands alone and knows of no later
      leader; it starts unused, and a standalone installation becomes a primary. */
  lemma CreateTokenIff(t: Tables, token: Id, row: Token)
    ensures var u := Next(t, CreateToken(token, row));
            var may := token !in t.tokens && row.version == "sha256-v1" &&
                       t.identity.role in {Standalone, Primary, PrimaryWithNodes} &&
                       t.identity.generation >= t.identity.latest;
            if !may then u == t
            else
              && u.tokens == t.tokens[token := Token(row.hash, "sha256-v1", row.owner, row.expiresAt, None, None, None)]
              && u.identity == t.identity.(role := if t.identity.role == PrimaryWithNodes then PrimaryWithNodes
                                           else Primary)
              && u == t.(tokens := u.tokens, identity := u.identity)
  {
  }

  /** A token row that survives a step keeps its owner and hash, and a clock once set. */
  ghost predicate SameHistory(a: Token, b: Token) {
    && a.owner == b.owner && a.hash == b.hash && a.version == b.version && a.expiresAt == b.expiresAt
    && (a.consumedAt.Some? ==> b.consumedAt == a.consumedAt && b.consumedBy == a.consumedBy)
    && (a.revokedAt.Some? ==> b.revokedAt == a.revokedAt)
  }

  ghost predicate Survives(t: Tables, steps: seq<Step>, token: Id)
    decreases |steps|
  {
    token in t.tokens && (steps != [] ==> Survives(Next(t, steps[0]), steps[1..], token))
  }

  lemma ShapeKeepsHistory(t: Tables, q: Exchange, u: Tables, token: Id)
    requires Shaped(t, q, u) && token in t.tokens
    ensures token in u.tokens && SameHistory(t.tokens[token], u.tokens[token])
  {
  }

  lemma TokenStepKeepsHistory(t: Tables, s: Step, token: Id)
    requires !s.IssueStep? && !ClocksOnly(s) && token in t.tokens && token in Next(t, s).tokens
    ensures SameHistory(t.tokens[token], Next(t, s).tokens[token])
  {
  }

  lemma NextKeepsTokenHistory(t: Tables, s: Step, token: Id)
    requires Paired(t) && token in t.tokens && token in Next(t, s).tokens
    ensures SameHistory(t.tokens[token], Next(t, s).tokens[token])
  {
    if s.IssueStep? {
      if Issued(t, s.q).Some? {
        IssueShape(t, s.q);
        ShapeKeepsHistory(t, s.q, Issued(t, s.q).value, token);
      }
    } else if ClocksOnly(s) {
      ClocksKeepLinks(t, s);
    } else {
      TokenStepKeepsHistory(t, s, token);
    }
  }

  lemma HistoryIsTransitive(a: Token, b: Token, c: Token)
    requires SameHistory(a, b) && SameHistory(b, c)
    ensures SameHistory(a, c)
  {
  }

  lemma {:induction false} RunKeepsTokenHistory(t: Tables, steps: seq<Step>, token: Id)
    requires Inv(t) && Survives(t, steps, token)
    ensures token in Run(t, steps).tokens && SameHistory(t.tokens[token], Run(t, steps).tokens[token])
    decreases |steps|
  {
    if steps != [] {
      var u := Next(t, steps[0]);
      NextKeepsTokenHistory(t, steps[0], token);
      NextKeepsInv(t, steps[0]);
      RunKeepsTokenHistory(u, steps[1..], token);
      HistoryIsTransitive(t.tokens[token], u.tokens[token], Run(t, steps).tokens[token]);
    }
  }

  lemma {:induction false} GrantedTokenSurvives(t: Tables, steps: seq<Step>, attempt: Id)
    requires Inv(t) && attempt in t.grants
    ensures Survives(t, steps, t.grants[attempt].token)
    decreases |steps|
  {
    if steps != [] {
      NextKeepsGrant(t, steps[0], attempt);
      NextKeepsInv(t, steps[0]);
      GrantedTokenSurvives(Next(t, steps[0]), steps[1..], attempt);
    }
  }

  /** What a retry finds: the grant as it was issued, and its token shown as before and spent by this attempt. */
  lemma GrantOfTheRetry(t: Tables, q: Exchange, steps: seq<Step>)
    requires Inv(t) && Issued(t, q).Some?
    ensures var v := Run(Issued(t, q).value, steps);
            && q.attempt in v.grants && v.grants[q.attempt] == NewGrant(q)
            && TokenAccepts(v, q.token, q.secretHash) && v.tokens[q.token].consumedAt.Some? &&
               v.tokens[q.token].consumedBy == Some(q.attempt)
    ensures TokenAccepts(t, q.token, q.secretHash) && q.payload != []
  {
    var u := Issued(t, q).value;
    IssueShape(t, q);
    IssueKeepsInv(t, q);
    assert q.attempt in u.grants && u.grants[q.attempt] == NewGrant(q);
    GrantedTokenStays(u, steps, q.attempt);
    GrantedTokenSurvives(u, steps, q.attempt);
    RunKeepsTokenHistory(u, steps, q.token);
  }

  /** Whatever happened since an exchange, revocation of the token and unlinking of the node included, the same
      request gets the same payload again if and only if the primary is still the same leader and the grant has not
      run out; it never writes again. */
  lemma RetryAnswersTheSameIff(t: Tables, q: Exchange, steps: seq<Step>, later: Clock)
    requires Inv(t) && Issued(t, q).Some?
    ensures var v, again := Run(Issued(t, q).value, steps), q.(now := later);
            && (Answer(v, again) == Some(q.payload) <==> Expected(v, q) && later < q.now + q.ttl)
            && (Answer(v, again).Some? <==> Expected(v, q) && later < q.now + q.ttl)
            && Issued(v, again).None?
  {
    GrantOfTheRetry(t, q, steps);
    TokenIsSpentOnce(t, q, steps, q.(now := later));
  }

  // ---------------------------------------------------------------- a retry after everything was ended

  const LEADER := Identity(1, Primary, 1, 1)
  const TOKEN := Token("h", HASH_VERSION, 9, 100, None, None, None)

  function FirstExchange(): Exchange {
    Exchange(7, "h", 3, 2, 4, 1, 1, [1], [2], 5, "c", "v", [6], 10, 50, true)
  }

  /** Token 7 buys node 4 its enrollment at clock 10. The token is revoked, the node unlinked, and the retry at
      clock 30 is answered all the same. */
  lemma RetryAfterRevocationAndUnlink()
    ensures var t, q := Run(Fresh(LEADER), [CreateToken(7, TOKEN)]), FirstExchange();
            && Issued(t, q).Some?
            && var v := Run(Issued(t, q).value, [RevokeToken(7, 9, 20), UnlinkStep(4, 21)]);
               && 7 in v.tokens && v.tokens[7].revokedAt.Some? && 4 in v.nodes && v.nodes[4].unlinkedAt.Some?
               && Answer(v, q.(now := 30)) == Some(q.payload)
  {
    var q, t := FirstExchange(), Fresh(LEADER).(tokens := map[7 := TOKEN]);
    assert [CreateToken(7, TOKEN)][1..] == [];
    assert Next(Fresh(LEADER), CreateToken(7, TOKEN)) == t;
    assert Run(Fresh(LEADER), [CreateToken(7, TOKEN)]) == t;
    assert Inv(t) && Welcome(t, q);
    IssueSucceedsIff(t, q);
    IssueShape(t, q);
    var u := Issued(t, q).value;
    var steps := [RevokeToken(7, 9, 20), UnlinkStep(4, 21)];
    TwoSteps(u, steps);
    RetryAnswersTheSameIff(t, q, steps, 30);
  }

  lemma TwoSteps(t: Tables, steps: seq<Step>)
    requires |steps| == 2
    ensures Run(t, steps) == Next(Next(t, steps[0]), steps[1])
  {
    assert steps[1..][1..] == [];
    assert Run(Next(t, steps[0]), steps[1..]) == Next(Next(t, steps[0]), steps[1]);
  }

  // ---------------------------------------------------------------- nodes

  /** The node is unrevoked in every state of the run but perhaps the last. */
  ghost predicate LiveThroughout(t: Tables, steps: seq<Step>, node: Id)
    decreases |steps|
  {
    steps != [] ==>
      node in t.nodes && t.nodes[node].revokedAt.None? && LiveThroughout(Next(t, steps[0]), steps[1..], node)
  }

  /** Same enrollment: the row and its credential say the same, revocation and visits aside. */
  ghost predicate SameKey(t: Tables, u: Tables, node: Id) {
    && Joined(t, node) && Joined(u, node)
    && u.nodes[node].credential == t.nodes[node].credential && u.nodes[node].attempt == t.nodes[node].attempt
    && u.nodes[node].installation == t.nodes[node].installation && u.nodes[node].enrolledAt == t.nodes[node].enrolledAt
    && u.credentials[u.nodes[node].credential].hash == t.credentials[t.nodes[node].credential].hash
  }

  lemma LinksKeepKey(t: Tables, u: Tables, node: Id)
    requires Joined(t, node) && SameLinks(t, u)
    ensures SameKey(t, u, node)
  {
    assert node in u.nodes.Keys && t.nodes[node].credential in u.credentials.Keys;
  }

  lemma TokenStepKeepsKey(t: Tables, s: Step, node: Id)
    requires Joined(t, node) && !s.IssueStep? && !ClocksOnly(s)
    ensures SameKey(t, Next(t, s), node)
  {
  }

  lemma LiveNodeKeepsKey(t: Tables, s: Step, node: Id)
    requires Inv(t) && node in t.nodes && t.nodes[node].revokedAt.None?
    ensures SameKey(t, Next(t, s), node)
  {
    assert Joined(t, node);
    if s.IssueStep? {
      if Issued(t, s.q).Some? {
        IssueShape(t, s.q);
        ShapeKeepsKey(t, s.q, Issued(t, s.q).value, node);
      }
    } else if ClocksOnly(s) {
      ClocksKeepLinks(t, s);
      LinksKeepKey(t, Next(t, s), node);
    } else {
      TokenStepKeepsKey(t, s, node);
    }
  }

  lemma ShapeKeepsKey(t: Tables, q: Exchange, u: Tables, node: Id)
    requires Paired(t) && Shaped(t, q, u) && node in t.nodes && t.nodes[node].revokedAt.None?
    ensures SameKey(t, u, node)
  {
    assert Joined(t, node);
    assert q.node in t.nodes ==> Joined(t, q.node);
  }

  lemma {:induction false} RunNeverRekeysLiveNode(t: Tables, steps: seq<Step>, node: Id)
    requires Inv(t) && node in t.nodes && LiveThroughout(t, steps, node)
    ensures SameKey(t, Run(t, steps), node)
    decreases |steps|
  {
    assert Joined(t, node);
    if steps != [] {
      LiveNodeKeepsKey(t, steps[0], node);
      NextKeepsInv(t, steps[0]);
      RunNeverRekeysLiveNode(Next(t, steps[0]), steps[1..], node);
    }
  }

  // ---------------------------------------------------------------- silence after an unlink

  /** The step is an exchange for the node that goes through. */
  predicate Enrols(t: Tables, s: Step, node: Id) {
    s.IssueStep? && s.q.node == node && Issued(t, s.q).Some?
  }

  /** No exchange for the node goes through in the run; refused ones may occur. */
  predicate NeverEnrolled(t: Tables, steps: seq<Step>, node: Id)
    decreases |steps|
  {
    steps != [] ==> !Enrols(t, steps[0], node) && NeverEnrolled(Next(t, steps[0]), steps[1..], node)
  }

  /** Nothing was recorded for the node between `t` and `u`. */
  ghost predicate Silent(t: Tables, u: Tables, node: Id) {
    && node in t.nodes && node in u.nodes && u.nodes[node].lastSeen == t.nodes[node].lastSeen
    && u.nodes[node].ipv4 == t.nodes[node].ipv4 && u.nodes[node].ipv6 == t.nodes[node].ipv6
    && forall k: AckKey :: k.node == node ==>
       (k in u.acks <==> k in t.acks) && (k in t.acks && k in u.acks ==> u.acks[k] == t.acks[k])
  }

  ghost predicate StillRevoked(t: Tables, u: Tables, node: Id) {
    Silent(t, u, node) && u.nodes[node].revokedAt.Some?
  }

  lemma ShapeIsSilent(t: Tables, q: Exchange, u: Tables, node: Id)
    requires Shaped(t, q, u) && node in t.nodes && t.nodes[node].revokedAt.Some? && q.node != node
    ensures StillRevoked(t, u, node)
  {
  }

  lemma UnlinkOrRetireIsSilent(t: Tables, s: Step, node: Id)
    requires node in t.nodes && t.nodes[node].revokedAt.Some? && (s.UnlinkStep? || s.RetireStep?)
    ensures StillRevoked(t, Next(t, s), node)
  {
  }

  lemma RevokedNodeIsSilent(t: Tables, s: Step, node: Id)
    requires Inv(t) && node in t.nodes && t.nodes[node].revokedAt.Some? && !Enrols(t, s, node)
    ensures StillRevoked(t, Next(t, s), node)
  {
    if s.IssueStep? {
      if Issued(t, s.q).Some? {
        IssueShape(t, s.q);
        ShapeIsSilent(t, s.q, Issued(t, s.q).value, node);
      }
    } else if s.UnlinkStep? || s.RetireStep? {
      UnlinkOrRetireIsSilent(t, s, node);
    } else {
      OthersAreSilent(t, s, node);
    }
  }

  lemma OthersAreSilent(t: Tables, s: Step, node: Id)
    requires node in t.nodes && t.nodes[node].revokedAt.Some? && !s.IssueStep? && !s.UnlinkStep? && !s.RetireStep?
    ensures StillRevoked(t, Next(t, s), node)
  {
  }

  lemma SilenceIsTransitive(t: Tables, u: Tables, v: Tables, node: Id)
    requires StillRevoked(t, u, node) && StillRevoked(u, v, node)
    ensures StillRevoked(t, v, node)
  {
  }

  lemma {:induction false} RunKeepsSilence(t: Tables, steps: seq<Step>, node: Id)
    requires Inv(t) && node in t.nodes && t.nodes[node].revokedAt.Some? && NeverEnrolled(t, steps, node)
    ensures StillRevoked(t, Run(t, steps), node)
    decreases |steps|
  {
    if steps != [] {
      var u := Next(t, steps[0]);
      RevokedNodeIsSilent(t, steps[0], node);
      NextKeepsInv(t, steps[0]);
      RunKeepsSilence(u, steps[1..], node);
      SilenceIsTransitive(t, u, Run(t, steps), node);
    }
  }

  /** A heartbeat is recorded exactly for a node that is neither revoked nor unlinked, and keeps addresses it does
      not carry. */
  lemma HeartbeatIff(t: Tables, node: Id, now: Clock, ipv4: Option<string>, ipv6: Option<string>)
    ensures var u := Next(t, HeartbeatStep(node, now, ipv4, ipv6));
            if node in t.nodes && t.nodes[node].revokedAt.None? && t.nodes[node].unlinkedAt.None? then
              && node in u.nodes && u.nodes[node].lastSeen == Some(now)
              && u.nodes[node].ipv4 == (if ipv4.Some? then ipv4 else t.nodes[node].ipv4)
              && u.nodes[node].ipv6 == (if ipv6.Some? then ipv6 else t.nodes[node].ipv6)
              && u == t.(nodes := t.nodes[node := t.nodes[node].(lastSeen := Some(now), ipv4 := u.nodes[node].ipv4,
                                                                 ipv6 := u.nodes[node].ipv6)])
            else u == t
  {
  }

  /** When a primary steps down, every node and every credential is revoked, and first revocations stand. */
  lemma RetireEndsAll(t: Tables, now: Clock)
    ensures var u := Next(t, RetireStep(now));
            && u.nodes.Keys == t.nodes.Keys && u.credentials.Keys == t.credentials.Keys
            && (forall n :: n in t.nodes ==>
                  u.nodes[n] == t.nodes[n].(revokedAt := if t.nodes[n].revokedAt.Some? then t.nodes[n].revokedAt
                                            else Some(now)))
            && (forall c :: c in t.credentials ==> u.credentials[c].revokedAt.Some?)
            && u == t.(nodes := u.nodes, credentials := u.credentials)
  {
    assert Retired(t, now).nodes.Keys == t.nodes.Keys && Retired(t, now).credentials.Keys == t.credentials.Keys;
  }

  lemma UnlinkRevokes(t: Tables, node: Id, now: Clock)
    requires Inv(t) && node in t.nodes
    ensures var u := Next(t, UnlinkStep(node, now)); Inv(u) && node in u.nodes && u.nodes[node].revokedAt.Some?
  {
    NextKeepsInv(t, UnlinkStep(node, now));
  }

  /** After an unlink, no heartbeat and no acknowledgement is recorded for the node until an exchange for it. */
  lemma UnlinkSilences(t: Tables, node: Id, now: Clock, steps: seq<Step>)
    requires Inv(t) && node in t.nodes && NeverEnrolled(Next(t, UnlinkStep(node, now)), steps, node)
    ensures var u := Next(t, UnlinkStep(node, now));
            Silent(u, Run(u, steps), node) && !Acknowledges(Run(u, steps), node)
  {
    UnlinkRevokes(t, node, now);
    RunKeepsSilence(Next(t, UnlinkStep(node, now)), steps, node);
  }

  /** In every reachable state the joins behind an acknowledgement lose no row: the lineage of every enrolled node
      stands, so it is withdrawn exactly when its row or its grant's token is revoked, and otherwise good exactly
      under the leader and generation of its grant. */
  lemma LineageStands(identity: Identity, steps: seq<Step>, node: Id)
    ensures var t := Run(Fresh(identity), steps);
            && (Lineage(t, node) <==> node in t.nodes)
            && (node in t.nodes ==>
                  (LineageRevoked(t, node) <==>
                   t.nodes[node].revokedAt.Some? || t.tokens[t.grants[t.nodes[node].attempt].token].revokedAt.Some?))
            && (node in t.nodes ==>
                  (Acknowledges(t, node) <==>
                   && t.nodes[node].revokedAt.None?
                   && t.tokens[t.grants[t.nodes[node].attempt].token].revokedAt.None?
                   && t.identity.role in {Primary, PrimaryWithNodes} && t.identity.primary == t.nodes[node].primary
                   && t.identity.generation == t.identity.latest > 0
                   && t.identity.generation == t.grants[t.nodes[node].attempt].generation))
  {
    RunKeepsInv(Fresh(identity), steps);
    var t := Run(Fresh(identity), steps);
    assert node in t.nodes ==> Joined(t, node);
  }
}
