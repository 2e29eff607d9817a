/**
 * Merging the primary's accounts into a NODE's users. Replicated owners are matched by id, then by username;
 * matches keep their local row, the rest is inserted, and everybody else is deactivated.
 */
module OwnerImport {
  import opened Options

  type Id = nat   // 0 is the nil UUID
  datatype Role = Owner | Operator | OtherRole
  datatype User = User(username: string, hash: string, role: Role, active: bool, changeRequired: bool)
  datatype Replica = Replica(id: Id, username: string, hash: string, role: Role)

  type Users = map<Id, User>

  ghost predicate UniqueNames(users: Users) {
    forall a, b | a in users && b in users :: users[a].username == users[b].username ==> a == b
  }

  // ---------------------------------------------------------------- the merge

  predicate Named(users: Users, id: Id, name: string) {
    id in users && users[id].username == name
  }

  ghost function ByName(users: Users, name: string): (r: Option<Id>)
    ensures r.Some? ==> Named(users, r.value, name)
    ensures r.None? ==> forall id :: !Named(users, id, name)
  {
    if exists id :: Named(users, id, name) then var id :| Named(users, id, name); Some(id) else None
  }

  /** The local row that stands for a replicated owner; refused when id and username point at two rows. */
  ghost function Find(users: Users, o: Replica): Outcome<Option<Id>> {
    var byName := ByName(users, o.username);
    if o.id in users && byName.Some? && byName.value != o.id then Refused
    else if o.id in users then Ok(Some(o.id))
    else Ok(byName)
  }

  function Put(users: Users, o: Replica, row: Id): Users {
    users[row := User(o.username, o.hash, o.role, true, row in users && users[row].changeRequired)]
  }

  datatype Merge = Merge(users: Users, kept: seq<Id>)

  ghost function Merged(users: Users, owners: seq<Replica>): Outcome<Merge> {
    if owners == [] then Ok(Merge(users, []))
    else match Merged(users, owners[..|owners| - 1])
      case Refused => Refused
      case Ok(m) =>
        var o := owners[|owners| - 1];
        match Find(m.users, o)
        case Refused => Refused
        case Ok(found) => Ok(Merge(Put(m.users, o, found.GetOr(o.id)), m.kept + [found.GetOr(o.id)]))
  }

  function Deactivated(users: Users, kept: seq<Id>): Users {
    map id | id in users :: if id in kept then users[id] else users[id].(active := false)
  }

  predicate Complete(o: Replica) {
    o.id != 0 && o.username != "" && o.hash != "" && o.role != OtherRole
  }

  ghost predicate Importable(owners: seq<Replica>) {
    (forall i :: 0 <= i < |owners| ==> Complete(owners[i])) && exists i :: 0 <= i < |owners| && owners[i].role == Owner
  }

  /** The whole import: no owners means no change. */
  ghost function Imported(users: Users, owners: seq<Replica>): Outcome<Users> {
    if owners == [] then Ok(users)
    else if !Importable(owners) then Refused
    else match Merged(users, owners)
      case Refused => Refused
      case Ok(m) => Ok(Deactivated(m.users, m.kept))
  }

  class UserTable {
    var users: Users

    constructor ()
      ensures users == map[]
    {
      users := map[];
    }

    method ImportReplicatedOwners(owners: seq<Replica>) returns (ok: bool)
      requires UniqueNames(users)
      modifies this
      ensures ok <==> Imported(old(users), owners).Ok?
      ensures users == if ok then Imported(old(users), owners).result else old(users)
      ensures UniqueNames(users)
    {
      if owners == [] {
        return true;
      }
      var complete := CheckOwners(owners);
      if !complete {
        return false;
      }
      var saved := users;
      var kept := MergeOwners(owners);
      if kept.None? {
        users := saved;
        return false;
      }
      users := Deactivated(users, kept.value);
      return true;
    }

    /** The loop over the owners; when it gives up, the transaction is rolled back by the caller. */
    method MergeOwners(owners: seq<Replica>) returns (r: Option<seq<Id>>)
      requires UniqueNames(users)
      modifies this
      ensures r.None? <==> Merged(old(users), owners).Refused?
      ensures r.Some? ==> UniqueNames(users) && Merged(old(users), owners) == Ok(Merge(users, r.value))
    {
      var kept: seq<Id> := [];
      for n := 0 to |owners|
        invariant UniqueNames(users) && Merged(old(users), owners[..n]) == Ok(Merge(users, kept))
      {
        MergeAppend(old(users), owners[..n], owners[n]);
        assert owners[..n + 1] == owners[..n] + [owners[n]];
        var found := FindImportedOwner(owners[n]);
        if found.Refused? {
          MergedFails(old(users), owners, n + 1);
          return None;
        }
        var row := found.result.GetOr(owners[n].id);
        PutKeepsUnique(users, owners[n]);
        users := Put(users, owners[n], row);
        kept := kept + [row];
      }
      assert owners[..|owners|] == owners;
      return Some(kept);
    }

    method FindImportedOwner(o: Replica) returns (r: Outcome<Option<Id>>)
      requires UniqueNames(users)
      ensures r == Find(users, o)
    {
      var byName: Option<Id> := None;
      if id :| id in users && users[id].username == o.username {
        byName := Some(id);
        assert Named(users, id, o.username);
      }
      assert byName == ByName(users, o.username);
      if o.id in users && byName.Some? && byName.value != o.id {
        return Refused;
      }
      return Ok(if o.id in users then Some(o.id) else byName);
    }
  }

  method CheckOwners(owners: seq<Replica>) returns (ok: bool)
    ensures ok <==> Importable(owners)
  {
    var hasOwner := false;
    for n := 0 to |owners|
      invariant forall i :: 0 <= i < n ==> Complete(owners[i])
      invariant hasOwner <==> exists i :: 0 <= i < n && owners[i].role == Owner
    {
      if !Complete(owners[n]) {
        return false;
      }
      hasOwner := hasOwner || owners[n].role == Owner;
    }
    return hasOwner;
  }

  lemma PutKeepsUnique(users: Users, o: Replica)
    requires UniqueNames(users) && Find(users, o).Ok?
    ensures UniqueNames(Put(users, o, Find(users, o).result.GetOr(o.id)))
  {
    var row := Find(users, o).result.GetOr(o.id);
    assert forall id :: id in users && id != row ==> !Named(users, id, o.username);
  }

  lemma {:induction false} MergedFails(users: Users, owners: seq<Replica>, n: nat)
    requires n <= |owners| && Merged(users, owners[..n]).Refused?
    ensures Merged(users, owners).Refused?
    decreases |owners|
  {
    if n < |owners| {
      assert owners[..|owners| - 1][..n] == owners[..n];
      MergedFails(users, owners[..|owners| - 1], n);
    } else {
      assert owners[..n] == owners;
    }
  }

  // ---------------------------------------------------------------- when the accounts become the primary's

  predicate Distinct(owners: seq<Replica>) {
    forall i, k :: 0 <= i < k < |owners| ==> owners[i].id != owners[k].id && owners[i].username != owners[k].username
  }

  /** A later owner's id is a local row that an earlier owner's username names. */
  predicate Takeover(users: Users, owners: seq<Replica>, i: int, k: int) {
    0 <= i < k < |owners| && Named(users, owners[k].id, owners[i].username)
  }

  ghost predicate NoTakeover(users: Users, owners: seq<Replica>) {
    forall i, k :: 0 <= i < k < |owners| ==> !Takeover(users, owners, i, k)
  }

  predicate Is(u: User, o: Replica) {
    u.active && u.username == o.username && u.hash == o.hash && u.role == o.role
  }

  /** The active users are exactly the snapshot's (username, hash, role) triples. */
  ghost predicate Exact(users: Users, owners: seq<Replica>) {
    && (forall id :: id in users && users[id].active ==> exists i :: 0 <= i < |owners| && Is(users[id], owners[i]))
    && (forall i :: 0 <= i < |owners| ==> Present(users, owners[i]))
  }

  ghost predicate Present(users: Users, o: Replica) {
    exists id :: id in users && Is(users[id], o)
  }

  /** After merging `owners`: every owner has a row of its own, and every other row is as it was. */
  ghost predicate MergedWell(users: Users, owners: seq<Replica>, m: Merge) {
    && |m.kept| == |owners| && users.Keys <= m.users.Keys
    && (forall i :: 0 <= i < |owners| ==> m.kept[i] in m.users && Is(m.users[m.kept[i]], owners[i]))
    && (forall i, k :: 0 <= i < k < |owners| ==> m.kept[i] != m.kept[k])
    && (forall i :: 0 <= i < |owners| ==> m.kept[i] == owners[i].id || Named(users, m.kept[i], owners[i].username))
    && (forall i :: 0 <= i < |owners| && owners[i].id in users ==> m.kept[i] == owners[i].id)
    && (forall id :: id in m.users && id !in m.kept ==> id in users && m.users[id] == users[id])
  }

  lemma MergeOneMore(users: Users, owners: seq<Replica>, o: Replica, m: Merge)
    requires Distinct(owners + [o]) && NoTakeover(users, owners + [o])
    requires MergedWell(users, owners, m) && UniqueNames(m.users) && Find(m.users, o).Ok?
    ensures var row := Find(m.users, o).result.GetOr(o.id);
            MergedWell(users, owners + [o], Merge(Put(m.users, o, row), m.kept + [row]))
  {
    var all, n := owners + [o], |owners|;
    assert all[n] == o;
    var row := Find(m.users, o).result.GetOr(o.id);
    forall i | 0 <= i < n
      ensures m.kept[i] != row
    {
      assert all[i] == owners[i];
      assert !Takeover(users, all, i, n);
      assert Is(m.users[m.kept[i]], owners[i]);
    }
    assert row !in m.kept;
    assert row == o.id || Named(users, row, o.username);
  }

  lemma {:induction false} MergeIsWell(users: Users, owners: seq<Replica>)
    requires UniqueNames(users) && Distinct(owners) && NoTakeover(users, owners) && Merged(users, owners).Ok?
    ensures MergedWell(users, owners, Merged(users, owners).result) && UniqueNames(Merged(users, owners).result.users)
  {
    if owners != [] {
      var init, o := owners[..|owners| - 1], owners[|owners| - 1];
      assert owners == init + [o];
      forall i, k | 0 <= i < k < |init|
        ensures !Takeover(users, init, i, k)
      {
        assert !Takeover(users, owners, i, k);
      }
      MergeIsWell(users, init);
      var m := Merged(users, init).result;
      MergeOneMore(users, init, o, m);
      PutKeepsUnique(m.users, o);
    }
  }

  lemma WellIsExact(users: Users, owners: seq<Replica>, m: Merge)
    requires MergedWell(users, owners, m)
    ensures Exact(Deactivated(m.users, m.kept), owners)
  {
    var after := Deactivated(m.users, m.kept);
    forall id | id in after && after[id].active
      ensures exists i :: 0 <= i < |owners| && Is(after[id], owners[i])
    {
      assert id in m.kept;
      var i :| 0 <= i < |m.kept| && m.kept[i] == id;
      assert Is(after[id], owners[i]);
    }
    forall i | 0 <= i < |owners|
      ensures Present(after, owners[i])
    {
      var id := m.kept[i];
      assert id in after && id in m.kept && after[id] == m.users[id];
    }
  }

  // ---------------------------------------------------------------- and when they do not

  /** Up to the owner who takes the row over, the row keeps the username. */
  lemma {:induction false} NamedUntil(users: Users, owners: seq<Replica>, n: nat, i: nat, k: nat)
    requires UniqueNames(users) && Distinct(owners) && Takeover(users, owners, i, k) && n <= k &&
             Merged(users, owners[..n]).Ok?
    ensures UniqueNames(Merged(users, owners[..n]).result.users)
    ensures Named(Merged(users, owners[..n]).result.users, owners[k].id, owners[i].username)
  {
    if n > 0 {
      assert owners[..n][..n - 1] == owners[..n - 1] && owners[..n][n - 1] == owners[n - 1];
      NamedUntil(users, owners, n - 1, i, k);
      var m := Merged(users, owners[..n - 1]).result;
      PutKeepsUnique(m.users, owners[n - 1]);
      if n - 1 == i {
        assert ByName(m.users, owners[i].username) == Some(owners[k].id);
      } else {
        assert Find(m.users, owners[n - 1]).result.GetOr(owners[n - 1].id) != owners[k].id;
      }
    }
  }

  /** From then on nobody has the username. */
  lemma {:induction false} GoneAfter(users: Users, owners: seq<Replica>, n: nat, i: nat, k: nat)
    requires UniqueNames(users) && Distinct(owners) && Takeover(users, owners, i, k) && k < n <= |owners| &&
             Merged(users, owners[..n]).Ok?
    ensures forall id :: !Named(Merged(users, owners[..n]).result.users, id, owners[i].username)
  {
    assert owners[..n][..n - 1] == owners[..n - 1] && owners[..n][n - 1] == owners[n - 1];
    var m, name := Merged(users, owners[..n - 1]).result, owners[i].username;
    if n - 1 == k {
      NamedUntil(users, owners, k, i, k);
      assert forall id :: Named(m.users, id, name) ==> id == owners[k].id;
    } else {
      GoneAfter(users, owners, n - 1, i, k);
      forall id
        ensures !Named(Merged(users, owners[..n]).result.users, id, name)
      {
        assert !Named(m.users, id, name);
      }
    }
  }

  /** A successful import with distinct ids and usernames makes the active accounts exactly the primary's if and
      only if no later owner's id is a local row that an earlier owner's username names. */
  lemma ImportIsExactIff(users: Users, owners: seq<Replica>)
    requires UniqueNames(users) && owners != [] && Distinct(owners) && Imported(users, owners).Ok?
    ensures Exact(Imported(users, owners).result, owners) <==> NoTakeover(users, owners)
  {
    var m := Merged(users, owners).result;
    var after := Deactivated(m.users, m.kept);
    if NoTakeover(users, owners) {
      MergeIsWell(users, owners);
      WellIsExact(users, owners, m);
    } else {
      var i, k :| 0 <= i < k < |owners| && Takeover(users, owners, i, k);
      assert owners[..|owners|] == owners;
      GoneAfter(users, owners, |owners|, i, k);
      forall id | id in after
        ensures !Is(after[id], owners[i])
      {
        assert !Named(m.users, id, owners[i].username);
      }
    }
  }

  /** What a merge leaves of any row: a kept one is some owner's, with its own password-change flag, and every other
      one is as it was. No row is deleted. */
  ghost predicate Accounted(users: Users, owners: seq<Replica>, m: Merge) {
    && users.Keys <= m.users.Keys
    && (forall id :: id in m.users && id in m.kept ==>
          && (exists i :: 0 <= i < |owners| && Is(m.users[id], owners[i]))
          && m.users[id].changeRequired == (id in users && users[id].changeRequired))
    && (forall id :: id in m.users && id !in m.kept ==> id in users && m.users[id] == users[id])
  }

  lemma {:induction false} MergeAccounts(users: Users, owners: seq<Replica>)
    requires Merged(users, owners).Ok?
    ensures Accounted(users, owners, Merged(users, owners).result)
  {
    if owners != [] {
      var init, o := owners[..|owners| - 1], owners[|owners| - 1];
      MergeAccounts(users, init);
      AccountOneMore(users, init, o, Merged(users, init).result, Merged(users, owners).result);
      assert owners == init + [o];
    }
  }

  lemma AccountOneMore(users: Users, init: seq<Replica>, o: Replica, m: Merge, n: Merge)
    requires Accounted(users, init, m) && Find(m.users, o).Ok?
    requires var row := Find(m.users, o).result.GetOr(o.id); n == Merge(Put(m.users, o, row), m.kept + [row])
    ensures Accounted(users, init + [o], n)
  {
    var row, all := Find(m.users, o).result.GetOr(o.id), init + [o];
    assert all[|init|] == o && Is(n.users[row], o);
    forall id | id in n.users && id in n.kept
      ensures exists i :: 0 <= i < |all| && Is(n.users[id], all[i])
    {
      if id != row {
        var i :| 0 <= i < |init| && Is(m.users[id], init[i]);
        assert all[i] == init[i];
      }
    }
  }

  /** After any import no local row is gone; each row is either an owner's, active, with its own password-change
      flag, or as it was but inactive. */
  lemma ImportKeepsRows(users: Users, owners: seq<Replica>)
    requires owners != [] && Imported(users, owners).Ok?
    ensures var after := Imported(users, owners).result;
            && users.Keys <= after.Keys
            && forall id :: id in after ==>
                 || (id in users && after[id] == users[id].(active := false))
                 || exists i :: 0 <= i < |owners| &&
                      after[id] == User(owners[i].username, owners[i].hash, owners[i].role, true,
                                        id in users && users[id].changeRequired)
  {
    MergeAccounts(users, owners);
    var m := Merged(users, owners).result;
    var after := Deactivated(m.users, m.kept);
    forall id | id in after && id in m.kept
      ensures exists i :: 0 <= i < |owners| &&
                after[id] == User(owners[i].username, owners[i].hash, owners[i].role, true,
                                  id in users && users[id].changeRequired)
    {
      var i :| 0 <= i < |owners| && Is(m.users[id], owners[i]);
      assert after[id] == User(owners[i].username, owners[i].hash, owners[i].role, true,
                               id in users && users[id].changeRequired);
    }
  }

  // ---------------------------------------------------------------- when an import is refused

  /** Owner `k` matches a local row by id, while another local row has the username and is no earlier owner's. */
  ghost predicate Clash(users: Users, owners: seq<Replica>, k: int) {
    && 0 <= k < |owners| && owners[k].id in users
    && exists id :: Named(users, id, owners[k].username) && id != owners[k].id &&
                    forall i :: 0 <= i < k ==> owners[i].id != id
  }

  lemma ClashAtEnd(users: Users, init: seq<Replica>, o: Replica, m: Merge)
    requires UniqueNames(users) && Distinct(init + [o]) && NoTakeover(users, init + [o])
    requires MergedWell(users, init, m) && UniqueNames(m.users)
    ensures Find(m.users, o).Refused? <==> Clash(users, init + [o], |init|)
  {
    var all, n := init + [o], |init|;
    assert all[n] == o;
    assert forall i :: 0 <= i < n ==> all[i] == init[i] && init[i].id != o.id && init[i].username != o.username;
    assert o.id in m.users <==> o.id in users by {
      if o.id in m.users && o.id in m.kept {
        var i :| 0 <= i < n && m.kept[i] == o.id;
        assert Named(users, o.id, init[i].username);
      }
    }
    forall id
      ensures Named(m.users, id, o.username) <==>
              Named(users, id, o.username) && forall i :: 0 <= i < n ==> init[i].id != id
    {
      if id in m.kept {
        var i :| 0 <= i < n && m.kept[i] == id;
        assert Is(m.users[id], init[i]);
        assert Named(users, id, o.username) ==> init[i].id == id;
      } else {
        assert forall i :: 0 <= i < n && init[i].id == id && id in users ==> m.kept[i] == id;
      }
    }
    if id :| Named(m.users, id, o.username) && id != o.id {
      assert ByName(m.users, o.username) == Some(id);
    }
  }

  lemma {:induction false} MergeSucceedsIff(users: Users, owners: seq<Replica>)
    requires UniqueNames(users) && Distinct(owners) && NoTakeover(users, owners)
    ensures Merged(users, owners).Ok? <==> forall k :: !Clash(users, owners, k)
  {
    if owners != [] {
      var init, o := owners[..|owners| - 1], owners[|owners| - 1];
      assert owners == init + [o];
      assert forall i, k :: Takeover(users, init, i, k) ==> Takeover(users, owners, i, k);
      MergeSucceedsIff(users, init);
      assert forall k :: 0 <= k < |init| ==> (Clash(users, init, k) <==> Clash(users, owners, k)) by {
        assert forall i :: 0 <= i < |init| ==> owners[i] == init[i];
      }
      if Merged(users, init).Ok? {
        MergeIsWell(users, init);
        ClashAtEnd(users, init, o, Merged(users, init).result);
      } else {
        var k :| Clash(users, init, k);
        assert Clash(users, owners, k);
      }
    }
  }

  /** With distinct ids and usernames and no takeover: an import goes through exactly when it carries no owners, or
      only complete ones, an administrator among them, none of whom clashes. */
  lemma ImportSucceedsIff(users: Users, owners: seq<Replica>)
    requires UniqueNames(users) && Distinct(owners) && NoTakeover(users, owners)
    ensures Imported(users, owners).Ok? <==>
            || owners == []
            || (&& (forall o :: o in owners ==>
                    o.id != 0 && o.username != "" && o.hash != "" && o.role in {Owner, Operator})
                && (exists o :: o in owners && o.role == Owner)
                && (forall k :: !Clash(users, owners, k)))
    ensures owners == [] ==> Imported(users, owners) == Ok(users)
  {
    MergeSucceedsIff(users, owners);
    if o :| o in owners && o.role == Owner {
      var i :| 0 <= i < |owners| && owners[i] == o;
      assert owners[i].role == Owner;
    }
  }

  /** An exact import leaves somebody who can administer the node. */
  lemma ExactImportKeepsAnOwner(users: Users, owners: seq<Replica>)
    requires owners != [] && Imported(users, owners).Ok? && Exact(Imported(users, owners).result, owners)
    ensures exists id :: id in Imported(users, owners).result && Administers(Imported(users, owners).result[id])
  {
    assert Importable(owners);
    var i :| 0 <= i < |owners| && owners[i].role == Owner;
    OwnerIsPresent(Imported(users, owners).result, owners[i]);
  }

  predicate Administers(u: User) {
    u.active && u.role == Owner
  }

  lemma OwnerIsPresent(users: Users, o: Replica)
    requires Present(users, o) && o.role == Owner
    ensures exists id :: id in users && Administers(users[id])
  {
    var id :| id in users && Is(users[id], o);
    assert Administers(users[id]);
  }

  /** A takeover can cost the node its only owner: the snapshot names a local user under a new id and gives the
      local id to an operator. The import succeeds and leaves nobody but the operator. */
  lemma TakeoverCanLoseTheOwner(local: Id, u: User, first: Replica, second: Replica)
    requires Complete(first) && Complete(second) && first.role == Owner && second.role == Operator
    requires first.id != local && second.id == local && u.username == first.username &&
             first.username != second.username
    ensures Imported(map[local := u], [first, second]) ==
            Ok(map[local := User(second.username, second.hash, Operator, true, u.changeRequired)])
  {
    var users, owners := map[local := u], [first, second];
    var lost := User(second.username, second.hash, Operator, true, u.changeRequired);
    TakenOver(local, u, first, second);
    assert Deactivated(map[local := lost], [local, local]) == map[local := lost];
    assert owners[0].role == Owner;
  }

  lemma TakenOver(local: Id, u: User, first: Replica, second: Replica)
    requires first.id != local && second.id == local && u.username == first.username &&
             first.username != second.username
    ensures Merged(map[local := u], [first, second]) ==
            Ok(Merge(map[local := User(second.username, second.hash, second.role, true, u.changeRequired)],
                     [local, local]))
  {
    var renamed := User(first.username, first.hash, first.role, true, u.changeRequired);
    RowTaken(local, u, first);
    RowTaken(local, renamed, second);
    MergeAppend(map[local := u], [], first);
    MergeAppend(map[local := u], [first], second);
    assert [] + [first] == [first] && [] + [local] == [local];
    assert [first] + [second] == [first, second] && [local] + [local] == [local, local];
  }

  /** In a table of one row, an owner who matches it by id or by username gets it. */
  lemma RowTaken(local: Id, u: User, o: Replica)
    requires o.id == local || u.username == o.username
    ensures Find(map[local := u], o).Ok? && Find(map[local := u], o).result.GetOr(o.id) == local
    ensures Put(map[local := u], o, local) == map[local := User(o.username, o.hash, o.role, true, u.changeRequired)]
  {
    assert u.username == o.username ==> Named(map[local := u], local, o.username);
  }

  lemma MergeAppend(users: Users, init: seq<Replica>, o: Replica)
    ensures Merged(users, init + [o]) ==
            match Merged(users, init)
            case Refused => Refused
            case Ok(m) => match Find(m.users, o)
              case Refused => Refused
              case Ok(found) => Ok(Merge(Put(m.users, o, found.GetOr(o.id)), m.kept + [found.GetOr(o.id)]))
  {
    assert (init + [o])[..|init|] == init;
  }
}
