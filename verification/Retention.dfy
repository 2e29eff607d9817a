/** Which operational artifacts to delete: the oldest unprotected ones, as few as age and size limits allow. */
module Retention {
  import opened Sorting

  datatype Artifact = Artifact(id: string, size: int, createdAt: int, current: bool, activeCertificate: bool)
  // Age in days, clocks in milliseconds.
  datatype Policy = Policy(maxAgeDays: int, maxSize: int)

  const DAY := 24 * 60 * 60 * 1000

  predicate Protected(a: Artifact) {
    a.current || a.activeCertificate
  }

  predicate Older(a: Artifact, b: Artifact) {
    a.createdAt < b.createdAt
  }

  function ProtectedIds(artifacts: seq<Artifact>): (r: set<string>)
    ensures forall id :: id in r <==>
            exists i :: 0 <= i < |artifacts| && Protected(artifacts[i]) && artifacts[i].id == id
  {
    set a | a in artifacts && Protected(a) :: a.id
  }

  function Outside(artifacts: seq<Artifact>, ids: set<string>): seq<Artifact> {
    if artifacts == [] then []
    else Outside(artifacts[..|artifacts| - 1], ids) +
         if artifacts[|artifacts| - 1].id in ids then [] else [artifacts[|artifacts| - 1]]
  }

  /** The artifacts that may go, oldest first. */
  function Candidates(artifacts: seq<Artifact>): seq<Artifact> {
    Sort(Outside(artifacts, ProtectedIds(artifacts)), Older)
  }

  function Total(artifacts: seq<Artifact>): int {
    if artifacts == [] then 0 else Total(artifacts[..|artifacts| - 1]) + artifacts[|artifacts| - 1].size
  }

  predicate OverAge(a: Artifact, policy: Policy, now: int) {
    a.createdAt < now - policy.maxAgeDays * DAY
  }

  ghost predicate UniqueIds(artifacts: seq<Artifact>) {
    forall i, k :: 0 <= i < k < |artifacts| ==> artifacts[i].id != artifacts[k].id
  }

  ghost predicate NonNegative(artifacts: seq<Artifact>) {
    forall i :: 0 <= i < |artifacts| ==> artifacts[i].size >= 0
  }

  // ---------------------------------------------------------------- what to delete

  /** Deleting the first `k` candidates removes every over-age one and brings the rest within the limit. */
  ghost predicate Meets(artifacts: seq<Artifact>, policy: Policy, now: int, k: nat) {
    var c := Candidates(artifacts);
    && k <= |c| && (forall i :: k <= i < |c| ==> now - c[i].createdAt <= policy.maxAgeDays * (24 * 60 * 60 * 1000))
    && Total(artifacts) - Total(c[..k]) <= policy.maxSize
  }

  /** The fewest candidates that meet the policy, or all of them when no number does. */
  ghost predicate Fewest(artifacts: seq<Artifact>, policy: Policy, now: int, k: nat) {
    && k <= |Candidates(artifacts)| && (forall j: nat :: j < k ==> !Meets(artifacts, policy, now, j))
    && (Meets(artifacts, policy, now, k) || k == |Candidates(artifacts)|)
  }

  /** `aged` candidates are over age; being sorted, they come first. */
  ghost predicate IsAged(c: seq<Artifact>, policy: Policy, now: int, aged: nat) {
    aged <= |c| && forall i :: 0 <= i < |c| ==> (OverAge(c[i], policy, now) <==> i < aged)
  }

  /** `sized` is the first number of deletions that brings `total` within the limit, or all of them. */
  ghost predicate IsSized(c: seq<Artifact>, total: int, limit: int, sized: nat) {
    && sized <= |c| && (forall j: nat :: j < sized ==> total - Total(c[..j]) > limit)
    && (sized == |c| || total - Total(c[..sized]) <= limit)
  }

  /** As many of the oldest candidates as the stricter of the two limits asks for. */
  ghost predicate Needed(artifacts: seq<Artifact>, policy: Policy, now: int, k: nat) {
    var c := Candidates(artifacts);
    k <= |c| && exists aged: nat, sized: nat ::
      && IsAged(c, policy, now, aged) && IsSized(c, Total(artifacts), policy.maxSize, sized)
      && k == if aged < sized then sized else aged
  }

  // ---------------------------------------------------------------- candidates

  lemma {:induction false} OutsideMembers(artifacts: seq<Artifact>, ids: set<string>)
    ensures forall a :: a in Outside(artifacts, ids) <==> a in artifacts && a.id !in ids
    ensures UniqueIds(artifacts) ==> Pairwise(Outside(artifacts, ids), DifferentIds)
  {
    if artifacts != [] {
      var init := artifacts[..|artifacts| - 1];
      OutsideMembers(init, ids);
      if UniqueIds(artifacts) {
        forall i | 0 <= i < |Outside(init, ids)|
          ensures DifferentIds(Outside(init, ids)[i], artifacts[|artifacts| - 1])
        {
          assert Outside(init, ids)[i] in init;
        }
      }
    }
  }

  predicate DifferentIds(a: Artifact, b: Artifact) {
    a.id != b.id
  }

  /** The candidates are exactly the artifacts without a protected namesake, oldest first. */
  lemma CandidatesAreUnprotected(artifacts: seq<Artifact>)
    ensures forall a :: a in Candidates(artifacts) <==>
                        a in artifacts &&
                        forall p :: p in artifacts && p.id == a.id ==> !p.current && !p.activeCertificate
    ensures forall i, k :: 0 <= i < k < |Candidates(artifacts)| ==>
              Candidates(artifacts)[i].createdAt <= Candidates(artifacts)[k].createdAt
    ensures InOrder(Candidates(artifacts), Older)
    ensures UniqueIds(artifacts) ==> Pairwise(Candidates(artifacts), DifferentIds)
  {
    var ids := ProtectedIds(artifacts);
    OutsideMembers(artifacts, ids);
    SortPermutes(Outside(artifacts, ids), Older);
    SortOrders(Outside(artifacts, ids), Older);
    if UniqueIds(artifacts) {
      SortKeepsPairwise(Outside(artifacts, ids), Older, DifferentIds);
    }
  }

  lemma {:induction false} TotalGrows(s: seq<Artifact>, j: nat, k: nat)
    requires NonNegative(s) && j <= k <= |s|
    ensures Total(s[..j]) <= Total(s[..k])
    decreases k
  {
    if j < k {
      assert s[..k][..k - 1] == s[..k - 1];
      TotalGrows(s, j, k - 1);
    }
  }

  // ---------------------------------------------------------------- the selection

  function Ids(s: seq<Artifact>): (r: seq<string>)
    ensures |r| == |s| && forall i :: 0 <= i < |s| ==> r[i] == s[i].id
  {
    if s == [] then [] else Ids(s[..|s| - 1]) + [s[|s| - 1].id]
  }

  function IdSet(s: seq<Artifact>): set<string> {
    set a | a in s :: a.id
  }

  /** The over-age candidates come first. */
  method DeleteOverAge(c: seq<Artifact>, policy: Policy, now: int) returns (deleted: set<string>, ghost aged: nat)
    requires InOrder(c, Older)
    ensures IsAged(c, policy, now, aged) && deleted == IdSet(c[..aged])
  {
    deleted, aged := {}, 0;
    for n := 0 to |c|
      invariant aged <= n && (forall i :: 0 <= i < n ==> (OverAge(c[i], policy, now) <==> i < aged))
      invariant deleted == IdSet(c[..aged])
    {
      assert aged < n ==> !OverAge(c[aged], policy, now) && !Older(c[n], c[aged]);
      if OverAge(c[n], policy, now) {
        OneMoreId(c, aged);
        deleted, aged := deleted + {c[n].id}, aged + 1;
      }
    }
  }

  lemma OneMoreId(c: seq<Artifact>, n: nat)
    requires n < |c|
    ensures IdSet(c[..n + 1]) == IdSet(c[..n]) + {c[n].id}
    ensures Total(c[..n + 1]) == Total(c[..n]) + c[n].size
  {
    assert c[..n + 1] == c[..n] + [c[n]] && c[..n + 1][..n] == c[..n];
  }

  /** Deletes from the front until the rest is small enough, whatever was deleted before. */
  method DeleteOversize(c: seq<Artifact>, total: int, limit: int, before: set<string>)
    returns (deleted: set<string>, ghost sized: nat)
    ensures IsSized(c, total, limit, sized) && deleted == before + IdSet(c[..sized])
  {
    deleted, sized := before, 0;
    var remaining := total;
    for n := 0 to |c|
      invariant sized == n && remaining == total - Total(c[..n])
      invariant forall j: nat :: j < n ==> total - Total(c[..j]) > limit
      invariant deleted == before + IdSet(c[..n])
    {
      if remaining <= limit {
        return;
      }
      OneMoreId(c, n);
      deleted := deleted + {c[n].id};
      remaining := remaining - c[n].size;
      sized := n + 1;
    }
  }

  function Chosen(c: seq<Artifact>, deleted: set<string>): seq<Artifact> {
    if c == [] then []
    else Chosen(c[..|c| - 1], deleted) + if c[|c| - 1].id in deleted then [c[|c| - 1]] else []
  }

  /** Every candidate that shares an id with one of the first `k`. */
  function Deleted(artifacts: seq<Artifact>, k: nat): seq<Artifact>
    requires k <= |Candidates(artifacts)|
  {
    Chosen(Candidates(artifacts), IdSet(Candidates(artifacts)[..k]))
  }

  /** For every input: the candidates that share an id with one of the needed ones, oldest first. */
  method SelectRetentionDeletions(artifacts: seq<Artifact>, policy: Policy, now: int) returns (ids: seq<string>)
    ensures exists k: nat :: Needed(artifacts, policy, now, k) && ids == Ids(Deleted(artifacts, k))
  {
    var c := Candidates(artifacts);
    CandidatesAreUnprotected(artifacts);
    var overAge, aged := DeleteOverAge(c, policy, now);
    var deleted, sized := DeleteOversize(c, Total(artifacts), policy.maxSize, overAge);
    LongerIdSet(c, aged, sized);
    ghost var k := if aged < sized then sized else aged;
    assert Needed(artifacts, policy, now, k) && deleted == IdSet(c[..k]);
    ids := Ids(Chosen(c, deleted));
  }

  lemma LongerIdSet(c: seq<Artifact>, j: nat, k: nat)
    requires j <= |c| && k <= |c|
    ensures IdSet(c[..j]) + IdSet(c[..k]) == IdSet(c[..if j < k then k else j])
  {
    var longer, shorter := if j < k then c[..k] else c[..j], if j < k then c[..j] else c[..k];
    assert forall a :: a in shorter ==> a in longer;
  }

  // ---------------------------------------------------------------- what that means

  /** The deletions are the needed candidates alone if and only if none of their ids comes again behind them. */
  lemma {:induction false} ChosenIsPrefixIff(c: seq<Artifact>, k: nat)
    requires k <= |c|
    ensures Chosen(c, IdSet(c[..k])) == c[..k] <==> forall i :: k <= i < |c| ==> c[i].id !in IdSet(c[..k])
  {
    var ids := IdSet(c[..k]);
    assert forall i :: 0 <= i < k ==> c[..k][i].id in ids;
    ChosenCounts(c, ids, k);
  }

  /** All of the first `k` are chosen, and behind them whatever has a deleted id. */
  lemma {:induction false} ChosenCounts(c: seq<Artifact>, ids: set<string>, k: nat)
    requires k <= |c| && forall i :: 0 <= i < k ==> c[i].id in ids
    ensures |Chosen(c, ids)| >= k && Chosen(c, ids)[..k] == c[..k]
    ensures |Chosen(c, ids)| == k <==> forall i :: k <= i < |c| ==> c[i].id !in ids
  {
    if c != [] {
      var init := c[..|c| - 1];
      if k == |c| {
        ChosenCounts(init, ids, k - 1);
        assert c == init + [c[|c| - 1]] && init[..k - 1] == init;
      } else {
        ChosenCounts(init, ids, k);
        assert init[..k] == c[..k];
        assert forall i :: k <= i < |init| ==> init[i] == c[i];
      }
    }
  }

  lemma NeededIsFewestIff(artifacts: seq<Artifact>, policy: Policy, now: int, k: nat, aged: nat, sized: nat)
    requires IsAged(Candidates(artifacts), policy, now, aged) &&
             IsSized(Candidates(artifacts), Total(artifacts), policy.maxSize, sized)
    requires k == if aged < sized then sized else aged
    ensures Fewest(artifacts, policy, now, k) <==>
            k == |Candidates(artifacts)| || Total(artifacts) - Total(Candidates(artifacts)[..k]) <= policy.maxSize
    ensures NonNegative(Candidates(artifacts)) ==> Fewest(artifacts, policy, now, k)
  {
    var c := Candidates(artifacts);
    forall j: nat | j < aged
      ensures !Meets(artifacts, policy, now, j)
    {
      assert OverAge(c[j], policy, now);
    }
    if NonNegative(c) {
      TotalGrows(c, sized, k);
    }
  }

  /** The needed candidates are the fewest that meet the policy if and only if they bring the rest within the limit,
      or are all; sizes that are not negative see to that, and unique ids to nothing else being deleted. */
  lemma DeletionsAreFewestIff(artifacts: seq<Artifact>, policy: Policy, now: int, k: nat)
    requires Needed(artifacts, policy, now, k)
    ensures Fewest(artifacts, policy, now, k) <==>
            k == |Candidates(artifacts)| || Total(artifacts) - Total(Candidates(artifacts)[..k]) <= policy.maxSize
    ensures NonNegative(artifacts) ==> Fewest(artifacts, policy, now, k)
    ensures UniqueIds(artifacts) ==> Deleted(artifacts, k) == Candidates(artifacts)[..k]
  {
    var c := Candidates(artifacts);
    var aged: nat, sized: nat :| IsAged(c, policy, now, aged) &&
      IsSized(c, Total(artifacts), policy.maxSize, sized) && k == if aged < sized then sized else aged;
    NeededIsFewestIff(artifacts, policy, now, k, aged, sized);
    CandidatesAreUnprotected(artifacts);
    assert NonNegative(artifacts) ==> NonNegative(c) by {
      assert forall i :: 0 <= i < |c| ==> c[i] in c && c[i] in artifacts;
    }
    if UniqueIds(artifacts) {
      ApartIsUnique(c, k);
      ChosenIsPrefixIff(c, k);
    }
  }

  lemma ApartIsUnique(c: seq<Artifact>, k: nat)
    requires Pairwise(c, DifferentIds) && k <= |c|
    ensures forall i :: k <= i < |c| ==> c[i].id !in IdSet(c[..k])
  {
    forall i, j | 0 <= j < k <= i < |c|
      ensures c[..k][j].id != c[i].id
    {
      assert DifferentIds(c[j], c[i]);
    }
  }

  lemma InAgeOrder(a: Artifact, b: Artifact, d: Artifact)
    requires a.createdAt < b.createdAt < d.createdAt
    ensures Sort([a, b, d], Older) == [a, b, d]
  {
    assert [a, b, d][..2] == [a, b] && [a, b][..1] == [a] && [a][..0] == [];
    assert Sort([a], Older) == [a];
    assert Insert(b, [a], Older) == [a] + Insert(b, [], Older) == [a, b];
    assert Sort([a, b], Older) == [a, b];
    assert Insert(d, [b], Older) == [b] + Insert(d, [], Older) == [b, d];
    assert Insert(d, [a, b], Older) == [a] + Insert(d, [b], Older);
  }

  lemma {:induction false} NoneOutside(s: seq<Artifact>)
    ensures Outside(s, {}) == s
  {
    if s != [] {
      NoneOutside(s[..|s| - 1]);
    }
  }

  lemma Totals(a: Artifact, b: Artifact, d: Artifact)
    ensures Total([a]) == a.size && Total([a, b]) == a.size + b.size && Total([a, b, d]) == a.size + b.size + d.size
  {
    assert [a, b, d][..2] == [a, b] && [a, b][..1] == [a] && [a][..0] == [];
    assert Total([]) == 0 && Total([a]) == a.size;
  }

  /** A negative size: the size limit stops early, and the age limit deletes on to where the total is above again.
      */
  lemma NegativeSizeMissesTheLimit(a: Artifact, b: Artifact, d: Artifact)
    requires !Protected(a) && !Protected(b) && !Protected(d) && a.size == 20 && b.size == -15 && d.size == 10
    requires a.createdAt == 0 && b.createdAt == 1 && d.createdAt == 2 * DAY
    ensures Needed([a, b, d], Policy(1, 9), 2 * DAY, 2) && !Fewest([a, b, d], Policy(1, 9), 2 * DAY, 2)
  {
    var all := [a, b, d];
    assert ProtectedIds(all) == {};
    NoneOutside(all);
    InAgeOrder(a, b, d);
    Totals(a, b, d);
    assert all[..2] == [a, b] && all[..1] == [a] && all[..0] == [];
    assert IsAged(all, Policy(1, 9), 2 * DAY, 2) && IsSized(all, 15, 9, 1);
    NeededIsFewestIff(all, Policy(1, 9), 2 * DAY, 2, 2, 1);
  }
}
