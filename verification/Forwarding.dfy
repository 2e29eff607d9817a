/** Conditional forwarding: which resolver pool answers a query, and the order of the Corefile's blocks. */
module Forwarding {
  import opened Options
  import opened DnsNames
  import opened Sorting

  datatype Endpoint = Endpoint(host: string, port: int)
  datatype Pool = Pool(id: string, endpoints: seq<Endpoint>)
  datatype Rule = Rule(suffix: string, pool: Pool)

  /** `isIp` stands for `isIP` of the Node runtime: 4, 6, or 0 for text that is no address. */
  predicate PoolOk(pool: Pool, isIp: string -> int) {
    && Trim(pool.id) != [] && pool.endpoints != []
    && forall i :: 0 <= i < |pool.endpoints| ==>
       isIp(pool.endpoints[i].host) > 0 && 1 <= pool.endpoints[i].port <= 65535
  }

  predicate RuleOk(rule: Rule, isIp: string -> int) {
    NormalizeDnsName(rule.suffix, false).Some? && PoolOk(rule.pool, isIp)
  }

  function NormalRule(rule: Rule): Rule {
    Rule(NormalizeDnsName(rule.suffix, false).GetOr([]), rule.pool)
  }

  function NormalRules(rules: seq<Rule>): (r: seq<Rule>)
    ensures |r| == |rules| && forall i :: 0 <= i < |rules| ==> r[i] == NormalRule(rules[i])
  {
    seq(|rules|, i requires 0 <= i < |rules| => NormalRule(rules[i]))
  }

  ghost predicate DistinctSuffixes(rules: seq<Rule>) {
    forall i, k :: 0 <= i < k < |rules| ==> rules[i].suffix != rules[k].suffix
  }

  ghost predicate AllOk(rules: seq<Rule>, isIp: string -> int) {
    forall i :: 0 <= i < |rules| ==> RuleOk(rules[i], isIp)
  }

  ghost predicate RulesOk(rules: seq<Rule>, isIp: string -> int) {
    AllOk(rules, isIp) && DistinctSuffixes(NormalRules(rules))
  }

  /** Which rules are taken: pools with an id and with valid endpoints, at least one, and suffixes that are names,
      no two of them the same name. */
  lemma RulesOkIff(rules: seq<Rule>, isIp: string -> int)
    ensures RulesOk(rules, isIp) <==>
            && (forall r :: r in rules ==>
                  && NormalizeDnsName(r.suffix, false).Some? && Trim(r.pool.id) != "" && |r.pool.endpoints| > 0
                  && forall e :: e in r.pool.endpoints ==> isIp(e.host) > 0 && 1 <= e.port <= 65535)
            && (forall i, k :: 0 <= i < k < |rules| ==>
                  NormalizeDnsName(rules[i].suffix, false) != NormalizeDnsName(rules[k].suffix, false))
  {
    if AllOk(rules, isIp) {
      forall i, k | 0 <= i < k < |rules|
        ensures NormalRules(rules)[i].suffix != NormalRules(rules)[k].suffix <==>
                NormalizeDnsName(rules[i].suffix, false) != NormalizeDnsName(rules[k].suffix, false)
      {
        assert RuleOk(rules[i], isIp) && RuleOk(rules[k], isIp);
      }
    }
  }

  /** Refused exactly when a suffix or pool is invalid or two suffixes agree once normalised. */
  method ValidateForwardingRules(rules: seq<Rule>, isIp: string -> int) returns (r: Outcome<seq<Rule>>)
    ensures r == if RulesOk(rules, isIp) then Ok(NormalRules(rules)) else Refused
  {
    var normal, ok := NormalRules(rules), (rule: Rule) => RuleOk(rule, isIp);
    var faulty := FirstFault(rules, normal, ok);
    if faulty < |rules| {
      assert ok(rules[faulty]) == RuleOk(rules[faulty], isIp);
      return Refused;
    }
    assert forall i :: 0 <= i < |rules| ==> ok(rules[i]) == RuleOk(rules[i], isIp);
    return Ok(normal);
  }

  /** The loop: the first rule that is invalid or repeats a suffix, or the number of rules. */
  method FirstFault(rules: seq<Rule>, normal: seq<Rule>, ok: Rule -> bool) returns (n: nat)
    requires |normal| == |rules|
    ensures n <= |rules|
    ensures n == |rules| ==> (forall i :: 0 <= i < |rules| ==> ok(rules[i])) && DistinctSuffixes(normal)
    ensures n < |rules| ==> !ok(rules[n]) || exists i :: 0 <= i < n && normal[i].suffix == normal[n].suffix
  {
    var seen: set<string> := {};
    n := 0;
    while n < |rules|
      invariant n <= |rules|
      invariant forall i :: 0 <= i < n ==> ok(rules[i]) && normal[i].suffix in seen
      invariant forall i, k :: 0 <= i < k < n ==> normal[i].suffix != normal[k].suffix
      invariant forall s :: s in seen ==> exists i :: 0 <= i < n && normal[i].suffix == s
    {
      if !ok(rules[n]) || normal[n].suffix in seen {
        return;
      }
      seen := seen + {normal[n].suffix};
      n := n + 1;
    }
  }

  // ---------------------------------------------------------------- selection

  predicate MoreLabels(a: Rule, b: Rule) {
    |Labels(a.suffix)| > |Labels(b.suffix)|
  }

  predicate Longer(a: Rule, b: Rule) {
    |a.suffix| > |b.suffix|
  }

  function Matching(query: string, rules: seq<Rule>): (r: seq<Rule>)
    ensures forall rule :: rule in r <==> rule in rules && Within(query, rule.suffix)
  {
    if rules == [] then []
    else if Within(query, rules[0].suffix) then [rules[0]] + Matching(query, rules[1..])
    else Matching(query, rules[1..])
  }

  /** The rule at the head of the matches sorted by label count. */
  function Select(query: string, rules: seq<Rule>): Option<Rule> {
    var sorted := Sort(Matching(query, rules), MoreLabels);
    if sorted == [] then None else Some(sorted[0])
  }

  /** The rule whose suffix is the longest of those the query falls under. */
  ghost predicate Longest(query: string, rules: seq<Rule>, rule: Rule) {
    && rule in rules && Within(query, rule.suffix)
    && forall other :: other in rules && Within(query, other.suffix) && other != rule ==> |other.suffix| < |rule.suffix|
  }

  lemma SelectIsLongest(query: string, rules: seq<Rule>)
    requires DistinctSuffixes(rules)
    ensures forall rule :: Select(query, rules) == Some(rule) <==> Longest(query, rules, rule)
    ensures Select(query, rules).None? <==> forall rule :: rule in rules ==> !Within(query, rule.suffix)
  {
    var matches := Matching(query, rules);
    var sorted := Sort(matches, MoreLabels);
    SortOrders(matches, MoreLabels);
    SortPermutes(matches, MoreLabels);
    if sorted == [] {
      assert forall rule :: rule in matches ==> rule in sorted;
    } else {
      var best := sorted[0];
      assert best in sorted;
      forall other | other in rules && Within(query, other.suffix) && other != best
        ensures |other.suffix| < |best.suffix|
      {
        assert other in sorted;
        var k :| 0 <= k < |sorted| && sorted[k] == other;
        assert !MoreLabels(sorted[k], sorted[0]);
        SuffixesOfOneName(query, best.suffix, other.suffix);
        SuffixesOfOneName(query, other.suffix, best.suffix);
        SameSuffixSameRule(rules, best, other);
      }
    }
  }

  lemma SameSuffixSameRule(rules: seq<Rule>, a: Rule, b: Rule)
    requires DistinctSuffixes(rules) && a in rules && b in rules
    ensures a.suffix == b.suffix <==> a == b
  {
    var i :| 0 <= i < |rules| && rules[i] == a;
    var k :| 0 <= k < |rules| && rules[k] == b;
  }

  lemma {:induction false} DistinctOccursOnce(rules: seq<Rule>, rule: Rule)
    requires DistinctSuffixes(rules)
    ensures multiset(rules)[rule] <= 1
  {
    if rules != [] {
      var init, last := rules[..|rules| - 1], rules[|rules| - 1];
      DistinctOccursOnce(init, rule);
      assert rules == init + [last];
      if rule == last {
        assert rule !in init;
      }
    }
  }

  lemma TwoPlacesOccurTwice(rules: seq<Rule>, i: nat, k: nat)
    requires i < k < |rules| && rules[i] == rules[k]
    ensures multiset(rules)[rules[i]] >= 2
  {
    var front, back := rules[..k], rules[k..];
    assert rules == front + back && rules[i] == front[i] && rules[k] == back[0];
    assert rules[i] in front && rules[k] in back;
  }

  /** A listing in another order has distinct suffixes, too. */
  lemma ReorderedStaysDistinct(a: seq<Rule>, b: seq<Rule>)
    requires DistinctSuffixes(a) && multiset(a) == multiset(b)
    ensures DistinctSuffixes(b)
  {
    forall i, k | 0 <= i < k < |b|
      ensures b[i].suffix != b[k].suffix
    {
      assert b[i] in multiset(a) && b[k] in multiset(a);
      DistinctOccursOnce(a, b[i]);
      if b[i] == b[k] {
        TwoPlacesOccurTwice(b, i, k);
      } else {
        SameSuffixSameRule(a, b[i], b[k]);
      }
    }
  }

  /** The rules may be listed in any order. */
  lemma SelectIgnoresOrder(query: string, a: seq<Rule>, b: seq<Rule>)
    requires DistinctSuffixes(a) && multiset(a) == multiset(b)
    ensures Select(query, a) == Select(query, b)
  {
    assert forall rule :: rule in a <==> rule in multiset(a);
    assert forall rule :: rule in b <==> rule in multiset(b);
    ReorderedStaysDistinct(a, b);
    SelectIsLongest(query, a);
    SelectIsLongest(query, b);
    if Select(query, a).Some? {
      assert Longest(query, b, Select(query, a).value);
    }
  }

  /** The first block of the Corefile that covers the query. */
  function FirstBlock(query: string, blocks: seq<Rule>): Option<Rule> {
    if blocks == [] then None
    else if Within(query, blocks[0].suffix) then Some(blocks[0])
    else FirstBlock(query, blocks[1..])
  }

  lemma {:induction false} FirstBlockIsFirst(query: string, blocks: seq<Rule>)
    ensures FirstBlock(query, blocks).None? ==> forall i :: 0 <= i < |blocks| ==> !Within(query, blocks[i].suffix)
    ensures FirstBlock(query, blocks).Some? ==>
              exists i ::
                0 <= i < |blocks| && blocks[i] == FirstBlock(query, blocks).value && Within(query, blocks[i].suffix) &&
                          forall k :: 0 <= k < i ==> !Within(query, blocks[k].suffix)
  {
    if blocks != [] && !Within(query, blocks[0].suffix) {
      FirstBlockIsFirst(query, blocks[1..]);
      if FirstBlock(query, blocks).Some? {
        var i :| 0 <= i < |blocks| - 1 && blocks[1..][i] == FirstBlock(query, blocks[1..]).value &&
                 Within(query, blocks[1..][i].suffix) && forall k :: 0 <= k < i ==>
                   !Within(query, blocks[1..][k].suffix);
        assert forall k :: 0 <= k < i + 1 ==> !Within(query, blocks[k].suffix) by {
          forall k | 0 <= k < i + 1
            ensures !Within(query, blocks[k].suffix)
          {
            assert k > 0 ==> !Within(query, blocks[1..][k - 1].suffix);
          }
        }
        assert blocks[i + 1] == blocks[1..][i];
      }
    }
  }

  /** Blocks sorted by string length serve every query from the rule that sorting by label count selects. */
  lemma CorefileOrderAgrees(query: string, rules: seq<Rule>)
    requires DistinctSuffixes(rules)
    ensures FirstBlock(query, Sort(rules, Longer)) == Select(query, rules)
  {
    var blocks := Sort(rules, Longer);
    SortPermutes(rules, Longer);
    FirstBlockIsFirst(query, blocks);
    SelectIsLongest(query, rules);
    var first := FirstBlock(query, blocks);
    if first.Some? {
      var i :| 0 <= i < |blocks| && blocks[i] == first.value && Within(query, blocks[i].suffix) &&
               forall k :: 0 <= k < i ==> !Within(query, blocks[k].suffix);
      FirstBlockIsLongest(query, rules, i);
    } else {
      assert forall rule :: rule in rules ==> rule in blocks;
    }
  }

  lemma FirstBlockIsLongest(query: string, rules: seq<Rule>, i: nat)
    requires DistinctSuffixes(rules) && i < |Sort(rules, Longer)|
    requires Within(query, Sort(rules, Longer)[i].suffix)
    requires forall k :: 0 <= k < i ==> !Within(query, Sort(rules, Longer)[k].suffix)
    ensures Longest(query, rules, Sort(rules, Longer)[i])
  {
    var blocks := Sort(rules, Longer);
    var first := blocks[i];
    SortOrders(rules, Longer);
    SortPermutes(rules, Longer);
    assert first in blocks;
    forall other | other in rules && Within(query, other.suffix) && other != first
      ensures |other.suffix| < |first.suffix|
    {
      assert other in blocks;
      var k :| 0 <= k < |blocks| && blocks[k] == other;
      assert !Longer(blocks[k], blocks[i]);
      SuffixesOfOneName(query, other.suffix, first.suffix);
      SameSuffixSameRule(rules, first, other);
    }
  }

  method SelectForwardingPool(queryName: string, rules: seq<Rule>, isIp: string -> int)
    returns (r: Outcome<Option<Pool>>)
    ensures r.Ok? <==> NormalizeDnsName(queryName, true).Some? && RulesOk(rules, isIp)
    ensures r.Ok? && r.result.None? ==> Select(NormalizeDnsName(queryName, true).value, NormalRules(rules)).None?
    ensures r.Ok? && r.result.Some? ==>
              exists rule ::
                Longest(NormalizeDnsName(queryName, true).value, NormalRules(rules), rule) &&
                  rule.pool == r.result.value
  {
    var query := NormalizeDnsName(queryName, true);
    if query.None? {
      return Refused;
    }
    var checked := ValidateForwardingRules(rules, isIp);
    if checked.Refused? {
      return Refused;
    }
    var found := Select(query.value, checked.result);
    SelectIsLongest(query.value, checked.result);
    return Ok(if found.None? then None else Some(found.value.pool));
  }
}
