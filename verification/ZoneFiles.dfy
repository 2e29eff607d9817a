/**
 * Record sets and the zone files rendered from them. A valid set has at most an alias or other records at a
 * name; in the rendered file an alias then shares its owner with another line only at the zone apex.
 */
module ZoneFiles {
  import opened Options
  import opened DnsNames
  import opened ZoneTexts
  import opened Sorting
  import opened Numerals

  const MIN_TTL := 30
  const MAX_TTL := 86400

  datatype Kind = A | AAAA | CNAME | TXT | MX | SRV | SOA | NS
  datatype Value = Plain(text: string) | Mail(priority: nat, exchange: string)
                 | Service(priority: nat, weight: nat, port: nat, target: string)
  datatype Record = Record(id: string, name: string, kind: Kind, value: Value, ttl: Option<int>,
                           enabled: bool, proxied: bool, proxy: Option<string>)
  // The empty text is an address that is not set.
  datatype Ingress = Ingress(ipv4: string, ipv6: string)
  // `isIP` of the Node runtime and the validation of proxy settings.
  datatype Checks = Checks(isIp: string -> int, proxyOk: string -> bool)

  // ---------------------------------------------------------------- validation

  predicate Port(n: nat) {
    n <= 65535
  }

  /** Length in UTF-16 code units. */
  function Units(s: string): nat {
    if s == [] then 0 else (if s[0] as int > 0xFFFF then 2 else 1) + Units(s[1..])
  }

  /** A text has the units of its parts, and a character outside the basic plane has two. */
  lemma {:induction false} UnitsOfParts(a: string, b: string)
    ensures Units(a + b) == Units(a) + Units(b)
    ensures |a| == 1 ==> Units(a) == if a[0] as int >= 0x1_0000 then 2 else 1
  {
    if a == [] {
      assert a + b == b;
    } else {
      assert (a + b)[1..] == a[1..] + b;
      UnitsOfParts(a[1..], b);
    }
  }

  predicate ValueOk(kind: Kind, value: Value, isIp: string -> int) {
    match kind
    case A => value.Plain? && isIp(value.text) == 4
    case AAAA => value.Plain? && isIp(value.text) == 6
    case CNAME => value.Plain? && NormalizeDnsName(value.text, true).Some?
    case TXT => value.Plain? && 0 < Units(value.text) <= 255 && '\r' !in value.text && '\n' !in value.text
    case MX => value.Mail? && Port(value.priority) && NormalizeDnsName(value.exchange, true).Some?
    case SRV => value.Service? && Port(value.priority) && Port(value.weight) && Port(value.port) &&
                NormalizeDnsName(value.target, true).Some?
    case _ => false
  }

  predicate IngressOk(kind: Kind, ingress: Ingress, isIp: string -> int) {
    match kind
    case A => isIp(ingress.ipv4) == 4
    case AAAA => isIp(ingress.ipv6) == 6
    case _ => isIp(ingress.ipv4) == 4 || isIp(ingress.ipv6) == 6
  }

  predicate ProxyOk(r: Record, ingress: Ingress, checks: Checks) {
    if r.proxied
    then r.kind in {A, AAAA, CNAME} && r.proxy.Some? && IngressOk(r.kind, ingress, checks.isIp) &&
      checks.proxyOk(r.proxy.value)
    else r.proxy.None? || checks.proxyOk(r.proxy.value)
  }

  /** One record by itself, apart from its id being new. */
  predicate RecordOk(r: Record, zone: string, ingress: Ingress, checks: Checks) {
    && Trim(r.id) != [] && CanonicalRecordName(r.name, zone).Some?
    && MIN_TTL <= r.ttl.GetOr(DEFAULT_TTL) <= MAX_TTL
    && ValueOk(r.kind, r.value, checks.isIp) && ProxyOk(r, ingress, checks)
  }

  /** Which values are taken, by type: addresses of the family, names, short texts of one line, 16-bit numbers. */
  lemma ValueOkIff(kind: Kind, value: Value, isIp: string -> int)
    ensures ValueOk(kind, value, isIp) <==>
            match value
            case Plain(text) =>
              || (kind == A && isIp(text) == 4) || (kind == AAAA && isIp(text) == 6)
              || (kind == CNAME && NormalizeDnsName(text, true).Some?)
              || (kind == TXT && 1 <= Units(text) <= 255 && '\r' !in text && '\n' !in text)
            case Mail(priority, exchange) =>
              kind == MX && priority < 0x1_0000 && NormalizeDnsName(exchange, true).Some?
            case Service(priority, weight, port, target) =>
              kind == SRV && priority < 0x1_0000 && weight < 0x1_0000 && port < 0x1_0000 &&
              NormalizeDnsName(target, true).Some?
  {
  }

  /** Only addresses and aliases are proxied, and then with settings and an ingress address to answer with. */
  lemma ProxyOkIff(r: Record, ingress: Ingress, checks: Checks)
    ensures ProxyOk(r, ingress, checks) <==>
            && (r.proxied ==>
                  && (r.kind == A || r.kind == AAAA || r.kind == CNAME) && r.proxy.Some?
                  && ((r.kind != AAAA && checks.isIp(ingress.ipv4) == 4) ||
                      (r.kind != A && checks.isIp(ingress.ipv6) == 6)))
            && (r.proxy.Some? ==> checks.proxyOk(r.proxy.value))
  {
  }

  function NormalRecord(r: Record, zone: string): Record {
    r.(name := CanonicalRecordName(r.name, zone).GetOr([]), ttl := Some(r.ttl.GetOr(DEFAULT_TTL)))
  }

  function NormalRecords(records: seq<Record>, zone: string): (r: seq<Record>)
    ensures |r| == |records| && forall i :: 0 <= i < |r| ==> r[i] == NormalRecord(records[i], zone)
  {
    seq(|records|, i requires 0 <= i < |records| => NormalRecord(records[i], zone))
  }

  function Validity(zone: string, ingress: Ingress, checks: Checks): Record -> bool {
    (r: Record) => RecordOk(r, zone, ingress, checks)
  }

  /** Every record passes `ok`, and no id occurs twice. */
  ghost predicate EachOk(records: seq<Record>, ok: Record -> bool) {
    && (forall i :: 0 <= i < |records| ==> ok(records[i]))
    && (forall i, k :: 0 <= i < k < |records| ==> records[i].id != records[k].id)
  }

  /** Two enabled records may share a name only if neither is an alias and not both are proxied. */
  predicate Apart(a: Record, b: Record) {
    a.enabled && b.enabled && a.name == b.name ==> a.kind != CNAME && b.kind != CNAME && !(a.proxied && b.proxied)
  }

  ghost predicate SetOk(records: seq<Record>, zone: string, ingress: Ingress, checks: Checks) {
    EachOk(records, Validity(zone, ingress, checks)) && Pairwise(NormalRecords(records, zone), Apart)
  }

  /** Of two enabled records of one name neither is an alias, nor are both proxied. */
  ghost predicate Namesakes(records: seq<Record>, zone: string) {
    forall i, k | 0 <= i < k < |records| && records[i].enabled && records[k].enabled ::
      CanonicalRecordName(records[i].name, zone) == CanonicalRecordName(records[k].name, zone) ==>
      records[i].kind != CNAME && records[k].kind != CNAME && !(records[i].proxied && records[k].proxied)
  }

  /** Which sets are taken: records with ids and names and with lifetimes between half a minute and a day, valid by
      themselves, no id twice, and good namesakes. */
  lemma SetOkIff(records: seq<Record>, zone: string, ingress: Ingress, checks: Checks)
    ensures SetOk(records, zone, ingress, checks) <==>
            && (forall i :: 0 <= i < |records| ==> RecordOk(records[i], zone, ingress, checks))
            && (forall i, k :: 0 <= i < k < |records| ==> records[i].id != records[k].id)
            && Namesakes(records, zone)
    ensures forall r: Record :: RecordOk(r, zone, ingress, checks) <==>
              && Trim(r.id) != "" && CanonicalRecordName(r.name, zone).Some?
              && (r.ttl.Some? ==> 30 <= r.ttl.value <= 86400)
              && ValueOk(r.kind, r.value, checks.isIp) && ProxyOk(r, ingress, checks)
  {
    assert forall i :: 0 <= i < |records| ==>
        Validity(zone, ingress, checks)(records[i]) == RecordOk(records[i], zone, ingress, checks);
    if forall i :: 0 <= i < |records| ==> RecordOk(records[i], zone, ingress, checks) {
      NamesakesIff(records, zone);
    }
  }

  lemma NamesakesIff(records: seq<Record>, zone: string)
    requires forall i :: 0 <= i < |records| ==> CanonicalRecordName(records[i].name, zone).Some?
    ensures Pairwise(NormalRecords(records, zone), Apart) <==> Namesakes(records, zone)
  {
    var normal := NormalRecords(records, zone);
    forall i, k | 0 <= i < |records| && 0 <= k < |records|
      ensures Apart(normal[i], normal[k]) <==>
              (records[i].enabled && records[k].enabled &&
               CanonicalRecordName(records[i].name, zone) == CanonicalRecordName(records[k].name, zone) ==>
               records[i].kind != CNAME && records[k].kind != CNAME && !(records[i].proxied && records[k].proxied))
    {
      assert normal[i] == NormalRecord(records[i], zone) && normal[k] == NormalRecord(records[k], zone);
    }
  }

  /** The first loop: every record passes by itself, and no id comes twice. */
  method CheckEach(records: seq<Record>, ok: Record -> bool) returns (fine: bool)
    ensures fine <==> EachOk(records, ok)
  {
    var seen: set<string> := {};
    for n := 0 to |records|
      invariant forall i :: 0 <= i < n ==> ok(records[i]) && records[i].id in seen
      invariant forall i, k :: 0 <= i < k < n ==> records[i].id != records[k].id
      invariant forall id :: id in seen ==> exists i :: 0 <= i < n && records[i].id == id
    {
      if !ok(records[n]) || records[n].id in seen {
        return false;
      }
      seen := seen + {records[n].id};
    }
    return true;
  }

  /** The enabled records of one name, in order. */
  function Named(records: seq<Record>, name: string): seq<Record> {
    if records == [] then []
    else
      var last, init := records[|records| - 1], Named(records[..|records| - 1], name);
      if last.enabled && last.name == name then init + [last] else init
  }

  predicate GroupOk(group: seq<Record>) {
    && (|group| > 1 ==> forall i :: 0 <= i < |group| ==> group[i].kind != CNAME)
    && (forall i, k :: 0 <= i < k < |group| ==> !(group[i].proxied && group[k].proxied))
  }

  lemma {:induction false} NamedMembers(records: seq<Record>, name: string)
    ensures forall i :: 0 <= i < |Named(records, name)| ==>
              Named(records, name)[i].enabled && Named(records, name)[i].name == name &&
                Named(records, name)[i] in records
    ensures forall r :: r in records && r.enabled && r.name == name ==> r in Named(records, name)
  {
    if records != [] {
      NamedMembers(records[..|records| - 1], name);
    }
  }

  ghost predicate GroupsOk(records: seq<Record>) {
    forall name :: GroupOk(Named(records, name))
  }

  /** A group is fine exactly when its members are pairwise apart. */
  lemma {:induction false} GroupsArePairs(records: seq<Record>)
    ensures GroupsOk(records) <==> Pairwise(records, Apart)
  {
    if records != [] {
      var last, init := records[|records| - 1], records[..|records| - 1];
      GroupsArePairs(init);
      GroupsGrow(init, last);
      PairsGrow(init, last);
      assert records == init + [last];
    }
  }

  lemma PairsGrow(init: seq<Record>, last: Record)
    ensures Pairwise(init + [last], Apart) <==> Pairwise(init, Apart) && AllApart(init, last)
  {
    var s := init + [last];
    assert s[|init|] == last && forall i :: 0 <= i < |init| ==> s[i] == init[i];
    assert Pairwise(s, Apart) ==> forall i :: 0 <= i < |init| ==> Apart(s[i], s[|init|]) && Apart(s[|init|], s[i]);
  }

  ghost predicate AllApart(init: seq<Record>, last: Record) {
    forall i :: 0 <= i < |init| ==> Apart(init[i], last) && Apart(last, init[i])
  }

  lemma NamedGrows(init: seq<Record>, last: Record, name: string)
    ensures Named(init + [last], name) == if last.enabled && last.name == name then Named(init, name) + [last]
            else Named(init, name)
  {
    assert (init + [last])[..|init|] == init;
  }

  lemma GroupsGrow(init: seq<Record>, last: Record)
    ensures GroupsOk(init + [last]) <==> GroupsOk(init) && AllApart(init, last)
  {
    var records := init + [last];
    NamedGrows(init, last, last.name);
    forall name
      ensures GroupOk(Named(records, name)) ==> GroupOk(Named(init, name))
      ensures name != last.name ==> Named(records, name) == Named(init, name)
    {
      NamedGrows(init, last, name);
      if last.enabled && last.name == name && GroupOk(Named(records, name)) {
        PrefixGroup(Named(init, name), last);
      }
    }
    if GroupsOk(init) {
      assert GroupOk(Named(init, last.name));
      LastGroup(init, last);
    }
    assert GroupsOk(records) ==> GroupOk(Named(records, last.name));
  }

  lemma PrefixGroup(group: seq<Record>, last: Record)
    requires GroupOk(group + [last])
    ensures GroupOk(group)
  {
    assert forall i :: 0 <= i < |group| ==> (group + [last])[i] == group[i];
  }

  lemma LastGroup(init: seq<Record>, last: Record)
    requires GroupOk(Named(init, last.name))
    ensures GroupOk(Named(init + [last], last.name)) <==> AllApart(init, last)
  {
    NamedGrows(init, last, last.name);
    if last.enabled {
      if GroupOk(Named(init, last.name) + [last]) {
        GroupGivesApart(init, last);
      }
      if AllApart(init, last) {
        ApartGivesGroup(init, last);
      }
    }
  }

  lemma GroupGivesApart(init: seq<Record>, last: Record)
    requires GroupOk(Named(init, last.name) + [last])
    ensures AllApart(init, last)
  {
    var group := Named(init, last.name);
    var longer := group + [last];
    NamedMembers(init, last.name);
    assert longer[|group|] == last;
    forall i | 0 <= i < |init|
      ensures Apart(init[i], last) && Apart(last, init[i])
    {
      if init[i].enabled && init[i].name == last.name {
        assert init[i] in group;
        var k :| 0 <= k < |group| && group[k] == init[i];
        assert longer[k] == init[i];
      }
    }
  }

  lemma ApartGivesGroup(init: seq<Record>, last: Record)
    requires GroupOk(Named(init, last.name)) && AllApart(init, last) && last.enabled
    ensures GroupOk(Named(init, last.name) + [last])
  {
    var group := Named(init, last.name);
    NamedMembers(init, last.name);
    forall k | 0 <= k < |group|
      ensures group[k].kind != CNAME && last.kind != CNAME && !(group[k].proxied && last.proxied)
    {
      assert group[k] in init;
      var i :| 0 <= i < |init| && init[i] == group[k];
      assert Apart(init[i], last);
    }
  }

  /** `validateRecordSet`: refused exactly when the set is not fine. */
  method ValidateRecordSet(records: seq<Record>, zoneName: string, ingress: Ingress, checks: Checks)
    returns (r: Outcome<seq<Record>>)
    ensures r ==
            if NormalizeDnsName(zoneName, false).Some? &&
              SetOk(records, NormalizeDnsName(zoneName, false).value, ingress, checks)
                 then Ok(NormalRecords(records, NormalizeDnsName(zoneName, false).value)) else Refused
  {
    var zone := NormalizeDnsName(zoneName, false);
    if zone.None? {
      return Refused;
    }
    var fine := CheckEach(records, Validity(zone.value, ingress, checks));
    if !fine {
      return Refused;
    }
    var normal := NormalRecords(records, zone.value);
    fine := CheckGroups(normal);
    return if fine then Ok(normal) else Refused;
  }

  /** The second and third loop: group the enabled records by name, then look at each group. */
  method CheckGroups(records: seq<Record>) returns (fine: bool)
    ensures fine <==> Pairwise(records, Apart)
  {
    var groups: map<string, seq<Record>> := map[];
    for n := 0 to |records|
      invariant forall name :: name in groups ==> groups[name] == Named(records[..n], name)
      invariant forall name :: name !in groups ==> Named(records[..n], name) == []
    {
      var r := records[n];
      assert records[..n + 1][..n] == records[..n] && records[..n + 1][n] == r;
      if r.enabled {
        var group := if r.name in groups then groups[r.name] else [];
        groups := groups[r.name := group + [r]];
      }
    }
    assert records[..|records|] == records;
    GroupsArePairs(records);
    fine := forall name | name in groups :: GroupOk(groups[name]);
    assert forall name :: GroupOk(Named(records, name)) <==> name in groups ==> GroupOk(groups[name]);
  }

  // ---------------------------------------------------------------- rendering

  datatype Line = Line(owner: string, ttl: int, kind: Kind, data: string)

  function RenderValue(r: Record): string {
    match r.value
    case Mail(priority, exchange) => Digits(priority) + [' '] + EnsureFqdn(exchange)
    case Service(priority, weight, port, target) =>
      Digits(priority) + [' '] + Digits(weight) + [' '] + Digits(port) + [' '] + EnsureFqdn(target)
    case Plain(text) => if r.kind == TXT then RenderText(text) else if r.kind == CNAME then EnsureFqdn(text) else text
  }

  /** What separates the items of a line in a master file. */
  predicate Blank(c: char) {
    c == ' ' || c == '\t'
  }

  predicate NoBlank(s: string) {
    forall i :: 0 <= i < |s| ==> !Blank(s[i])
  }

  function Words(s: string): (r: seq<string>)
    ensures r != []
  {
    if s == [] then [[]]
    else
      var r := Words(s[1..]);
      if Blank(s[0]) then [[]] + r else [[s[0]] + r[0]] + r[1..]
  }

  lemma {:induction false} OneWord(s: string)
    requires NoBlank(s)
    ensures Words(s) == [s]
  {
    if s != [] {
      OneWord(s[1..]);
      assert [s[0]] + s[1..] == s;
    }
  }

  lemma {:induction false} FirstWord(a: string, b: string)
    requires NoBlank(a)
    ensures Words(a + [' '] + b) == [a] + Words(b)
  {
    var s := a + [' '] + b;
    if a == [] {
      assert s == [' '] + b && s[1..] == b;
    } else {
      assert s[0] == a[0] && s[1..] == a[1..] + [' '] + b;
      FirstWord(a[1..], b);
      assert [a[0]] + a[1..] == a;
    }
  }

  lemma {:induction false} OneWordHasNoBlank(s: string)
    ensures |Words(s)| == 1 <==> NoBlank(s)
  {
    if s != [] {
      OneWordHasNoBlank(s[1..]);
      assert NoBlank(s) <==> !Blank(s[0]) && NoBlank(s[1..]);
    }
  }

  /** The single item `w` names the host that validation saw behind the typed text. */
  predicate Names(w: seq<string>, typed: string) {
    |w| == 1 && NormalizeDnsName(typed, true).Some? && Lower(w[0]) == NormalizeDnsName(typed, true).value + ['.']
  }

  predicate Numbered(w: seq<string>, numbers: seq<nat>) {
    |numbers| <= |w| && forall i :: 0 <= i < |numbers| ==> Number(w[i], 10) == numbers[i]
  }

  lemma FqdnNamesIff(typed: string)
    requires NormalizeDnsName(typed, true).Some?
    ensures Names(Words(EnsureFqdn(typed)), typed) <==> Trim(typed) == typed && !EndsWith(typed, "..")
    ensures Trim(typed) == typed ==> Words(EnsureFqdn(typed)) == [EnsureFqdn(typed)]
  {
    TargetReadsBackIff(typed);
    OneWordHasNoBlank(EnsureFqdn(typed));
    if Trim(typed) == typed {
      TargetHasNoSpace(typed);
    }
    if NoBlank(EnsureFqdn(typed)) {
      OneWord(EnsureFqdn(typed));
    }
  }

  /** Accepted mail data reads back as its priority and the validated exchange if and only if the exchange was typed
      without outer blanks and with at most one final dot. */
  lemma MailReadsBackIff(r: Record, isIp: string -> int)
    requires r.kind == MX && ValueOk(MX, r.value, isIp)
    ensures var w, x := Words(RenderValue(r)), r.value.exchange;
            Number(w[0], 10) == r.value.priority && Names(w[1..], x) <==> Trim(x) == x && !EndsWith(x, "..")
  {
    NumberOfDigits(r.value.priority);
    FqdnNamesIff(r.value.exchange);
    FirstWord(Digits(r.value.priority), EnsureFqdn(r.value.exchange));
    var w := Words(RenderValue(r));
    assert w[1..] == Words(EnsureFqdn(r.value.exchange));
  }

  /** Accepted service data reads back as priority, weight, port and the validated target, in this order, if and
      only if the target was typed without outer blanks and with at most one final dot. */
  lemma ServiceReadsBackIff(r: Record, isIp: string -> int)
    requires r.kind == SRV && ValueOk(SRV, r.value, isIp)
    ensures var w, v := Words(RenderValue(r)), r.value;
            |w| >= 3 && Numbered(w, [v.priority, v.weight, v.port]) &&
            (Names(w[3..], v.target) <==> Trim(v.target) == v.target && !EndsWith(v.target, ".."))
  {
    ServiceWords(r);
    FqdnNamesIff(r.value.target);
    NumbersInFront(r.value.priority, r.value.weight, r.value.port, Words(EnsureFqdn(r.value.target)));
  }

  lemma NumbersInFront(a: nat, b: nat, c: nat, rest: seq<string>)
    ensures var w := [Digits(a), Digits(b), Digits(c)] + rest;
            |w| >= 3 && Numbered(w, [a, b, c]) && w[3..] == rest && |w| == 3 + |rest|
  {
    NumberOfDigits(a);
    NumberOfDigits(b);
    NumberOfDigits(c);
  }

  lemma Regroup(a: string, b: string, rest: string)
    ensures a + [' '] + b + [' '] + rest == a + [' '] + (b + [' '] + rest)
  {
  }

  lemma ThreeWords(a: string, b: string, c: string, rest: string)
    requires NoBlank(a) && NoBlank(b) && NoBlank(c)
    ensures Words(a + [' '] + b + [' '] + c + [' '] + rest) == [a, b, c] + Words(rest)
  {
    var tail := c + [' '] + rest;
    Regroup(a + [' '] + b, c, rest);
    Regroup(a, b, tail);
    FirstWord(c, rest);
    FirstWord(b, tail);
    FirstWord(a, b + [' '] + tail);
  }

  lemma ServiceWords(r: Record)
    requires r.kind == SRV && r.value.Service?
    ensures var v := r.value;
            Words(RenderValue(r)) == [Digits(v.priority), Digits(v.weight), Digits(v.port)] +
                                     Words(EnsureFqdn(v.target))
  {
    var v := r.value;
    NumberOfDigits(v.priority);
    NumberOfDigits(v.weight);
    NumberOfDigits(v.port);
    ThreeWords(Digits(v.priority), Digits(v.weight), Digits(v.port), EnsureFqdn(v.target));
  }

  /** An exchange typed with a blank behind it is accepted, and its line has an item too many. */
  lemma TrailingBlankAddsAnItem(isIp: string -> int)
    ensures ValueOk(MX, Mail(1, "a "), isIp)
    ensures Words(RenderValue(Record("1", "@", MX, Mail(1, "a "), None, true, false, None))) == ["1", "a", "."]
  {
    SingleLabel('a');
    assert Trim("a ") == ['a'] by { assert "a "[..1] == ['a']; }
    NormalIsFixed(['a'], true);
    var r := Record("1", "@", MX, Mail(1, "a "), None, true, false, None);
    assert Digits(1) == ['1'] && EnsureFqdn("a ") == ['a', ' ', '.'];
    assert RenderValue(r) == ['1'] + [' '] + (['a'] + [' '] + ['.']);
    FirstWord(['1'], ['a'] + [' '] + ['.']);
    FirstWord(['a'], ['.']);
    OneWord(['.']);
  }

  /** A proxied name answers with the ingress addresses in place of its own value. */
  function ProxiedAnswers(owner: string, r: Record, ingress: Ingress): seq<Line> {
    (if r.kind in {A, CNAME} && ingress.ipv4 != [] then [Line(owner, r.ttl.GetOr(DEFAULT_TTL), A, ingress.ipv4)]
     else []) +
    (if r.kind in {AAAA, CNAME} && ingress.ipv6 != [] then [Line(owner, r.ttl.GetOr(DEFAULT_TTL), AAAA, ingress.ipv6)]
     else [])
  }

  function Answers(r: Record, zone: string, ingress: Ingress): seq<Line> {
    var owner := OwnerName(r.name, zone);
    if r.proxied then ProxiedAnswers(owner, r, ingress)
    else [Line(owner, r.ttl.GetOr(DEFAULT_TTL), r.kind, RenderValue(r))]
  }

  function Body(records: seq<Record>, zone: string, ingress: Ingress): seq<Line> {
    if records == [] then []
      else Body(records[..|records| - 1], zone, ingress) + Answers(records[|records| - 1], zone, ingress)
  }

  function Header(zone: string): seq<Line> {
    [Line("@", 300, SOA, "ns1." + zone + ". hostmaster." + zone + ". 1 60 300 3600 60"),
     Line("@", 300, NS, "ns1." + zone + ".")]
  }

  function Enabled(records: seq<Record>): (r: seq<Record>)
    ensures forall x :: x in r <==> x in records && x.enabled
  {
    if records == [] then []
    else Enabled(records[..|records| - 1]) + if records[|records| - 1].enabled then [records[|records| - 1]] else []
  }

  /** The lines of a zone file; `precedes` is the locale's order of names, types and values. */
  function ZoneLines(records: seq<Record>, zone: string, ingress: Ingress,
                     precedes: (Record, Record) -> bool): seq<Line> {
    Header(zone) + Body(Sort(Enabled(records), precedes), zone, ingress)
  }

  method RenderZoneFile(zone: string, records: seq<Record>, ingress: Ingress, precedes: (Record, Record) -> bool)
    returns (body: seq<Line>)
    ensures body == ZoneLines(records, zone, ingress, precedes)
  {
    var lines := RenderRecords(Sort(Enabled(records), precedes), zone, ingress);
    body := Header(zone) + lines;
  }

  method RenderRecords(sorted: seq<Record>, zone: string, ingress: Ingress) returns (lines: seq<Line>)
    ensures lines == Body(sorted, zone, ingress)
  {
    lines := [];
    for n := 0 to |sorted|
      invariant lines == Body(sorted[..n], zone, ingress)
    {
      BodyGrows(sorted, n, zone, ingress);
      lines := lines + Answers(sorted[n], zone, ingress);
    }
    assert sorted[..|sorted|] == sorted;
  }

  lemma BodyGrows(sorted: seq<Record>, n: nat, zone: string, ingress: Ingress)
    requires n < |sorted|
    ensures Body(sorted[..n + 1], zone, ingress) == Body(sorted[..n], zone, ingress) + Answers(sorted[n], zone, ingress)
  {
    assert sorted[..n + 1][..n] == sorted[..n];
  }

  /** A valid proxied record never shows its own value and never falls silent: it answers with ingress addresses of
      its own family, at least one of them. */
  lemma ProxiedRecordAnswersIngress(r: Record, zone: string, ingress: Ingress, checks: Checks)
    requires r.proxied && RecordOk(r, zone, ingress, checks) && checks.isIp([]) == 0
    ensures Answers(r, zone, ingress) != []
    ensures forall line :: line in Answers(r, zone, ingress) ==>
              (line.kind == A && line.data == ingress.ipv4 && r.kind != AAAA) ||
                (line.kind == AAAA && line.data == ingress.ipv6 && r.kind != A)
  {
    assert ProxyOk(r, ingress, checks) && IngressOk(r.kind, ingress, checks.isIp);
    assert ingress.ipv4 == [] ==> checks.isIp(ingress.ipv4) == 0;
    assert ingress.ipv6 == [] ==> checks.isIp(ingress.ipv6) == 0;
  }

  // ---------------------------------------------------------------- aliases stand alone

  /** Every line of the body answers for one of its records. */
  lemma {:induction false} LineOfRecord(records: seq<Record>, zone: string, ingress: Ingress, n: nat)
    requires n < |Body(records, zone, ingress)|
    ensures exists i :: 0 <= i < |records| && Body(records, zone, ingress)[n] in Answers(records[i], zone, ingress)
  {
    var init, last := records[..|records| - 1], records[|records| - 1];
    var before := Body(init, zone, ingress);
    if n < |before| {
      LineOfRecord(init, zone, ingress, n);
      var i :| 0 <= i < |init| && before[n] in Answers(init[i], zone, ingress);
      assert records[i] == init[i];
    } else {
      assert Body(records, zone, ingress)[n] in Answers(last, zone, ingress);
    }
  }

  lemma {:induction false} RecordHasLines(records: seq<Record>, zone: string, ingress: Ingress, r: Record)
    requires r in records
    ensures forall line :: line in Answers(r, zone, ingress) ==> line in Body(records, zone, ingress)
  {
    if r != records[|records| - 1] {
      RecordHasLines(records[..|records| - 1], zone, ingress, r);
    }
  }

  /** What a record shows: a proxied one the ingress addresses of its family, any other one its own data, addresses
      as typed. */
  predicate Shows(r: Record, zone: string, ingress: Ingress, line: Line) {
    && r.enabled && line.owner == OwnerName(r.name, zone) && line.ttl == (if r.ttl.Some? then r.ttl.value else 300)
    && (r.proxied ==>
          || (r.kind != AAAA && r.kind in {A, CNAME} && line.kind == A && line.data == ingress.ipv4 != "")
          || (r.kind != A && r.kind in {AAAA, CNAME} && line.kind == AAAA && line.data == ingress.ipv6 != ""))
    && (!r.proxied ==>
          && line.kind == r.kind
          && (r.kind in {A, AAAA} && r.value.Plain? ==> line.data == r.value.text)
          && (r.kind == TXT && r.value.Plain? ==> line.data == RenderText(r.value.text))
          && (r.kind == CNAME && r.value.Plain? ==> line.data == EnsureFqdn(r.value.text))
          && line.data == RenderValue(r))
  }

  /** A zone file starts with its SOA and NS lines, and what follows is exactly what its enabled records show. */
  lemma LinesAreShownIff(records: seq<Record>, zone: string, ingress: Ingress, precedes: (Record, Record) -> bool,
                         line: Line)
    ensures var lines := ZoneLines(records, zone, ingress, precedes);
            && |lines| >= 2
            && lines[0] == Line("@", 300, SOA, "ns1." + zone + ". hostmaster." + zone + ". 1 60 300 3600 60")
            && lines[1] == Line("@", 300, NS, "ns1." + zone + ".")
            && (line in lines[2..] <==> exists r :: r in records && Shows(r, zone, ingress, line))
  {
    var sorted := Sort(Enabled(records), precedes);
    SortPermutes(Enabled(records), precedes);
    var body, lines := Body(sorted, zone, ingress), ZoneLines(records, zone, ingress, precedes);
    assert lines[2..] == body;
    forall r: Record | r.enabled
      ensures Shows(r, zone, ingress, line) <==> line in Answers(r, zone, ingress)
    {
      ShowsIff(r, zone, ingress, line);
    }
    if n :| 0 <= n < |body| && body[n] == line {
      LineOfRecord(sorted, zone, ingress, n);
      var i :| 0 <= i < |sorted| && line in Answers(sorted[i], zone, ingress);
      assert sorted[i] in sorted && Shows(sorted[i], zone, ingress, line);
    }
    if r :| r in records && Shows(r, zone, ingress, line) {
      assert r in sorted;
      RecordHasLines(sorted, zone, ingress, r);
    }
  }

  lemma ShowsIff(r: Record, zone: string, ingress: Ingress, line: Line)
    requires r.enabled
    ensures Shows(r, zone, ingress, line) <==> line in Answers(r, zone, ingress)
  {
    if r.proxied {
      assert line in Answers(r, zone, ingress) <==>
             (r.kind in {A, CNAME} && ingress.ipv4 != [] &&
              line == Line(OwnerName(r.name, zone), r.ttl.GetOr(DEFAULT_TTL), A, ingress.ipv4)) ||
             (r.kind in {AAAA, CNAME} && ingress.ipv6 != [] &&
              line == Line(OwnerName(r.name, zone), r.ttl.GetOr(DEFAULT_TTL), AAAA, ingress.ipv6));
    }
  }

  ghost predicate AllInZone(records: seq<Record>, zone: string) {
    forall i :: 0 <= i < |records| ==> InZone(records[i].name, zone) && records[i].enabled
  }

  predicate AloneBeside(a: Line, b: Line) {
    a.owner == b.owner ==> a.kind != CNAME && b.kind != CNAME
  }

  lemma AnswersShareOwner(r: Record, zone: string, ingress: Ingress, line: Line)
    requires line in Answers(r, zone, ingress)
    ensures line.owner == OwnerName(r.name, zone) && (line.kind == CNAME ==> r.kind == CNAME && !r.proxied)
  {
  }

  lemma SameOwnerSameName(a: string, b: string, zone: string)
    requires InZone(a, zone) && InZone(b, zone) && OwnerName(a, zone) == OwnerName(b, zone)
    ensures a == b
  {
    OwnerExpands(a, zone);
    OwnerExpands(b, zone);
  }

  lemma OwnersAgree(a: Record, b: Record, zone: string, ingress: Ingress, x: Line, y: Line)
    requires InZone(a.name, zone) && InZone(b.name, zone) && a.enabled && b.enabled && Apart(a, b)
    requires x in Answers(a, zone, ingress) && y in Answers(b, zone, ingress)
    ensures AloneBeside(x, y)
  {
    AnswersShareOwner(a, zone, ingress, x);
    AnswersShareOwner(b, zone, ingress, y);
    if x.owner == y.owner {
      SameOwnerSameName(a.name, b.name, zone);
    }
  }

  lemma {:induction false} BodyIsApart(records: seq<Record>, zone: string, ingress: Ingress)
    requires Pairwise(records, Apart) && AllInZone(records, zone)
    ensures Pairwise(Body(records, zone, ingress), AloneBeside)
  {
    if records != [] {
      var init, last := records[..|records| - 1], records[|records| - 1];
      BodyIsApart(init, zone, ingress);
      var before, added := Body(init, zone, ingress), Answers(last, zone, ingress);
      forall i, k | 0 <= i < |before| && 0 <= k < |added|
        ensures AloneBeside(before[i], added[k]) && AloneBeside(added[k], before[i])
      {
        LineOfRecord(init, zone, ingress, i);
        var r :| 0 <= r < |init| && before[i] in Answers(init[r], zone, ingress);
        assert records[r] == init[r] && Apart(records[r], records[|records| - 1]);
        OwnersAgree(init[r], last, zone, ingress, before[i], added[k]);
      }
    }
  }

  /** A record that puts an alias beside the SOA and NS lines. */
  predicate ApexAlias(r: Record, zone: string) {
    r.enabled && !r.proxied && r.kind == CNAME && r.name == zone
  }

  /** At every owner but the apex an alias is the only line, whatever stands at the apex. */
  lemma AliasBelowApexStandsAlone(records: seq<Record>, zone: string, ingress: Ingress, checks: Checks,
                                  precedes: (Record, Record) -> bool)
    requires Normal(zone, false) && SetOk(records, zone, ingress, checks)
    ensures var lines := ZoneLines(NormalRecords(records, zone), zone, ingress, precedes);
            forall i, k | 0 <= i < |lines| && 0 <= k < |lines| && i != k ::
              lines[i].owner == lines[k].owner && lines[i].owner != "@" ==> lines[i].kind != CNAME
  {
    var sorted := Sort(Enabled(NormalRecords(records, zone)), precedes);
    SortedIsFine(records, zone, ingress, checks, precedes);
    BodyIsApart(sorted, zone, ingress);
    ApartBehindHeader(Header(zone), Body(sorted, zone, ingress));
  }

  lemma ApartBehindHeader(header: seq<Line>, body: seq<Line>)
    requires Pairwise(body, AloneBeside) && forall i :: 0 <= i < |header| ==> header[i].owner == "@"
    ensures var lines := header + body;
            forall i, k | 0 <= i < |lines| && 0 <= k < |lines| && i != k ::
              lines[i].owner == lines[k].owner && lines[i].owner != "@" ==> lines[i].kind != CNAME
  {
    var lines, h := header + body, |header|;
    forall i, k | 0 <= i < |lines| && 0 <= k < |lines| && i != k && lines[i].owner == lines[k].owner &&
      lines[i].owner != "@"
      ensures lines[i].kind != CNAME
    {
      assert i >= h && k >= h && lines[i] == body[i - h] && lines[k] == body[k - h];
      assert AloneBeside(body[i - h], body[k - h]);
    }
  }

  /** In the file of a valid set, an alias shares its owner with another line if and only if an enabled, unproxied
      alias was accepted at the zone's own name. */
  lemma AliasStandsAloneIff(records: seq<Record>, zone: string, ingress: Ingress, checks: Checks,
                            precedes: (Record, Record) -> bool)
    requires Normal(zone, false) && SetOk(records, zone, ingress, checks)
    ensures var lines := ZoneLines(NormalRecords(records, zone), zone, ingress, precedes);
            Pairwise(lines, AloneBeside) <==> forall r :: r in NormalRecords(records, zone) ==> !ApexAlias(r, zone)
  {
    var sorted := Sort(Enabled(NormalRecords(records, zone)), precedes);
    SortPermutes(Enabled(NormalRecords(records, zone)), precedes);
    SortedIsFine(records, zone, ingress, checks, precedes);
    BodyIsApart(sorted, zone, ingress);
    HeaderBeside(zone, Body(sorted, zone, ingress));
    ApexLines(sorted, zone, ingress);
  }

  predicate ApexAliasLine(line: Line) {
    line.owner == "@" && line.kind == CNAME
  }

  lemma ApexLines(sorted: seq<Record>, zone: string, ingress: Ingress)
    requires AllInZone(sorted, zone)
    ensures (forall line :: line in Body(sorted, zone, ingress) ==> !ApexAliasLine(line)) <==>
            (forall r :: r in sorted ==> !ApexAlias(r, zone))
  {
    var body := Body(sorted, zone, ingress);
    forall n | 0 <= n < |body| && ApexAliasLine(body[n])
      ensures exists r :: r in sorted && ApexAlias(r, zone)
    {
      LineOfRecord(sorted, zone, ingress, n);
      var i :| 0 <= i < |sorted| && body[n] in Answers(sorted[i], zone, ingress);
      AnswersShareOwner(sorted[i], zone, ingress, body[n]);
      OwnerExpands(sorted[i].name, zone);
      assert sorted[i] in sorted;
    }
    forall r | r in sorted && ApexAlias(r, zone)
      ensures exists line :: line in body && ApexAliasLine(line)
    {
      RecordHasLines(sorted, zone, ingress, r);
      var line := Line("@", r.ttl.GetOr(DEFAULT_TTL), CNAME, RenderValue(r));
      assert line in Answers(r, zone, ingress);
      assert ApexAliasLine(line);
    }
  }

  lemma HeaderBeside(zone: string, body: seq<Line>)
    requires Pairwise(body, AloneBeside)
    ensures Pairwise(Header(zone) + body, AloneBeside) <==> forall line :: line in body ==> !ApexAliasLine(line)
  {
    TwoBeside(Header(zone)[0], Header(zone)[1], body);
    assert Header(zone) + body == [Header(zone)[0], Header(zone)[1]] + body;
  }

  /** Two lines at the apex that are no aliases. */
  lemma TwoBeside(a: Line, b: Line, body: seq<Line>)
    requires Pairwise(body, AloneBeside) && a.owner == "@" && b.owner == "@" && a.kind != CNAME && b.kind != CNAME
    ensures Pairwise([a, b] + body, AloneBeside) <==> forall line :: line in body ==> !ApexAliasLine(line)
  {
    if line :| line in body && ApexAliasLine(line) {
      AliasBreaks(a, b, body, line);
    } else {
      assert ApartFromAll(b, body, AloneBeside) by { assert forall i :: 0 <= i < |body| ==> body[i] in body; }
      PairwiseCons(b, body, AloneBeside);
      assert ApartFromAll(a, [b] + body, AloneBeside) by { assert forall i :: 0 <= i < |body| ==> body[i] in body; }
      PairwiseCons(a, [b] + body, AloneBeside);
      assert [a] + ([b] + body) == [a, b] + body;
    }
  }

  lemma AliasBreaks(a: Line, b: Line, body: seq<Line>, line: Line)
    requires line in body && ApexAliasLine(line) && a.owner == "@"
    ensures !Pairwise([a, b] + body, AloneBeside)
  {
    var i :| 0 <= i < |body| && body[i] == line;
    var lines := [a, b] + body;
    assert lines[0] == a && lines[i + 2] == line;
  }

  lemma {:induction false} EnabledIsApart(records: seq<Record>)
    requires Pairwise(records, Apart)
    ensures Pairwise(Enabled(records), Apart)
  {
    if records != [] {
      var init, last := records[..|records| - 1], records[|records| - 1];
      EnabledIsApart(init);
      forall i | 0 <= i < |Enabled(init)|
        ensures Apart(Enabled(init)[i], last) && Apart(last, Enabled(init)[i])
      {
        assert Enabled(init)[i] in init;
        var k :| 0 <= k < |init| && init[k] == Enabled(init)[i];
        assert records[k] == init[k];
      }
    }
  }

  lemma SortedIsFine(records: seq<Record>, zone: string, ingress: Ingress, checks: Checks,
                     precedes: (Record, Record) -> bool)
    requires Normal(zone, false) && SetOk(records, zone, ingress, checks)
    ensures var sorted := Sort(Enabled(NormalRecords(records, zone)), precedes);
            Pairwise(sorted, Apart) && AllInZone(sorted, zone)
  {
    var normal := NormalRecords(records, zone);
    EnabledIsApart(normal);
    SortKeepsPairwise(Enabled(normal), precedes, Apart);
    SortPermutes(Enabled(normal), precedes);
    var sorted := Sort(Enabled(normal), precedes);
    forall i | 0 <= i < |sorted|
      ensures InZone(sorted[i].name, zone) && sorted[i].enabled
    {
      assert sorted[i] in sorted && sorted[i] in normal;
      var k :| 0 <= k < |normal| && normal[k] == sorted[i];
      assert Validity(zone, ingress, checks)(records[k]);
      CanonicalIsInZone(records[k].name, zone);
    }
  }

  /** An alias at the zone's own name is a valid set of one record, and its line stands beside SOA and NS. */
  lemma ApexAliasIsAccepted(checks: Checks, ingress: Ingress, precedes: (Record, Record) -> bool)
    ensures var records := [Record("1", "@", CNAME, Plain("a"), None, true, false, None)];
            && SetOk(records, ['b'], ingress, checks)
            && !Pairwise(ZoneLines(NormalRecords(records, ['b']), ['b'], ingress, precedes), AloneBeside)
  {
    var r := Record("1", "@", CNAME, Plain("a"), None, true, false, None);
    SingleLabel('a');
    SingleLabel('b');
    NormalIsFixed("a", true);
    NormalIsFixed(['b'], false);
    assert Trim("1") == "1" && Trim("@") == "@";
    assert CanonicalRecordName("@", ['b']) == Some(['b']);
    assert RecordOk(r, ['b'], ingress, checks);
    assert Validity(['b'], ingress, checks)(r);
    AliasStandsAloneIff([r], ['b'], ingress, checks, precedes);
    assert NormalRecords([r], ['b'])[0] == NormalRecord(r, ['b']);
    assert NormalRecord(r, ['b']) in NormalRecords([r], ['b']) && ApexAlias(NormalRecord(r, ['b']), ['b']);
  }
}
