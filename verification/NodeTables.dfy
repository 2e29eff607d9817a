/**
 * The editable configuration tables of a NODE and their refill from an imported snapshot. The refill
 * deletes and re-inserts rows one by one; what it leaves is the snapshot exactly when the snapshot gives each
 * record and stream id one meaning.
 */
module NodeTables {
  import opened Options
  import opened Forwarding
  import opened DnsNames

  type Id = nat

  datatype Body = Body(name: string, kind: string, value: string, ttl: int, enabled: bool, proxied: bool,
                       proxy: Option<string>, comment: Option<string>)
  datatype Record = Record(id: Id, body: Body)
  datatype Zone = Zone(id: Id, name: string, enabled: bool, records: seq<Record>)
  datatype Protocol = Tcp | Udp
  datatype Upstream = Upstream(protocol: Protocol, ip: string, port: int)
  datatype Listener = Listener(protocol: Protocol, address: string, port: int)
  datatype Route = Route(id: string, enabled: bool, listener: Listener, upstream: Upstream)
  datatype Config = Config(zones: seq<Zone>, streams: seq<Route>, pool: Option<Pool>, rules: seq<Rule>)

  datatype ZoneRow = ZoneRow(name: string, enabled: bool)
  datatype RecordRow = RecordRow(zone: Id, body: Body)
  datatype Tables = Tables(zones: map<Id, ZoneRow>, records: map<Id, RecordRow>, streams: map<string, Route>,
                           pool: Option<Pool>, rules: seq<Rule>)

  // ---------------------------------------------------------------- what an import refuses

  predicate RouteOk(r: Route, isIp: string -> int) {
    && isIp(r.listener.address) > 0 && 1 <= r.listener.port <= 65535
    && r.upstream.protocol == r.listener.protocol && isIp(r.upstream.ip) > 0 && 1 <= r.upstream.port <= 65535
  }

  ghost predicate RoutesOk(streams: seq<Route>, isIp: string -> int) {
    && (forall i :: 0 <= i < |streams| ==> RouteOk(streams[i], isIp))
    && (forall i, k :: 0 <= i < k < |streams| ==> streams[i].listener != streams[k].listener)
  }

  /** The primary key and the unique name of `zones`. */
  ghost predicate ZonesOk(zones: seq<Zone>) {
    forall i, k :: 0 <= i < k < |zones| ==> zones[i].id != zones[k].id && zones[i].name != zones[k].name
  }

  /** `instr(text, char(0)) = 0`. */
  predicate NoNul(s: string) {
    '\0' !in s
  }

  /** The CHECKs on a row of `dns_records`; values and proxy settings are JSON texts, which hold no NUL. */
  predicate RecordStorable(b: Body) {
    && b.kind in {"A", "AAAA", "CNAME", "TXT", "MX", "SRV"} && -0x8000_0000 <= b.ttl <= 0x7fff_ffff
    && NoNul(b.name) && (b.comment.Some? ==> NoNul(b.comment.value))
  }

  predicate ZoneStorable(z: Zone) {
    NoNul(z.name) && forall i :: 0 <= i < |z.records| ==> RecordStorable(z.records[i].body)
  }

  predicate HexDigit(c: char) {
    '0' <= c <= '9' || 'a' <= c <= 'f'
  }

  /** The CHECK on a route id: a UUID in lower case. */
  predicate UuidText(s: string) {
    |s| == 36 && forall i :: 0 <= i < 36 ==> if i in {8, 13, 18, 23} then s[i] == '-' else HexDigit(s[i])
  }

  ghost predicate Storable(c: Config) {
    && (forall i :: 0 <= i < |c.zones| ==> ZoneStorable(c.zones[i]))
    && (forall i :: 0 <= i < |c.streams| ==> UuidText(c.streams[i].id))
  }

  ghost predicate Acceptable(c: Config, isIp: string -> int) {
    && RoutesOk(c.streams, isIp) && (c.pool.Some? ==> PoolOk(c.pool.value, isIp)) && RulesOk(c.rules, isIp)
    && ZonesOk(c.zones) && Storable(c)
  }

  // ---------------------------------------------------------------- what an import leaves

  /** The stored form: an absent TTL becomes the default. */
  function Stored(b: Body): Body {
    if b.ttl == 0 then b.(ttl := DEFAULT_TTL) else b
  }

  /** On an id conflict the new body replaces the old one, but the row stays in its zone. */
  function Upserted(rows: map<Id, RecordRow>, zone: Id, r: Record): map<Id, RecordRow> {
    rows[r.id := RecordRow(if r.id in rows then rows[r.id].zone else zone, Stored(r.body))]
  }

  function ZoneRows(zones: seq<Zone>): map<Id, ZoneRow> {
    if zones == [] then map[]
    else var z := zones[|zones| - 1]; ZoneRows(zones[..|zones| - 1])[z.id := ZoneRow(z.name, z.enabled)]
  }

  /** A record with the zone that lists it. */
  datatype Listed = Listed(zone: Id, record: Record)

  function ListedIn(zone: Id, records: seq<Record>): (r: seq<Listed>)
    ensures |r| == |records| && forall i :: 0 <= i < |r| ==> r[i] == Listed(zone, records[i])
  {
    if records == [] then [] else ListedIn(zone, records[..|records| - 1]) + [Listed(zone, records[|records| - 1])]
  }

  function AllListed(zones: seq<Zone>): seq<Listed> {
    if zones == [] then []
      else AllListed(zones[..|zones| - 1]) + ListedIn(zones[|zones| - 1].id, zones[|zones| - 1].records)
  }

  function RecordRows(list: seq<Listed>): map<Id, RecordRow> {
    if list == [] then map[]
      else Upserted(RecordRows(list[..|list| - 1]), list[|list| - 1].zone, list[|list| - 1].record)
  }

  function StreamRows(streams: seq<Route>): map<string, Route> {
    if streams == [] then map[]
      else StreamRows(streams[..|streams| - 1])[streams[|streams| - 1].id := streams[|streams| - 1]]
  }

  function Filled(c: Config): Tables {
    Tables(ZoneRows(c.zones), RecordRows(AllListed(c.zones)), StreamRows(c.streams), c.pool, NormalRules(c.rules))
  }

  // ---------------------------------------------------------------- when that is the snapshot

  /** The stored record says what the snapshot's does, with 300 seconds for an absent lifetime. */
  predicate Says(row: Body, given: Body) {
    && row.name == given.name && row.kind == given.kind && row.value == given.value
    && row.enabled == given.enabled && row.proxied == given.proxied && row.proxy == given.proxy
    && row.comment == given.comment && row.ttl == if given.ttl == 0 then 300 else given.ttl
  }

  /** The same rules for the same pools, in the same order, with their suffixes in normal form. */
  ghost predicate MirrorsRules(rows: seq<Rule>, rules: seq<Rule>) {
    && |rows| == |rules|
    && forall i :: 0 <= i < |rules| ==>
         NormalizeDnsName(rules[i].suffix, false) == Some(rows[i].suffix) && rows[i].pool == rules[i].pool
  }

  /** The tables hold each zone, record and route of the snapshot under its id, and nothing else. */
  ghost predicate Mirrors(t: Tables, c: Config) {
    && (forall i :: 0 <= i < |c.zones| ==>
        c.zones[i].id in t.zones && t.zones[c.zones[i].id] == ZoneRow(c.zones[i].name, c.zones[i].enabled))
    && (forall id :: id in t.zones ==> exists i :: 0 <= i < |c.zones| && c.zones[i].id == id)
    && MirrorsRecords(t.records, AllListed(c.zones))
    && MirrorsStreams(t.streams, c.streams)
    && t.pool == c.pool && MirrorsRules(t.rules, c.rules)
  }

  ghost predicate MirrorsRecords(rows: map<Id, RecordRow>, list: seq<Listed>) {
    && (forall i :: 0 <= i < |list| ==>
          && list[i].record.id in rows && rows[list[i].record.id].zone == list[i].zone
          && Says(rows[list[i].record.id].body, list[i].record.body))
    && (forall id :: id in rows ==> exists i :: 0 <= i < |list| && list[i].record.id == id)
  }

  ghost predicate MirrorsStreams(rows: map<string, Route>, streams: seq<Route>) {
    && (forall i :: 0 <= i < |streams| ==> streams[i].id in rows && rows[streams[i].id] == streams[i])
    && (forall id :: id in rows ==> exists i :: 0 <= i < |streams| && streams[i].id == id)
  }

  /** An id listed twice is listed in the same zone with the same stored body. */
  ghost predicate OneMeaning(list: seq<Listed>) {
    forall i, k | 0 <= i < k < |list| && list[i].record.id == list[k].record.id ::
      list[i].zone == list[k].zone && Stored(list[i].record.body) == Stored(list[k].record.body)
  }

  ghost predicate DistinctRoutes(streams: seq<Route>) {
    forall i, k :: 0 <= i < k < |streams| ==> streams[i].id != streams[k].id
  }

  lemma {:induction false} RecordRowsMirrorIff(list: seq<Listed>)
    ensures MirrorsRecords(RecordRows(list), list) <==> OneMeaning(list)
  {
    RowsOf(list);
    assert forall row, given :: Says(row, given) <==> row == Stored(given);
    if OneMeaning(list) {
      OneMeaningMirrors(list);
    }
  }

  /** Rows are exactly the listed ids, and the last listed record gives the body. */
  lemma {:induction false} RowsOf(list: seq<Listed>)
    ensures forall i :: 0 <= i < |list| ==> list[i].record.id in RecordRows(list)
    ensures forall id :: id in RecordRows(list) ==> exists i :: 0 <= i < |list| && list[i].record.id == id
  {
    if list != [] {
      var init := list[..|list| - 1];
      RowsOf(init);
      forall id | id in RecordRows(list)
        ensures exists i :: 0 <= i < |list| && list[i].record.id == id
      {
        if id in RecordRows(init) {
          var i :| 0 <= i < |init| && init[i].record.id == id;
          assert list[i].record.id == id;
        } else {
          assert list[|list| - 1].record.id == id;
        }
      }
    }
  }

  lemma {:induction false} OneMeaningMirrors(list: seq<Listed>)
    requires OneMeaning(list)
    ensures forall i :: 0 <= i < |list| ==>
              list[i].record.id in RecordRows(list) &&
                RecordRows(list)[list[i].record.id] == RecordRow(list[i].zone, Stored(list[i].record.body))
  {
    if list != [] {
      var init, last := list[..|list| - 1], list[|list| - 1];
      OneMeaningMirrors(init);
      RowsOf(init);
      if last.record.id in RecordRows(init) {
        var k :| 0 <= k < |init| && init[k].record.id == last.record.id;
        assert list[k] == init[k];
      }
      forall i | 0 <= i < |list|
        ensures RecordRows(list)[list[i].record.id] == RecordRow(list[i].zone, Stored(list[i].record.body))
      {
        if i < |init| {
          assert list[i] == init[i];
        }
      }
    }
  }

  lemma {:induction false} StreamRowsMirrorIff(streams: seq<Route>)
    requires forall i, k :: 0 <= i < k < |streams| ==> streams[i].listener != streams[k].listener
    ensures MirrorsStreams(StreamRows(streams), streams) <==> DistinctRoutes(streams)
  {
    RoutesOf(streams);
  }

  lemma {:induction false} RoutesOf(streams: seq<Route>)
    ensures forall id :: id in StreamRows(streams) ==> exists i :: 0 <= i < |streams| && streams[i].id == id
    ensures forall i :: 0 <= i < |streams| ==> streams[i].id in StreamRows(streams)
    ensures DistinctRoutes(streams) ==> forall i :: 0 <= i < |streams| ==>
            StreamRows(streams)[streams[i].id] == streams[i]
  {
    if streams != [] {
      var init, last := streams[..|streams| - 1], streams[|streams| - 1];
      RoutesOf(init);
      forall id | id in StreamRows(streams)
        ensures exists i :: 0 <= i < |streams| && streams[i].id == id
      {
        if id in StreamRows(init) {
          var i :| 0 <= i < |init| && init[i].id == id;
          assert streams[i].id == id;
        } else {
          assert last.id == id;
        }
      }
      assert forall i :: 0 <= i < |init| ==> streams[i] == init[i];
    }
  }

  lemma {:induction false} ZoneRowsMirror(zones: seq<Zone>)
    requires ZonesOk(zones)
    ensures forall i :: 0 <= i < |zones| ==>
            zones[i].id in ZoneRows(zones) && ZoneRows(zones)[zones[i].id] == ZoneRow(zones[i].name, zones[i].enabled)
    ensures forall id :: id in ZoneRows(zones) ==> exists i :: 0 <= i < |zones| && zones[i].id == id
  {
    if zones != [] {
      var init, last := zones[..|zones| - 1], zones[|zones| - 1];
      ZoneRowsMirror(init);
      assert forall i :: 0 <= i < |init| ==> zones[i] == init[i];
      forall id | id in ZoneRows(zones)
        ensures exists i :: 0 <= i < |zones| && zones[i].id == id
      {
        if id in ZoneRows(init) {
          var i :| 0 <= i < |init| && init[i].id == id;
          assert zones[i].id == id;
        } else {
          assert last.id == id;
        }
      }
    }
  }

  /** An accepted import leaves exactly the snapshot's configuration if and only if no record id has two meanings
      and no route id occurs twice. */
  lemma FilledMirrorsIff(c: Config, isIp: string -> int)
    requires Acceptable(c, isIp)
    ensures Mirrors(Filled(c), c) <==> OneMeaning(AllListed(c.zones)) && DistinctRoutes(c.streams)
  {
    ZoneRowsMirror(c.zones);
    RecordRowsMirrorIff(AllListed(c.zones));
    StreamRowsMirrorIff(c.streams);
    RulesMirror(c.rules, isIp);
  }

  lemma RulesMirror(rules: seq<Rule>, isIp: string -> int)
    requires RulesOk(rules, isIp)
    ensures MirrorsRules(NormalRules(rules), rules)
  {
    forall i | 0 <= i < |rules|
      ensures NormalizeDnsName(rules[i].suffix, false) == Some(NormalRules(rules)[i].suffix)
    {
      assert RuleOk(rules[i], isIp);
    }
  }

  /** Every part of a snapshot is judged by itself. */
  lemma AcceptableIff(c: Config, isIp: string -> int)
    ensures Acceptable(c, isIp) <==>
            && RoutesOk(c.streams, isIp) && RulesOk(c.rules, isIp) && Storable(c)
            && (forall i, k :: 0 <= i < k < |c.zones| ==>
                  c.zones[i].id != c.zones[k].id && c.zones[i].name != c.zones[k].name)
            && (c.pool.Some? ==>
                  && Trim(c.pool.value.id) != "" && c.pool.value.endpoints != []
                  && forall e :: e in c.pool.value.endpoints ==> isIp(e.host) > 0 && 1 <= e.port <= 65535)
  {
  }

  /** Which routes an import takes: addresses and ports on both sides, one protocol, and a listener of their own. */
  lemma RoutesOkIff(streams: seq<Route>, isIp: string -> int)
    ensures RoutesOk(streams, isIp) <==>
            && (forall r :: r in streams ==>
                  && isIp(r.listener.address) > 0 && 1 <= r.listener.port <= 65535 && isIp(r.upstream.ip) > 0
                  && 1 <= r.upstream.port <= 65535 && r.upstream.protocol == r.listener.protocol)
            && (forall i, k :: 0 <= i < k < |streams| ==> streams[i].listener != streams[k].listener)
  {
  }

  /** What the CHECKs leave: known record types, lifetimes of 32 bits, no NUL in names and comments, and lower-case
      UUIDs for routes. */
  lemma StorableIff(c: Config)
    ensures Storable(c) <==>
            && (forall z :: z in c.zones ==> '\0' !in z.name)
            && (forall z, r :: z in c.zones && r in z.records ==>
                  && r.body.kind in {"A", "AAAA", "CNAME", "TXT", "MX", "SRV"}
                  && -0x8000_0000 <= r.body.ttl < 0x8000_0000
                  && '\0' !in r.body.name && '\0' !in r.body.comment.GetOr(""))
            && (forall r :: r in c.streams ==>
                  && |r.id| == 36
                  && forall k :: 0 <= k < 36 ==>
                       if k in {8, 13, 18, 23} then r.id[k] == '-'
                       else '0' <= r.id[k] <= '9' || 'a' <= r.id[k] <= 'f')
  {
  }

  lemma TwoZones(a: Zone, b: Zone)
    ensures AllListed([a, b]) == ListedIn(a.id, a.records) + ListedIn(b.id, b.records)
  {
    assert [a, b][..1] == [a] && [a][..0] == [];
    assert AllListed([a]) == [] + ListedIn(a.id, a.records);
  }

  lemma TwoListings(x: Listed, y: Listed)
    ensures RecordRows([x, y]) == Upserted(Upserted(map[], x.zone, x.record), y.zone, y.record)
  {
    assert [x, y][..1] == [x] && [x][..0] == [];
    assert RecordRows([]) == map[] && RecordRows([x]) == Upserted(RecordRows([]), x.zone, x.record);
  }

  function Shared(body: Body): Config {
    Config([Zone(1, "a", true, [Record(7, body)]), Zone(2, "b", true, [Record(7, body)])], [], None, [])
  }

  lemma SharedIsAcceptable(body: Body, isIp: string -> int)
    requires RecordStorable(body)
    ensures Acceptable(Shared(body), isIp)
  {
    assert Storable(Shared(body)) by {
      assert NoNul("a") && NoNul("b");
    }
  }

  lemma SharedRows(body: Body)
    ensures var x, y := Listed(1, Record(7, body)), Listed(2, Record(7, body));
            AllListed(Shared(body).zones) == [x, y]
    ensures RecordRows(AllListed(Shared(body).zones)) == map[7 := RecordRow(1, Stored(body))]
  {
    var first, second := Shared(body).zones[0], Shared(body).zones[1];
    var x, y := Listed(1, Record(7, body)), Listed(2, Record(7, body));
    TwoZones(first, second);
    assert ListedIn(1, first.records) + ListedIn(2, second.records) == [x, y];
    TwoListings(x, y);
  }

  /** Two zones that list one record id: the import succeeds, and the record ends up in the wrong zone. */
  lemma SharedRecordIdMovesTheRecord(body: Body, isIp: string -> int)
    requires RecordStorable(body)
    ensures Acceptable(Shared(body), isIp)
    ensures Filled(Shared(body)).records == map[7 := RecordRow(1, Stored(body))]
    ensures !Mirrors(Filled(Shared(body)), Shared(body))
  {
    SharedIsAcceptable(body, isIp);
    SharedRows(body);
    var list := AllListed(Shared(body).zones);
    assert !MirrorsRecords(RecordRows(list), list) by { assert list[1].zone == 2; }
  }

  // ---------------------------------------------------------------- the tables themselves

  class ConfigStore {
    var zones: map<Id, ZoneRow>
    var records: map<Id, RecordRow>
    var streams: map<string, Route>
    var pool: Option<Pool>
    var rules: seq<Rule>

    ghost function View(): Tables
      reads this
    {
      Tables(zones, records, streams, pool, rules)
    }

    constructor ()
      ensures View() == Tables(map[], map[], map[], None, [])
    {
      zones, records, streams, pool, rules := map[], map[], map[], None, [];
    }

    /** The whole refill; a failure anywhere rolls the transaction back. `othersOk` says whether the secrets, owners
        and certificates of the snapshot could be stored. */
    method Materialize(c: Config, isIp: string -> int, othersOk: bool) returns (ok: bool)
      modifies this
      ensures ok <==> othersOk && Acceptable(c, isIp)
      ensures View() == if ok then Filled(c) else old(View())
    {
      var savedZones, savedRecords, savedStreams := zones, records, streams;
      var savedPool, savedRules := pool, rules;
      ok := ValidateRoutes(c.streams, isIp);
      if !ok {
        return;
      }
      ok := ReplaceSettings(c, isIp);
      if !ok {
        return;
      }
      ok := ReplaceZones(c.zones);
      if ok && othersOk {
        ok := ReplaceStreams(c.streams);
      }
      if !ok || !othersOk {
        zones, records, streams, pool, rules := savedZones, savedRecords, savedStreams, savedPool, savedRules;
        return false;
      }
    }

    method ReplaceSettings(c: Config, isIp: string -> int) returns (ok: bool)
      modifies this`pool, this`rules
      ensures ok <==> (c.pool.Some? ==> PoolOk(c.pool.value, isIp)) && RulesOk(c.rules, isIp)
      ensures ok ==> pool == c.pool && rules == NormalRules(c.rules)
      ensures !ok ==> pool == old(pool) && rules == old(rules)
    {
      if c.pool.Some? && !PoolOk(c.pool.value, isIp) {
        return false;
      }
      var checked := ValidateForwardingRules(c.rules, isIp);
      if checked.Refused? {
        return false;
      }
      pool, rules := c.pool, checked.result;
      return true;
    }

    /** Deletes all zones and records, then inserts zone after zone with its records. */
    method ReplaceZones(source: seq<Zone>) returns (ok: bool)
      modifies this`zones, this`records
      ensures ok <==> ZonesOk(source) && forall i :: 0 <= i < |source| ==> ZoneStorable(source[i])
      ensures ok ==> zones == ZoneRows(source) && records == RecordRows(AllListed(source))
    {
      zones, records := map[], map[];
      for n := 0 to |source|
        invariant ZonesOk(source[..n]) && forall i :: 0 <= i < n ==> ZoneStorable(source[i])
        invariant zones == ZoneRows(source[..n]) && records == RecordRows(AllListed(source[..n]))
      {
        ok := InsertZone(source[n], source[..n]);
        OneMoreZone(source, n);
        if !ok {
          return;
        }
      }
      assert source[..|source|] == source;
      return true;
    }

    method InsertZone(z: Zone, ghost before: seq<Zone>) returns (ok: bool)
      requires ZonesOk(before) && zones == ZoneRows(before) && records == RecordRows(AllListed(before))
      modifies this`zones, this`records
      ensures ok <==> NewZone(before, z) && ZoneStorable(z)
      ensures ok ==> zones == ZoneRows(before + [z]) && records == RecordRows(AllListed(before + [z]))
    {
      ClashesIff(before, z);
      if z.id in zones || (exists id | id in zones :: zones[id].name == z.name) || !NoNul(z.name) {
        return false;
      }
      zones := zones[z.id := ZoneRow(z.name, z.enabled)];
      ok := InsertRecords(z, AllListed(before));
      assert (before + [z])[..|before|] == before;
    }

    method InsertRecords(z: Zone, ghost before: seq<Listed>) returns (ok: bool)
      requires records == RecordRows(before)
      modifies this`records
      ensures ok <==> forall i :: 0 <= i < |z.records| ==> RecordStorable(z.records[i].body)
      ensures ok ==> records == RecordRows(before + ListedIn(z.id, z.records))
    {
      NoneListed(before, z.id, z.records);
      for n := 0 to |z.records|
        invariant forall i :: 0 <= i < n ==> RecordStorable(z.records[i].body)
        invariant records == RecordRows(before + ListedIn(z.id, z.records[..n]))
      {
        OneMoreListed(before, z.id, z.records, n);
        if !RecordStorable(z.records[n].body) {
          return false;
        }
        records := Upserted(records, z.id, z.records[n]);
      }
      return true;
    }

    method ReplaceStreams(source: seq<Route>) returns (ok: bool)
      modifies this`streams
      ensures ok <==> forall i :: 0 <= i < |source| ==> UuidText(source[i].id)
      ensures ok ==> streams == StreamRows(source)
    {
      streams := map[];
      for n := 0 to |source|
        invariant forall i :: 0 <= i < n ==> UuidText(source[i].id)
        invariant streams == StreamRows(source[..n])
      {
        if !UuidText(source[n].id) {
          return false;
        }
        assert source[..n + 1][..n] == source[..n];
        streams := streams[source[n].id := source[n]];
      }
      assert source[..|source|] == source;
      return true;
    }
  }

  method ValidateRoutes(streams: seq<Route>, isIp: string -> int) returns (ok: bool)
    ensures ok <==> RoutesOk(streams, isIp)
  {
    var listeners: set<Listener> := {};
    for n := 0 to |streams|
      invariant forall i :: 0 <= i < n ==> RouteOk(streams[i], isIp) && streams[i].listener in listeners
      invariant forall i, k :: 0 <= i < k < n ==> streams[i].listener != streams[k].listener
      invariant forall l :: l in listeners ==> exists i :: 0 <= i < n && streams[i].listener == l
    {
      if !RouteOk(streams[n], isIp) || streams[n].listener in listeners {
        return false;
      }
      listeners := listeners + {streams[n].listener};
    }
    return true;
  }

  ghost predicate NewZone(before: seq<Zone>, z: Zone) {
    forall i :: 0 <= i < |before| ==> before[i].id != z.id && before[i].name != z.name
  }

  /** One more zone is in order if and only if it is new. */
  lemma OneMoreZone(source: seq<Zone>, n: nat)
    requires n < |source| && ZonesOk(source[..n])
    ensures source[..n + 1] == source[..n] + [source[n]]
    ensures ZonesOk(source[..n + 1]) <==> NewZone(source[..n], source[n])
    ensures !NewZone(source[..n], source[n]) ==> !ZonesOk(source)
  {
    var longer, before := source[..n + 1], source[..n];
    assert longer == before + [source[n]];
    assert forall i :: 0 <= i < n ==> longer[i] == before[i] == source[i];
  }

  /** A row in the way of a zone comes from an earlier zone. */
  lemma ClashesIff(before: seq<Zone>, z: Zone)
    requires ZonesOk(before)
    ensures var rows := ZoneRows(before);
            z.id in rows || (exists id :: id in rows && rows[id].name == z.name) <==> !NewZone(before, z)
  {
    ZoneRowsMirror(before);
    var rows := ZoneRows(before);
    if z.id in rows || exists id :: id in rows && rows[id].name == z.name {
      var id :| id in rows && (id == z.id || rows[id].name == z.name);
      var i :| 0 <= i < |before| && before[i].id == id;
    }
  }

  lemma NoneListed(before: seq<Listed>, zone: Id, records: seq<Record>)
    ensures before + ListedIn(zone, records[..0]) == before
    ensures records[..|records|] == records
  {
  }

  lemma OneMoreListed(before: seq<Listed>, zone: Id, records: seq<Record>, n: nat)
    requires n < |records|
    ensures RecordRows(before + ListedIn(zone, records[..n + 1])) ==
            Upserted(RecordRows(before + ListedIn(zone, records[..n])), zone, records[n])
  {
    var longer := before + ListedIn(zone, records[..n + 1]);
    assert records[..n + 1][..n] == records[..n];
    assert longer == before + ListedIn(zone, records[..n]) + [Listed(zone, records[n])];
    assert longer[..|longer| - 1] == before + ListedIn(zone, records[..n]);
  }
}
