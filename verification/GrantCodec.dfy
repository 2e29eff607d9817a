/**
 * The binary forms of an enrollment bootstrap: the grant plaintext that is sealed for a node and the
 * canonical bytes its binding is authenticated with. Both are sequences of numbers, fixed blocks and
 * length-prefixed texts, so one argument about such sequences covers both.
 */
module GrantCodec {
  import opened Options
  import opened Octets
  import opened Sequences

  const PLAINTEXT_VERSION := 2
  const PROTOCOL_VERSION := 1
  const SECRET_BYTES := 32
  const DIGEST_BYTES := 32
  const MAX_TEXT := 256
  const MAX_INT64 := 0x7fff_ffff_ffff_ffff
  const FIXED_BYTES := 4 + 4 + SECRET_BYTES + SECRET_BYTES + 8 + 8
  const MIN_BYTES := FIXED_BYTES + 6 * 4
  const MAX_BYTES := FIXED_BYTES + 6 * (4 + MAX_TEXT)

  // ---------------------------------------------------------------- numbers

  function Power(width: nat): (p: nat)
    ensures p > 0
  {
    if width == 0 then 1 else 256 * Power(width - 1)
  }

  /** `binary.BigEndian.PutUint`. */
  function BigEndian(n: nat, width: nat): (r: Bytes)
    ensures |r| == width
  {
    if width == 0 then [] else BigEndian(n / 256, width - 1) + [(n % 256) as byte]
  }

  function Number(s: Bytes): nat {
    if s == [] then 0 else 256 * Number(s[..|s| - 1]) + s[|s| - 1] as nat
  }

  /** The most significant byte comes first. */
  lemma BigEndianIs(n: nat)
    ensures BigEndian(n, 4) == [(n / 0x100_0000 % 0x100) as byte, (n / 0x1_0000 % 0x100) as byte,
                                (n / 0x100 % 0x100) as byte, (n % 0x100) as byte]
    ensures BigEndian(n, 8) == BigEndian(n / 0x1_0000_0000, 4) + BigEndian(n, 4)
  {
    LastBytes(n, 4);
    LastBytes(n / 0x1_0000_0000, 4);
    LastBytes(n, 8);
  }

  lemma LastBytes(n: nat, width: nat)
    requires width >= 4
    ensures BigEndian(n, width) ==
            BigEndian(n / 0x1_0000_0000, width - 4) +
            [(n / 0x100_0000 % 0x100) as byte, (n / 0x1_0000 % 0x100) as byte, (n / 0x100 % 0x100) as byte,
             (n % 0x100) as byte]
  {
    var a, b, c := n / 0x100, n / 0x100 / 0x100, n / 0x100 / 0x100 / 0x100;
    assert b == n / 0x1_0000 && c == n / 0x100_0000 && c / 0x100 == n / 0x1_0000_0000;
    assert BigEndian(n, width) == BigEndian(a, width - 1) + [(n % 0x100) as byte];
    assert BigEndian(a, width - 1) == BigEndian(b, width - 2) + [(a % 0x100) as byte];
    assert BigEndian(b, width - 2) == BigEndian(c, width - 3) + [(b % 0x100) as byte];
    assert BigEndian(c, width - 3) == BigEndian(c / 0x100, width - 4) + [(c % 0x100) as byte];
  }

  lemma {:induction false} NumberOfBigEndian(n: nat, width: nat)
    requires n < Power(width)
    ensures Number(BigEndian(n, width)) == n
  {
    if width > 0 {
      NumberOfBigEndian(n / 256, width - 1);
      var s := BigEndian(n, width);
      assert s[..|s| - 1] == BigEndian(n / 256, width - 1);
    }
  }

  lemma {:induction false} BigEndianOfNumber(s: Bytes)
    ensures Number(s) < Power(|s|) && BigEndian(Number(s), |s|) == s
  {
    if s != [] {
      BigEndianOfNumber(s[..|s| - 1]);
      assert s == s[..|s| - 1] + [s[|s| - 1]];
    }
  }

  // ---------------------------------------------------------------- texts

  predicate Tail(b: byte) {
    0x80 <= b <= 0xBF
  }

  /** Length of the well-formed UTF-8 character at the front (section 4 of RFC 3629), or 0. */
  function RuneLength(s: Bytes): (n: nat)
    ensures n <= |s|
  {
    if |s| >= 1 && s[0] <= 0x7F then 1
    else if |s| >= 2 && 0xC2 <= s[0] <= 0xDF && Tail(s[1]) then 2
    else if |s| >= 3 && 0xE0 <= s[0] <= 0xEF && Tail(s[1]) && Tail(s[2]) && (s[0] == 0xE0 ==> s[1] >= 0xA0) &&
            (s[0] == 0xED ==> s[1] <= 0x9F) then 3
    else if |s| >= 4 && 0xF0 <= s[0] <= 0xF4 && Tail(s[1]) && Tail(s[2]) && Tail(s[3]) &&
      (s[0] == 0xF0 ==> s[1] >= 0x90) &&
            (s[0] == 0xF4 ==> s[1] <= 0x8F) then 4
    else 0
  }

  predicate ValidUtf8(s: Bytes)
    decreases |s|
  {
    s == [] || (RuneLength(s) > 0 && ValidUtf8(s[RuneLength(s)..]))
  }

  /** A Unicode scalar value, and its UTF-8 form as section 3 of RFC 3629 spells it out. */
  predicate Scalar(c: nat) {
    c < 0xD800 || 0xE000 <= c < 0x11_0000
  }

  function Utf8(c: nat): (r: Bytes)
    requires Scalar(c)
    ensures r != []
  {
    if c < 0x80 then [c as byte]
    else if c < 0x800 then [(0xC0 + c / 0x40) as byte, (0x80 + c % 0x40) as byte]
    else if c < 0x1_0000 then
      [(0xE0 + c / 0x1000) as byte, (0x80 + c / 0x40 % 0x40) as byte, (0x80 + c % 0x40) as byte]
    else
      [(0xF0 + c / 0x4_0000) as byte, (0x80 + c / 0x1000 % 0x40) as byte, (0x80 + c / 0x40 % 0x40) as byte,
       (0x80 + c % 0x40) as byte]
  }

  predicate AllScalar(cs: seq<nat>) {
    forall i :: 0 <= i < |cs| ==> Scalar(cs[i])
  }

  function Utf8Text(cs: seq<nat>): Bytes
    requires AllScalar(cs)
  {
    if cs == [] then [] else Utf8(cs[0]) + Utf8Text(cs[1..])
  }

  /** The scalar value that a well-formed character at the front stands for. */
  function FirstScalar(s: Bytes): (c: nat)
    requires RuneLength(s) > 0
  {
    if RuneLength(s) == 1 then s[0] as nat
    else if RuneLength(s) == 2 then (s[0] as nat - 0xC0) * 0x40 + (s[1] as nat - 0x80)
    else if RuneLength(s) == 3 then
      (s[0] as nat - 0xE0) * 0x1000 + (s[1] as nat - 0x80) * 0x40 + (s[2] as nat - 0x80)
    else
      (s[0] as nat - 0xF0) * 0x4_0000 + (s[1] as nat - 0x80) * 0x1000 + (s[2] as nat - 0x80) * 0x40 +
        (s[3] as nat - 0x80)
  }

  lemma Six(q: nat, r: nat)
    requires r < 0x40
    ensures (q * 0x40 + r) / 0x40 == q && (q * 0x40 + r) % 0x40 == r
  {
  }

  lemma Sixes(a: nat, b: nat, c: nat, d: nat)
    requires b < 0x40 && c < 0x40 && d < 0x40
    ensures var n := a * 0x4_0000 + b * 0x1000 + c * 0x40 + d;
            n / 0x4_0000 == a && n / 0x1000 == a * 0x40 + b && n / 0x1000 % 0x40 == b && n / 0x40 % 0x40 == c &&
            n % 0x40 == d
  {
    var n := a * 0x4_0000 + b * 0x1000 + c * 0x40 + d;
    var m, k := a * 0x1000 + b * 0x40 + c, a * 0x40 + b;
    Six(m, d);
    Six(k, c);
    Six(a, b);
    assert n == m * 0x40 + d && m == k * 0x40 + c;
    assert n / 0x1000 == n / 0x40 / 0x40 && n / 0x4_0000 == n / 0x1000 / 0x40;
  }

  lemma FirstScalarIs(s: Bytes)
    requires RuneLength(s) > 0
    ensures Scalar(FirstScalar(s)) && Utf8(FirstScalar(s)) == s[..RuneLength(s)]
  {
    match RuneLength(s) {
      case 1 => assert s[..1] == [s[0]];
      case 2 => TwoBytes(s);
      case 3 => ThreeBytes(s);
      case _ => FourBytes(s);
    }
  }

  lemma TwoBytes(s: Bytes)
    requires RuneLength(s) == 2
    ensures Scalar(FirstScalar(s)) && Utf8(FirstScalar(s)) == s[..2]
  {
    assert s[..2] == [s[0], s[1]];
  }

  lemma ThreeBytes(s: Bytes)
    requires RuneLength(s) == 3
    ensures Scalar(FirstScalar(s)) && Utf8(FirstScalar(s)) == s[..3]
  {
    var a, b, c := s[0] as nat - 0xE0, s[1] as nat - 0x80, s[2] as nat - 0x80;
    assert s[..3] == [s[0], s[1], s[2]];
    Sixes(0, a, b, c);
    assert FirstScalar(s) == a * 0x1000 + b * 0x40 + c;
  }

  lemma FourBytes(s: Bytes)
    requires RuneLength(s) == 4
    ensures Scalar(FirstScalar(s)) && Utf8(FirstScalar(s)) == s[..4]
  {
    var a, b, c, d := s[0] as nat - 0xF0, s[1] as nat - 0x80, s[2] as nat - 0x80, s[3] as nat - 0x80;
    assert s[..4] == [s[0], s[1], s[2], s[3]];
    Sixes(a, b, c, d);
    assert FirstScalar(s) == a * 0x4_0000 + b * 0x1000 + c * 0x40 + d;
  }

  lemma RuneOfScalar(c: nat, rest: Bytes)
    requires Scalar(c)
    ensures RuneLength(Utf8(c) + rest) == |Utf8(c)|
  {
  }

  lemma {:induction false} ValidSpells(s: Bytes) returns (cs: seq<nat>)
    requires ValidUtf8(s)
    ensures AllScalar(cs) && Utf8Text(cs) == s
    decreases |s|
  {
    if s == [] {
      cs := [];
    } else {
      var n := RuneLength(s);
      var rest := ValidSpells(s[n..]);
      FirstScalarIs(s);
      cs := [FirstScalar(s)] + rest;
      assert cs[1..] == rest && s == s[..n] + s[n..];
    }
  }

  lemma {:induction false} SpelledIsValid(cs: seq<nat>)
    requires AllScalar(cs)
    ensures ValidUtf8(Utf8Text(cs))
  {
    if cs != [] {
      var first, rest := Utf8(cs[0]), Utf8Text(cs[1..]);
      SpelledIsValid(cs[1..]);
      RuneOfScalar(cs[0], rest);
      assert (first + rest)[|first|..] == rest;
    }
  }

  /** A text is accepted as UTF-8 exactly when it spells some sequence of scalar values. */
  lemma ValidUtf8Iff(s: Bytes)
    ensures ValidUtf8(s) <==> exists cs :: AllScalar(cs) && Utf8Text(cs) == s
  {
    if ValidUtf8(s) {
      var cs := ValidSpells(s);
    }
    if cs :| AllScalar(cs) && Utf8Text(cs) == s {
      SpelledIsValid(cs);
    }
  }

  predicate ValidIdentifier(s: Bytes) {
    0 < |s| <= MAX_TEXT && ValidUtf8(s)
  }

  // ---------------------------------------------------------------- fields

  // A text is preceded by its length and satisfies a test of its own.
  datatype Kind = Num(width: nat) | Raw(size: nat) | Text(valid: Bytes -> bool)
  datatype Field = Value(n: nat) | Data(bytes: Bytes)

  predicate Fits(kind: Kind, f: Field) {
    match kind
    case Num(width) => f.Value? && f.n < Power(width)
    case Raw(size) => f.Data? && |f.bytes| == size
    case Text(valid) => f.Data? && |f.bytes| < Power(4) && valid(f.bytes)
  }

  function LengthPrefixed(s: Bytes): Bytes {
    BigEndian(|s|, 4) + s
  }

  function PutField(kind: Kind, f: Field): Bytes
    requires Fits(kind, f)
  {
    match kind
    case Num(width) => BigEndian(f.n, width)
    case Raw(_) => f.bytes
    case Text(_) => LengthPrefixed(f.bytes)
  }

  /** A field read from the front, and what is left. */
  datatype Read<T> = Read(got: T, rest: Bytes)

  function ReadRaw(s: Bytes, size: nat): Option<Read<Bytes>> {
    if |s| < size then None else Some(Read(s[..size], s[size..]))
  }

  function ReadNumber(s: Bytes, width: nat): Option<Read<nat>> {
    if |s| < width then None else Some(Read(Number(s[..width]), s[width..]))
  }

  function ReadText(s: Bytes, valid: Bytes -> bool): Option<Read<Bytes>> {
    match ReadNumber(s, 4)
    case None => None
    case Some(length) =>
      match ReadRaw(length.rest, length.got)
      case None => None
      case Some(text) => if valid(text.got) then Some(text) else None
  }

  function AsData(r: Option<Read<Bytes>>): Option<Read<Field>> {
    match r
    case None => None
    case Some(x) => Some(Read(Data(x.got), x.rest))
  }

  function AsValue(r: Option<Read<nat>>): Option<Read<Field>> {
    match r
    case None => None
    case Some(x) => Some(Read(Value(x.got), x.rest))
  }

  function ReadField(kind: Kind, s: Bytes): Option<Read<Field>> {
    match kind
    case Num(width) => AsValue(ReadNumber(s, width))
    case Raw(size) => AsData(ReadRaw(s, size))
    case Text(valid) => AsData(ReadText(s, valid))
  }

  lemma NumberReadsBack(n: nat, width: nat, rest: Bytes)
    requires n < Power(width)
    ensures ReadNumber(BigEndian(n, width) + rest, width) == Some(Read(n, rest))
  {
    var s := BigEndian(n, width) + rest;
    NumberOfBigEndian(n, width);
    assert s[..width] == BigEndian(n, width) && s[width..] == rest;
  }

  lemma TextReadsBack(s: Bytes, valid: Bytes -> bool, rest: Bytes)
    requires |s| < Power(4) && valid(s)
    ensures ReadText(LengthPrefixed(s) + rest, valid) == Some(Read(s, rest))
  {
    NumberReadsBack(|s|, 4, s + rest);
    assert LengthPrefixed(s) + rest == BigEndian(|s|, 4) + (s + rest);
    assert (s + rest)[..|s|] == s && (s + rest)[|s|..] == rest;
  }

  lemma PowerOfFour()
    ensures Power(4) == 0x1_0000_0000 && Power(8) == 0x1_0000_0000_0000_0000
  {
    assert Power(1) == 256 && Power(2) == 65536 && Power(3) == 16777216;
    assert Power(5) == 256 * Power(4) && Power(6) == 256 * Power(5) && Power(7) == 256 * Power(6);
  }

  lemma FieldReadsBack(kind: Kind, f: Field, rest: Bytes)
    requires Fits(kind, f)
    ensures ReadField(kind, PutField(kind, f) + rest) == Some(Read(f, rest))
  {
    match kind {
      case Num(width) => NumberReadsBack(f.n, width, rest);
      case Raw(size) => assert (f.bytes + rest)[..size] == f.bytes && (f.bytes + rest)[size..] == rest;
      case Text(valid) => TextReadsBack(f.bytes, valid, rest);
    }
  }

  lemma ReadIsFaithful(kind: Kind, s: Bytes)
    requires ReadField(kind, s).Some?
    ensures var r := ReadField(kind, s).value; Fits(kind, r.got) && s == PutField(kind, r.got) + r.rest
  {
    match kind {
      case Num(width) => NumberIsFaithful(s, width);
      case Raw(size) =>
      case Text(valid) => TextIsFaithful(s, valid);
    }
  }

  lemma NumberIsFaithful(s: Bytes, width: nat)
    requires ReadNumber(s, width).Some?
    ensures var r := ReadNumber(s, width).value; r.got < Power(width) && s == BigEndian(r.got, width) + r.rest
  {
    BigEndianOfNumber(s[..width]);
  }

  lemma TextIsFaithful(s: Bytes, valid: Bytes -> bool)
    requires ReadText(s, valid).Some?
    ensures var r := ReadText(s, valid).value; |r.got| < Power(4) && valid(r.got) && s == LengthPrefixed(r.got) + r.rest
  {
    var r := ReadText(s, valid).value;
    PrefixIsFaithful(s, r.got, r.rest);
  }

  lemma PrefixIsFaithful(s: Bytes, text: Bytes, rest: Bytes)
    requires |s| >= 4 && |text| == Number(s[..4]) && s[4..] == text + rest
    ensures s == LengthPrefixed(text) + rest && |text| < Power(4)
  {
    BigEndianOfNumber(s[..4]);
    assert s == s[..4] + s[4..];
  }

  // ---------------------------------------------------------------- layouts

  predicate AllFit(kinds: seq<Kind>, fields: seq<Field>) {
    |kinds| == |fields| && forall i :: 0 <= i < |kinds| ==> Fits(kinds[i], fields[i])
  }

  /** The fields from the `i`th on. */
  function PutAll(kinds: seq<Kind>, fields: seq<Field>, i: nat): Bytes
    requires AllFit(kinds, fields) && i <= |kinds|
    decreases |kinds| - i
  {
    if i == |kinds| then [] else PutField(kinds[i], fields[i]) + PutAll(kinds, fields, i + 1)
  }

  function ReadAll(kinds: seq<Kind>, i: nat, s: Bytes): Option<Read<seq<Field>>>
    requires i <= |kinds|
    decreases |kinds| - i
  {
    if i == |kinds| then Some(Read([], s))
    else match ReadField(kinds[i], s)
      case None => None
      case Some(f) => Push([f.got], ReadAll(kinds, i + 1, f.rest))
  }

  function Push(seen: seq<Field>, r: Option<Read<seq<Field>>>): Option<Read<seq<Field>>> {
    match r
    case None => None
    case Some(x) => Some(Read(seen + x.got, x.rest))
  }

  lemma {:induction false} AllReadBack(kinds: seq<Kind>, fields: seq<Field>, i: nat, rest: Bytes)
    requires AllFit(kinds, fields) && i <= |kinds|
    ensures ReadAll(kinds, i, PutAll(kinds, fields, i) + rest) == Some(Read(fields[i..], rest))
    decreases |kinds| - i
  {
    if i == |kinds| {
      assert [] + rest == rest;
    } else {
      var first, tail := PutField(kinds[i], fields[i]), PutAll(kinds, fields, i + 1);
      AllReadBack(kinds, fields, i + 1, rest);
      FieldReadsBack(kinds[i], fields[i], tail + rest);
      Assoc(first, tail, rest);
      assert fields[i..] == [fields[i]] + fields[i + 1..];
    }
  }

  lemma {:induction false} ReadAllIsFaithful(kinds: seq<Kind>, fields: seq<Field>, i: nat, s: Bytes, rest: Bytes)
    requires i <= |kinds| && |fields| == |kinds| && ReadAll(kinds, i, s) == Some(Read(fields[i..], rest))
    requires forall k :: 0 <= k < i ==> Fits(kinds[k], fields[k])
    ensures AllFit(kinds, fields) && s == PutAll(kinds, fields, i) + rest
    decreases |kinds| - i
  {
    if i < |kinds| {
      ReadIsFaithful(kinds[i], s);
      var f := ReadField(kinds[i], s).value;
      var tail := ReadAll(kinds, i + 1, f.rest).value;
      assert fields[i] == ([f.got] + tail.got)[0] && fields[i + 1..] == ([f.got] + tail.got)[1..] == tail.got;
      ReadAllIsFaithful(kinds, fields, i + 1, f.rest, rest);
      Assoc(PutField(kinds[i], fields[i]), PutAll(kinds, fields, i + 1), rest);
    }
  }

  // ---------------------------------------------------------------- the grant

  datatype Grant = Grant(protocol: nat, credentialId: Bytes, credential: Bytes, clusterKeyId: Bytes, clusterKek: Bytes,
                         primary: Bytes, installation: Bytes, node: Bytes, attempt: Bytes, generation: nat,
                           expiresAt: nat)

  /** `validateShape`, with the widths of the unsigned and signed integer fields. */
  predicate ValidGrant(g: Grant) {
    && g.protocol == PROTOCOL_VERSION && 0 < g.generation < Power(8) && 0 < g.expiresAt <= MAX_INT64
    && ValidIdentifier(g.credentialId) && ValidIdentifier(g.clusterKeyId) && ValidIdentifier(g.primary)
    && ValidIdentifier(g.installation) && ValidIdentifier(g.node) && ValidIdentifier(g.attempt)
    && |g.credential| == SECRET_BYTES && |g.clusterKek| == SECRET_BYTES
  }

  const IDENTIFIER := Text(ValidIdentifier)

  /** The kinds of the fields, one by one. */
  ghost predicate IsLayout(kinds: seq<Kind>) {
    && |kinds| == 12 && kinds[0] == Num(4) && kinds[1] == Num(4) && kinds[2] == IDENTIFIER &&
       kinds[3] == Raw(SECRET_BYTES)
    && kinds[4] == IDENTIFIER && kinds[5] == Raw(SECRET_BYTES) && kinds[6] == IDENTIFIER && kinds[7] == IDENTIFIER
    && kinds[8] == IDENTIFIER && kinds[9] == IDENTIFIER && kinds[10] == Num(8) && kinds[11] == Num(8)
  }

  /** Version, protocol, credential with its id, cluster key with its id, four names, generation and expiry. */
  ghost function Layout(): (kinds: seq<Kind>)
    ensures IsLayout(kinds)
  {
    assert IsLayout([Num(4), Num(4), IDENTIFIER, Raw(SECRET_BYTES), IDENTIFIER, Raw(SECRET_BYTES),
                     IDENTIFIER, IDENTIFIER, IDENTIFIER, IDENTIFIER, Num(8), Num(8)]);
    var kinds :| IsLayout(kinds);
    kinds
  }

  function FieldsOf(g: Grant): seq<Field> {
    [Value(PLAINTEXT_VERSION), Value(g.protocol), Data(g.credentialId), Data(g.credential), Data(g.clusterKeyId),
     Data(g.clusterKek),
     Data(g.primary), Data(g.installation), Data(g.node), Data(g.attempt), Value(g.generation), Value(g.expiresAt)]
  }

  predicate Shaped(f: seq<Field>) {
    && |f| == 12 && f[0].Value? && f[1].Value? && f[2].Data? && f[3].Data? && f[4].Data? && f[5].Data? && f[6].Data?
    && f[7].Data? && f[8].Data? && f[9].Data? && f[10].Value? && f[11].Value?
  }

  function GrantOf(f: seq<Field>): Grant
    requires Shaped(f)
  {
    Grant(f[1].n, f[2].bytes, f[3].bytes, f[4].bytes, f[5].bytes, f[6].bytes, f[7].bytes, f[8].bytes, f[9].bytes,
          f[10].n, f[11].n)
  }

  lemma GrantFits(g: Grant)
    requires ValidGrant(g)
    ensures AllFit(Layout(), FieldsOf(g))
  {
    PowerOfFour();
  }

  ghost function Encode(g: Grant): Option<Bytes> {
    if ValidGrant(g) && AllFit(Layout(), FieldsOf(g)) then Some(PutAll(Layout(), FieldsOf(g), 0)) else None
  }

  ghost function Decode(s: Bytes): Option<Grant> {
    if !(MIN_BYTES <= |s| <= MAX_BYTES) then None
    else match ReadAll(Layout(), 0, s)
      case None => None
      case Some(r) =>
        if r.rest == [] && Shaped(r.got) && r.got[0].n == PLAINTEXT_VERSION && ValidGrant(GrantOf(r.got))
        then Some(GrantOf(r.got)) else None
  }

  function Width(kind: Kind): nat {
    match kind case Num(w) => w case Raw(n) => n case Text(_) => 4
  }

  /** Bytes that fields from the `i`th on take up besides their texts, and how many texts there are. */
  function WidthFrom(kinds: seq<Kind>, i: nat): nat
    requires i <= |kinds|
    decreases |kinds| - i
  {
    if i == |kinds| then 0 else Width(kinds[i]) + WidthFrom(kinds, i + 1)
  }

  function TextsFrom(kinds: seq<Kind>, i: nat): nat
    requires i <= |kinds|
    decreases |kinds| - i
  {
    if i == |kinds| then 0 else (if kinds[i].Text? then 1 else 0) + TextsFrom(kinds, i + 1)
  }

  lemma {:induction false} LengthOfAll(kinds: seq<Kind>, fields: seq<Field>, i: nat)
    requires AllFit(kinds, fields) && i <= |kinds|
    requires forall k :: 0 <= k < |kinds| && kinds[k].Text? ==> kinds[k] == IDENTIFIER
    ensures WidthFrom(kinds, i) + TextsFrom(kinds, i) <= |PutAll(kinds, fields, i)| <= WidthFrom(kinds, i) +
            MAX_TEXT * TextsFrom(kinds, i)
    decreases |kinds| - i
  {
    if i < |kinds| {
      LengthOfAll(kinds, fields, i + 1);
    }
  }

  lemma LayoutWidths(kinds: seq<Kind>)
    requires IsLayout(kinds)
    ensures WidthFrom(kinds, 0) == MIN_BYTES && TextsFrom(kinds, 0) == 6
  {
    assert WidthFrom(kinds, 11) == 8 && TextsFrom(kinds, 11) == 0;
    assert WidthFrom(kinds, 10) == 16 && TextsFrom(kinds, 10) == 0;
    assert WidthFrom(kinds, 9) == 20 && TextsFrom(kinds, 9) == 1;
    assert WidthFrom(kinds, 8) == 24 && TextsFrom(kinds, 8) == 2;
    assert WidthFrom(kinds, 7) == 28 && TextsFrom(kinds, 7) == 3;
    assert WidthFrom(kinds, 6) == 32 && TextsFrom(kinds, 6) == 4;
    assert WidthFrom(kinds, 5) == 64 && TextsFrom(kinds, 5) == 4;
    assert WidthFrom(kinds, 4) == 68 && TextsFrom(kinds, 4) == 5;
    assert WidthFrom(kinds, 3) == 100 && TextsFrom(kinds, 3) == 5;
    assert WidthFrom(kinds, 2) == 104 && TextsFrom(kinds, 2) == 6;
    assert WidthFrom(kinds, 1) == 108 && TextsFrom(kinds, 1) == 6;
  }

  /** The length check after encoding never refuses: every valid grant has an encoding within the limits. */
  lemma EncodingIsWithinLimits(g: Grant)
    requires ValidGrant(g)
    ensures Encode(g).Some? && MIN_BYTES + 6 <= |Encode(g).value| <= MAX_BYTES
  {
    GrantFits(g);
    LayoutWidths(Layout());
    LengthOfAll(Layout(), FieldsOf(g), 0);
  }

  /** Which grants are valid: protocol 1, two secrets of 32 bytes, six names of 1 to 256 bytes of UTF-8, a positive
      generation of 64 bits and a positive expiry of 63. */
  lemma ValidGrantIff(g: Grant)
    ensures ValidGrant(g) <==>
            && g.protocol == 1 && |g.credential| == 32 && |g.clusterKek| == 32
            && 0 < g.generation < 0x1_0000_0000_0000_0000 && 0 < g.expiresAt < 0x8000_0000_0000_0000
            && (forall s :: s in [g.credentialId, g.clusterKeyId, g.primary, g.installation, g.node, g.attempt] ==>
                  1 <= |s| <= 256 && ValidUtf8(s))
  {
    PowerOfFour();
    var names := [g.credentialId, g.clusterKeyId, g.primary, g.installation, g.node, g.attempt];
    assert names[0] in names && names[1] in names && names[2] in names && names[3] in names && names[4] in names &&
           names[5] in names;
  }

  /** The bytes of a grant in their order. */
  lemma GrantWireFormat(g: Grant)
    requires ValidGrant(g)
    ensures Encode(g) ==
            Some(BigEndian(2, 4) + (BigEndian(g.protocol, 4) +
                 (BigEndian(|g.credentialId|, 4) + g.credentialId + (g.credential +
                 (BigEndian(|g.clusterKeyId|, 4) + g.clusterKeyId + (g.clusterKek +
                 (BigEndian(|g.primary|, 4) + g.primary + (BigEndian(|g.installation|, 4) + g.installation +
                 (BigEndian(|g.node|, 4) + g.node + (BigEndian(|g.attempt|, 4) + g.attempt +
                 (BigEndian(g.generation, 8) + (BigEndian(g.expiresAt, 8) + []))))))))))))
  {
    GrantFits(g);
    HeadOnTheWire(g, Layout(), FieldsOf(g));
    TailOnTheWire(g, Layout(), FieldsOf(g));
  }

  lemma HeadOnTheWire(g: Grant, kinds: seq<Kind>, fields: seq<Field>)
    requires IsLayout(kinds) && fields == FieldsOf(g) && AllFit(kinds, fields)
    ensures PutAll(kinds, fields, 0) ==
            BigEndian(2, 4) + (BigEndian(g.protocol, 4) +
            (BigEndian(|g.credentialId|, 4) + g.credentialId + (g.credential +
            (BigEndian(|g.clusterKeyId|, 4) + g.clusterKeyId + (g.clusterKek + PutAll(kinds, fields, 6))))))
  {
    assert PutAll(kinds, fields, 4) == LengthPrefixed(g.clusterKeyId) + PutAll(kinds, fields, 5);
    assert PutAll(kinds, fields, 2) == LengthPrefixed(g.credentialId) + PutAll(kinds, fields, 3);
  }

  lemma TailOnTheWire(g: Grant, kinds: seq<Kind>, fields: seq<Field>)
    requires IsLayout(kinds) && fields == FieldsOf(g) && AllFit(kinds, fields)
    ensures PutAll(kinds, fields, 6) ==
            BigEndian(|g.primary|, 4) + g.primary + (BigEndian(|g.installation|, 4) + g.installation +
            (BigEndian(|g.node|, 4) + g.node + (BigEndian(|g.attempt|, 4) + g.attempt +
            (BigEndian(g.generation, 8) + (BigEndian(g.expiresAt, 8) + [])))))
  {
    assert PutAll(kinds, fields, 10) == BigEndian(g.generation, 8) + PutAll(kinds, fields, 11);
    assert PutAll(kinds, fields, 8) == LengthPrefixed(g.node) + PutAll(kinds, fields, 9);
    assert PutAll(kinds, fields, 6) == LengthPrefixed(g.primary) + PutAll(kinds, fields, 7);
  }

  /** Decoding undoes encoding. */
  lemma GrantReadsBack(g: Grant)
    requires ValidGrant(g)
    ensures Encode(g).Some? && Decode(Encode(g).value) == Some(g)
  {
    EncodingIsWithinLimits(g);
    var s := Encode(g).value;
    AllReadBack(Layout(), FieldsOf(g), 0, []);
    assert s + [] == s && FieldsOf(g)[0..] == FieldsOf(g);
  }

  /** There is one encoding only: whatever is accepted is what its grant encodes to. */
  lemma AcceptedBytesAreCanonical(s: Bytes)
    requires Decode(s).Some?
    ensures ValidGrant(Decode(s).value) && Encode(Decode(s).value) == Some(s)
  {
    var r := ReadAll(Layout(), 0, s).value;
    assert r.got[0..] == r.got;
    ReadAllIsFaithful(Layout(), r.got, 0, s, r.rest);
    FieldsOfGrantOf(r.got);
    assert PutAll(Layout(), r.got, 0) + [] == PutAll(Layout(), r.got, 0);
  }

  lemma FieldsOfGrantOf(fields: seq<Field>)
    requires Shaped(fields) && fields[0].n == PLAINTEXT_VERSION
    ensures FieldsOf(GrantOf(fields)) == fields
  {
  }

  // ---------------------------------------------------------------- the binding

  datatype Binding = Binding(protocol: nat, attempt: Bytes, primary: Bytes, installation: Bytes, node: Bytes,
                             generation: nat, digest: Bytes)

  predicate ValidBinding(b: Binding) {
    && b.protocol == PROTOCOL_VERSION && 0 < b.generation < Power(8) && |b.digest| == DIGEST_BYTES
    && ValidIdentifier(b.attempt) && ValidIdentifier(b.primary) && ValidIdentifier(b.installation) &&
       ValidIdentifier(b.node)
  }

  // "proxycore/enrollment/bootstrap/aad/v1"
  const DOMAIN: Bytes :=
    [112, 114, 111, 120, 121, 99, 111, 114, 101, 47, 101, 110, 114, 111, 108, 108, 109, 101, 110, 116, 47,
                          98, 111, 111, 116, 115, 116, 114, 97, 112, 47, 97, 97, 100, 47, 118, 49]

  lemma DomainSpells()
    ensures |DOMAIN| == |"proxycore/enrollment/bootstrap/aad/v1"|
    ensures forall i :: 0 <= i < |DOMAIN| ==> DOMAIN[i] as int == "proxycore/enrollment/bootstrap/aad/v1"[i] as int
  {
  }

  const BLOB := Text((s: Bytes) => true)

  ghost predicate IsBindingLayout(kinds: seq<Kind>) {
    && |kinds| == 8 && kinds[0] == BLOB && kinds[1] == Num(4) && kinds[2] == IDENTIFIER && kinds[3] == IDENTIFIER
    && kinds[4] == IDENTIFIER && kinds[5] == IDENTIFIER && kinds[6] == Num(8) && kinds[7] == BLOB
  }

  /** Domain, protocol, four names, generation and digest. */
  ghost function BindingLayout(): (kinds: seq<Kind>)
    ensures IsBindingLayout(kinds)
  {
    assert IsBindingLayout([BLOB, Num(4), IDENTIFIER, IDENTIFIER, IDENTIFIER, IDENTIFIER, Num(8), BLOB]);
    var kinds :| IsBindingLayout(kinds);
    kinds
  }

  function BindingFields(domain: Bytes, b: Binding): seq<Field> {
    [Data(domain), Value(b.protocol), Data(b.attempt), Data(b.primary), Data(b.installation), Data(b.node),
     Value(b.generation), Data(b.digest)]
  }

  lemma BindingFits(b: Binding)
    requires ValidBinding(b)
    ensures AllFit(BindingLayout(), BindingFields(DOMAIN, b))
  {
    PowerOfFour();
  }

  ghost function Canonical(b: Binding): Option<Bytes> {
    if ValidBinding(b) && AllFit(BindingLayout(), BindingFields(DOMAIN, b))
      then Some(PutAll(BindingLayout(), BindingFields(DOMAIN, b), 0)) else None
  }

  /** Which bindings are valid: protocol 1, a digest of 32 bytes, four names and a positive generation of 64 bits.
      */
  lemma ValidBindingIff(b: Binding)
    ensures ValidBinding(b) <==>
            && b.protocol == 1 && |b.digest| == 32 && 0 < b.generation < 0x1_0000_0000_0000_0000
            && (forall s :: s in [b.attempt, b.primary, b.installation, b.node] ==> 1 <= |s| <= 256 && ValidUtf8(s))
  {
    PowerOfFour();
    var names := [b.attempt, b.primary, b.installation, b.node];
    assert names[0] in names && names[1] in names && names[2] in names && names[3] in names;
  }

  /** The bytes of a binding in their order. */
  lemma BindingWireFormat(b: Binding)
    requires ValidBinding(b)
    ensures Canonical(b) ==
            Some(BigEndian(|DOMAIN|, 4) + DOMAIN + (BigEndian(b.protocol, 4) +
                 (BigEndian(|b.attempt|, 4) + b.attempt + (BigEndian(|b.primary|, 4) + b.primary +
                 (BigEndian(|b.installation|, 4) + b.installation + (BigEndian(|b.node|, 4) + b.node +
                 (BigEndian(b.generation, 8) + (BigEndian(|b.digest|, 4) + b.digest + []))))))))
  {
    BindingFits(b);
    BindingOnTheWire(DOMAIN, b, BindingLayout(), BindingFields(DOMAIN, b));
  }

  lemma BindingOnTheWire(domain: Bytes, b: Binding, kinds: seq<Kind>, fields: seq<Field>)
    requires IsBindingLayout(kinds) && fields == BindingFields(domain, b) && AllFit(kinds, fields)
    ensures PutAll(kinds, fields, 0) ==
            BigEndian(|domain|, 4) + domain + (BigEndian(b.protocol, 4) +
            (BigEndian(|b.attempt|, 4) + b.attempt + (BigEndian(|b.primary|, 4) + b.primary +
            (BigEndian(|b.installation|, 4) + b.installation + (BigEndian(|b.node|, 4) + b.node +
            (BigEndian(b.generation, 8) + (BigEndian(|b.digest|, 4) + b.digest + [])))))))
  {
    assert PutAll(kinds, fields, 6) == BigEndian(b.generation, 8) + PutAll(kinds, fields, 7);
    assert PutAll(kinds, fields, 4) == LengthPrefixed(b.installation) + PutAll(kinds, fields, 5);
    assert PutAll(kinds, fields, 2) == LengthPrefixed(b.attempt) + PutAll(kinds, fields, 3);
  }

  /** Bytes that authenticate one binding authenticate no other. */
  lemma CanonicalBytesIdentifyBinding(a: Binding, b: Binding)
    requires ValidBinding(a) && ValidBinding(b)
    ensures Canonical(a).Some? && (Canonical(a) == Canonical(b) <==> a == b)
  {
    BindingFits(a);
    BindingFits(b);
    AllReadBack(BindingLayout(), BindingFields(DOMAIN, a), 0, []);
    AllReadBack(BindingLayout(), BindingFields(DOMAIN, b), 0, []);
    if Canonical(a) == Canonical(b) {
      var x, y := BindingFields(DOMAIN, a), BindingFields(DOMAIN, b);
      assert x[0..] == x && y[0..] == y && x == y;
      assert x[1] == y[1] && x[2] == y[2] && x[3] == y[3] && x[4] == y[4] && x[5] == y[5] && x[6] == y[6] &&
             x[7] == y[7];
    }
  }

  // ---------------------------------------------------------------- the reader and the writer

  /** `bootstrapPlaintextReader`: each method reads one field at the offset and moves behind it. */
  class PlaintextReader {
    const value: Bytes
    var offset: nat

    ghost predicate Valid()
      reads this
    {
      offset <= |value|
    }

    ghost function Rest(): Bytes
      requires Valid()
      reads this
    {
      value[offset..]
    }

    constructor (value: Bytes)
      ensures Valid() && this.value == value && Rest() == value
    {
      this.value, offset := value, 0;
    }

    method Uint(width: nat) returns (r: Option<nat>)
      requires Valid()
      modifies this
      ensures Valid()
      ensures ReadField(Num(width), old(Rest())) == if r.None? then None else Some(Read(Value(r.value), Rest()))
    {
      if |value| - offset < width {
        return None;
      }
      ghost var before := value[offset..];
      r := Some(Number(value[offset..offset + width]));
      assert before[..width] == value[offset..offset + width] && before[width..] == value[offset + width..];
      offset := offset + width;
    }

    method Fixed(size: nat) returns (r: Option<Bytes>)
      requires Valid()
      modifies this
      ensures Valid()
      ensures ReadField(Raw(size), old(Rest())) == if r.None? then None else Some(Read(Data(r.value), Rest()))
    {
      if |value| - offset < size {
        return None;
      }
      ghost var before := value[offset..];
      r := Some(value[offset..offset + size]);
      assert before[..size] == value[offset..offset + size] && before[size..] == value[offset + size..];
      offset := offset + size;
    }

    method Identifier() returns (r: Option<Bytes>)
      requires Valid()
      modifies this
      ensures Valid()
      ensures ReadField(IDENTIFIER, old(Rest())) == if r.None? then None else Some(Read(Data(r.value), Rest()))
    {
      TextAhead(Rest());
      var length := Uint(4);
      if length.None? || length.value == 0 || length.value > MAX_TEXT {
        return None;
      }
      r := Fixed(length.value);
      if r.Some? && !ValidIdentifier(r.value) {
        r := None;
      }
    }

    method Done() returns (done: bool)
      requires Valid()
      ensures done <==> Rest() == []
    {
      done := offset == |value|;
    }
  }

  /** Looking at the length before the text refuses nothing that the text's own test would accept. */
  lemma TextAhead(s: Bytes)
    ensures ReadField(IDENTIFIER, s) ==
            match ReadNumber(s, 4)
            case None => None
            case Some(length) =>
              if length.got == 0 || length.got > MAX_TEXT then None
              else match ReadRaw(length.rest, length.got)
                case None => None
                case Some(text) => if ValidIdentifier(text.got) then Some(Read(Data(text.got), text.rest)) else None
  {
  }

  /** Having read `seen`, what the rest gives completes the reading of the whole value. */
  ghost predicate Reading(kinds: seq<Kind>, value: Bytes, seen: seq<Field>, rest: Bytes) {
    |seen| <= |kinds| && ReadAll(kinds, 0, value) == Push(seen, ReadAll(kinds, |seen|, rest))
  }

  lemma ReadingStarts(kinds: seq<Kind>, value: Bytes)
    ensures Reading(kinds, value, [], value)
  {
    var r := ReadAll(kinds, 0, value);
    assert r.Some? ==> [] + r.value.got == r.value.got;
  }

  lemma ReadingSteps(kinds: seq<Kind>, value: Bytes, seen: seq<Field>, rest: Bytes)
    requires Reading(kinds, value, seen, rest) && |seen| < |kinds|
    ensures ReadField(kinds[|seen|], rest).None? ==> ReadAll(kinds, 0, value).None?
    ensures ReadField(kinds[|seen|], rest).Some? ==>
              Reading(kinds, value, seen + [ReadField(kinds[|seen|], rest).value.got],
                      ReadField(kinds[|seen|], rest).value.rest)
  {
    var next := ReadField(kinds[|seen|], rest);
    if next.Some? {
      var tail := ReadAll(kinds, |seen| + 1, next.value.rest);
      if tail.Some? {
        assert seen + ([next.value.got] + tail.value.got) == seen + [next.value.got] + tail.value.got;
      }
    }
  }

  lemma ReadingEnds(kinds: seq<Kind>, value: Bytes, seen: seq<Field>, rest: Bytes)
    requires Reading(kinds, value, seen, rest) && |seen| == |kinds|
    ensures ReadAll(kinds, 0, value) == Some(Read(seen, rest))
  {
    assert seen + [] == seen;
  }

  method DecodeBootstrapGrantPlaintext(plaintext: Bytes) returns (r: Option<Grant>)
    ensures r == Decode(plaintext)
  {
    if |plaintext| < MIN_BYTES || |plaintext| > MAX_BYTES {
      return None;
    }
    var version, g, done, fields := ReadGrant(plaintext, Layout());
    if g.None? || !done || version != PLAINTEXT_VERSION || g.value.expiresAt == 0 || g.value.expiresAt > MAX_INT64 ||
      !ValidGrant(g.value) {
      return None;
    }
    return g;
  }

  /** All twelve fields, put together, and whether they used up the plaintext. */
  method ReadGrant(plaintext: Bytes, ghost kinds: seq<Kind>)
    returns (version: nat, g: Option<Grant>, done: bool, ghost fields: Read<seq<Field>>)
    requires IsLayout(kinds)
    ensures g.None? ==> ReadAll(kinds, 0, plaintext).None?
    ensures g.Some? ==> ReadAll(kinds, 0, plaintext) == Some(fields) && (done <==> fields.rest == [])
    ensures g.Some? ==> Shaped(fields.got) && g.value == GrantOf(fields.got) && version == fields.got[0].n
  {
    var reader := new PlaintextReader(plaintext);
    ReadingStarts(kinds, plaintext);
    version, done, fields := 0, false, Read([], []);
    var head := ReadHead(reader, kinds);
    if head.None? { return 0, None, false, fields; }
    version := head.value.version;
    ghost var seen;
    g, seen := ReadNamesAndTail(reader, kinds, head.value);
    if g.Some? {
      ReadingEnds(kinds, plaintext, seen, reader.Rest());
      fields := Read(seen, reader.Rest());
      done := reader.Done();
    }
  }

  method ReadNamesAndTail(reader: PlaintextReader, ghost kinds: seq<Kind>, head: Head)
    returns (g: Option<Grant>, ghost seen: seq<Field>)
    requires reader.Valid() && IsLayout(kinds) && Reading(kinds, reader.value, HeadFields(head), reader.Rest())
    modifies reader
    ensures reader.Valid()
    ensures g.None? ==> ReadAll(kinds, 0, reader.value).None?
    ensures g.Some? ==> Reading(kinds, reader.value, seen, reader.Rest())
    ensures g.Some? ==> Shaped(seen) && g.value == GrantOf(seen) && seen[0].n == head.version
  {
    seen := HeadFields(head);
    var names := ReadNames(reader, kinds, seen);
    if names.None? { return None, []; }
    seen := seen + AllData(names.value);
    var generation, expiresAt := ReadTail(reader, kinds, seen);
    if expiresAt.None? { return None, []; }
    seen := seen + [Value(generation)] + [Value(expiresAt.value)];
    AssembledIsGrantOf(head, names.value, generation, expiresAt.value, seen);
    g := Some(Assembled(head, names.value, generation, expiresAt.value));
  }

  datatype Head = Head(version: nat, protocol: nat, credentialId: Bytes, credential: Bytes, clusterKeyId: Bytes,
                       clusterKek: Bytes)

  function HeadFields(h: Head): seq<Field> {
    [Value(h.version), Value(h.protocol), Data(h.credentialId), Data(h.credential), Data(h.clusterKeyId),
     Data(h.clusterKek)]
  }

  function Assembled(h: Head, names: seq<Bytes>, generation: nat, expiresAt: nat): Grant
    requires |names| == 4
  {
    Grant(h.protocol, h.credentialId, h.credential, h.clusterKeyId, h.clusterKek, names[0], names[1], names[2],
          names[3], generation, expiresAt)
  }

  lemma AssembledIsGrantOf(h: Head, names: seq<Bytes>, generation: nat, expiresAt: nat, fields: seq<Field>)
    requires |names| == 4 && fields == HeadFields(h) + AllData(names) + [Value(generation)] + [Value(expiresAt)]
    ensures Shaped(fields) && GrantOf(fields) == Assembled(h, names, generation, expiresAt) &&
            fields[0].n == h.version && fields[11].n == expiresAt
  {
  }

  method ReadHead(reader: PlaintextReader, ghost kinds: seq<Kind>) returns (r: Option<Head>)
    requires reader.Valid() && IsLayout(kinds) && Reading(kinds, reader.value, [], reader.Rest())
    modifies reader
    ensures reader.Valid()
    ensures r.Some? ==> Reading(kinds, reader.value, HeadFields(r.value), reader.Rest())
    ensures r.None? ==> ReadAll(kinds, 0, reader.value).None?
  {
    var version, protocol := ReadVersions(reader, kinds);
    if protocol.None? { return None; }
    ghost var seen := [Value(version), Value(protocol.value)];
    var credentialId, credential := ReadSecret(reader, kinds, seen);
    if credential.None? { return None; }
    seen := seen + [Data(credentialId), Data(credential.value)];
    var clusterKeyId, clusterKek := ReadSecret(reader, kinds, seen);
    if clusterKek.None? { return None; }
    r := Some(Head(version, protocol.value, credentialId, credential.value, clusterKeyId, clusterKek.value));
    assert HeadFields(r.value) == seen + [Data(clusterKeyId), Data(clusterKek.value)];
  }

  method ReadVersions(reader: PlaintextReader, ghost kinds: seq<Kind>) returns (version: nat, protocol: Option<nat>)
    requires reader.Valid() && IsLayout(kinds) && Reading(kinds, reader.value, [], reader.Rest())
    modifies reader
    ensures reader.Valid()
    ensures protocol.Some? ==> Reading(kinds, reader.value, [Value(version), Value(protocol.value)], reader.Rest())
    ensures protocol.None? ==> ReadAll(kinds, 0, reader.value).None?
  {
    ReadingSteps(kinds, reader.value, [], reader.Rest());
    var first := reader.Uint(4);
    if first.None? { return 0, None; }
    version := first.value;
    assert [] + [Value(version)] == [Value(version)];
    ReadingSteps(kinds, reader.value, [Value(version)], reader.Rest());
    protocol := reader.Uint(4);
    assert protocol.Some? ==> [Value(version)] + [Value(protocol.value)] == [Value(version), Value(protocol.value)];
  }

  /** An identifier and the secret it names. */
  method ReadSecret(reader: PlaintextReader, ghost kinds: seq<Kind>, ghost seen: seq<Field>)
    returns (id: Bytes, secret: Option<Bytes>)
    requires reader.Valid() && Reading(kinds, reader.value, seen, reader.Rest())
    requires |seen| + 1 < |kinds| && kinds[|seen|] == IDENTIFIER && kinds[|seen| + 1] == Raw(SECRET_BYTES)
    modifies reader
    ensures reader.Valid()
    ensures secret.Some? ==> Reading(kinds, reader.value, seen + [Data(id), Data(secret.value)], reader.Rest())
    ensures secret.None? ==> ReadAll(kinds, 0, reader.value).None?
  {
    ReadingSteps(kinds, reader.value, seen, reader.Rest());
    var name := reader.Identifier();
    if name.None? { return [], None; }
    id := name.value;
    ReadingSteps(kinds, reader.value, seen + [Data(id)], reader.Rest());
    secret := reader.Fixed(SECRET_BYTES);
    assert secret.Some? ==> seen + [Data(id)] + [Data(secret.value)] == seen + [Data(id), Data(secret.value)];
  }

  method ReadNames(reader: PlaintextReader, ghost kinds: seq<Kind>, ghost seen: seq<Field>)
    returns (r: Option<seq<Bytes>>)
    requires reader.Valid() && Reading(kinds, reader.value, seen, reader.Rest())
    requires |seen| + 4 <= |kinds| && forall k :: |seen| <= k < |seen| + 4 ==> kinds[k] == IDENTIFIER
    modifies reader
    ensures reader.Valid()
    ensures r.Some? ==> |r.value| == 4 && Reading(kinds, reader.value, seen + AllData(r.value), reader.Rest())
    ensures r.None? ==> ReadAll(kinds, 0, reader.value).None?
  {
    var values: seq<Bytes> := [];
    ghost var all := seen;
    for i := 0 to 4
      invariant |values| == i && |all| == |seen| + i && reader.Valid() &&
                Reading(kinds, reader.value, all, reader.Rest())
      invariant all == seen + AllData(values)
    {
      var next := ReadName(reader, kinds, all);
      if next.None? { return None; }
      AllDataGrows(seen, values, next.value);
      all := all + [Data(next.value)];
      values := values + [next.value];
    }
    return Some(values);
  }

  method ReadName(reader: PlaintextReader, ghost kinds: seq<Kind>, ghost seen: seq<Field>) returns (name: Option<Bytes>)
    requires reader.Valid() && Reading(kinds, reader.value, seen, reader.Rest()) && |seen| < |kinds| &&
             kinds[|seen|] == IDENTIFIER
    modifies reader
    ensures reader.Valid()
    ensures name.Some? ==> Reading(kinds, reader.value, seen + [Data(name.value)], reader.Rest())
    ensures name.None? ==> ReadAll(kinds, 0, reader.value).None?
  {
    ReadingSteps(kinds, reader.value, seen, reader.Rest());
    name := reader.Identifier();
  }

  lemma AllDataGrows(seen: seq<Field>, values: seq<Bytes>, next: Bytes)
    ensures seen + AllData(values + [next]) == seen + AllData(values) + [Data(next)]
  {
    assert (values + [next])[..|values|] == values;
  }

  method ReadTail(reader: PlaintextReader, ghost kinds: seq<Kind>, ghost seen: seq<Field>)
    returns (generation: nat, expiresAt: Option<nat>)
    requires reader.Valid() && Reading(kinds, reader.value, seen, reader.Rest())
    requires |seen| + 2 <= |kinds| && kinds[|seen|] == Num(8) && kinds[|seen| + 1] == Num(8)
    modifies reader
    ensures reader.Valid()
    ensures expiresAt.Some? ==>
            Reading(kinds, reader.value, seen + [Value(generation)] + [Value(expiresAt.value)], reader.Rest())
    ensures expiresAt.None? ==> ReadAll(kinds, 0, reader.value).None?
  {
    ReadingSteps(kinds, reader.value, seen, reader.Rest());
    var first := reader.Uint(8);
    if first.None? { return 0, None; }
    generation := first.value;
    ReadingSteps(kinds, reader.value, seen + [Value(generation)], reader.Rest());
    expiresAt := reader.Uint(8);
  }

  ghost function AllData(values: seq<Bytes>): (r: seq<Field>)
    ensures |r| == |values| && forall i :: 0 <= i < |r| ==> r[i] == Data(values[i])
  {
    if values == [] then [] else AllData(values[..|values| - 1]) + [Data(values[|values| - 1])]
  }

  method AppendLengthPrefixed(dst: Bytes, value: Bytes) returns (r: Bytes)
    ensures r == dst + LengthPrefixed(value)
  {
    var length := BigEndian(|value|, 4);
    r := dst + length + value;
  }

  /** Everything from field `i` on is still to be appended. */
  ghost predicate Pending(kinds: seq<Kind>, fields: seq<Field>, i: nat, before: Bytes, whole: Bytes) {
    AllFit(kinds, fields) && i <= |kinds| && before + PutAll(kinds, fields, i) == whole
  }

  lemma PendingStarts(kinds: seq<Kind>, fields: seq<Field>)
    requires AllFit(kinds, fields)
    ensures Pending(kinds, fields, 0, [], PutAll(kinds, fields, 0))
  {
    assert [] + PutAll(kinds, fields, 0) == PutAll(kinds, fields, 0);
  }

  lemma PendingSteps(kinds: seq<Kind>, fields: seq<Field>, i: nat, before: Bytes, whole: Bytes)
    requires Pending(kinds, fields, i, before, whole) && i < |kinds|
    ensures Pending(kinds, fields, i + 1, before + PutField(kinds[i], fields[i]), whole)
  {
    Assoc(before, PutField(kinds[i], fields[i]), PutAll(kinds, fields, i + 1));
  }

  lemma PendingEnds(kinds: seq<Kind>, fields: seq<Field>, before: Bytes, whole: Bytes)
    requires Pending(kinds, fields, |kinds|, before, whole)
    ensures before == whole
  {
    assert before + [] == before;
  }

  method AppendNumber(before: Bytes, n: nat, width: nat, ghost kinds: seq<Kind>, ghost fields: seq<Field>,
                      ghost i: nat, ghost whole: Bytes)
    returns (result: Bytes)
    requires AllFit(kinds, fields) && i < |kinds| && kinds[i] == Num(width) && fields[i] == Value(n)
    requires Pending(kinds, fields, i, before, whole)
    ensures Pending(kinds, fields, i + 1, result, whole)
  {
    PendingSteps(kinds, fields, i, before, whole);
    result := before + BigEndian(n, width);
  }

  method AppendText(before: Bytes, text: Bytes, ghost kinds: seq<Kind>, ghost fields: seq<Field>, ghost i: nat,
                    ghost whole: Bytes)
    returns (result: Bytes)
    requires AllFit(kinds, fields) && i < |kinds| && kinds[i].Text? && fields[i] == Data(text)
    requires Pending(kinds, fields, i, before, whole)
    ensures Pending(kinds, fields, i + 1, result, whole)
  {
    PendingSteps(kinds, fields, i, before, whole);
    result := AppendLengthPrefixed(before, text);
  }

  method AppendSecret(before: Bytes, id: Bytes, secret: Bytes, ghost kinds: seq<Kind>, ghost fields: seq<Field>,
                      ghost i: nat, ghost whole: Bytes)
    returns (result: Bytes)
    requires AllFit(kinds, fields) && i + 1 < |kinds| && kinds[i].Text? && kinds[i + 1] == Raw(SECRET_BYTES)
    requires fields[i] == Data(id) && fields[i + 1] == Data(secret) && Pending(kinds, fields, i, before, whole)
    ensures Pending(kinds, fields, i + 2, result, whole)
  {
    result := AppendText(before, id, kinds, fields, i, whole);
    PendingSteps(kinds, fields, i + 1, result, whole);
    result := result + secret;
  }

  method AppendTexts(before: Bytes, values: seq<Bytes>, ghost kinds: seq<Kind>, ghost fields: seq<Field>, ghost i: nat,
                     ghost whole: Bytes)
    returns (result: Bytes)
    requires AllFit(kinds, fields) && i + |values| <= |kinds| && Pending(kinds, fields, i, before, whole)
    requires forall k :: 0 <= k < |values| ==> kinds[i + k].Text? && fields[i + k] == Data(values[k])
    ensures Pending(kinds, fields, i + |values|, result, whole)
  {
    result := before;
    for k := 0 to |values|
      invariant Pending(kinds, fields, i + k, result, whole)
    {
      result := AppendText(result, values[k], kinds, fields, i + k, whole);
    }
  }

  method EncodeBootstrapGrantPlaintext(g: Grant) returns (r: Option<Bytes>)
    ensures r == Encode(g)
  {
    if !ValidGrant(g) {
      return None;
    }
    GrantFits(g);
    EncodingIsWithinLimits(g);
    PendingStarts(Layout(), FieldsOf(g));
    var result := EncodeFields(g, Layout(), FieldsOf(g), PutAll(Layout(), FieldsOf(g), 0));
    if |result| < MIN_BYTES || |result| > MAX_BYTES {
      return None;
    }
    return Some(result);
  }

  method EncodeFields(g: Grant, ghost kinds: seq<Kind>, ghost fields: seq<Field>, ghost whole: Bytes)
    returns (result: Bytes)
    requires IsLayout(kinds) && fields == FieldsOf(g) && AllFit(kinds, fields) && Pending(kinds, fields, 0, [], whole)
    ensures result == whole
  {
    result := EncodeHead(g, kinds, fields, whole);
    result := AppendTexts(result, [g.primary, g.installation, g.node, g.attempt], kinds, fields, 6, whole);
    result := AppendNumber(result, g.generation, 8, kinds, fields, 10, whole);
    result := AppendNumber(result, g.expiresAt, 8, kinds, fields, 11, whole);
    PendingEnds(kinds, fields, result, whole);
  }

  method EncodeHead(g: Grant, ghost kinds: seq<Kind>, ghost fields: seq<Field>, ghost whole: Bytes)
    returns (result: Bytes)
    requires IsLayout(kinds) && fields == FieldsOf(g) && AllFit(kinds, fields) && Pending(kinds, fields, 0, [], whole)
    ensures Pending(kinds, fields, 6, result, whole)
  {
    result := AppendNumber([], PLAINTEXT_VERSION, 4, kinds, fields, 0, whole);
    result := AppendNumber(result, g.protocol, 4, kinds, fields, 1, whole);
    result := AppendSecret(result, g.credentialId, g.credential, kinds, fields, 2, whole);
    result := AppendSecret(result, g.clusterKeyId, g.clusterKek, kinds, fields, 4, whole);
  }

  method CanonicalBytes(b: Binding) returns (r: Option<Bytes>)
    ensures r == Canonical(b)
  {
    if !ValidBinding(b) {
      return None;
    }
    BindingFits(b);
    PendingStarts(BindingLayout(), BindingFields(DOMAIN, b));
    var result :=
      EncodeBinding(DOMAIN, b, BindingLayout(), BindingFields(DOMAIN, b),
                    PutAll(BindingLayout(), BindingFields(DOMAIN, b), 0));
    return Some(result);
  }

  method EncodeBinding(domain: Bytes, b: Binding, ghost kinds: seq<Kind>, ghost fields: seq<Field>, ghost whole: Bytes)
    returns (result: Bytes)
    requires IsBindingLayout(kinds) && fields == BindingFields(domain, b) && AllFit(kinds, fields) &&
             Pending(kinds, fields, 0, [], whole)
    ensures result == whole
  {
    result := AppendText([], domain, kinds, fields, 0, whole);
    result := AppendNumber(result, b.protocol, 4, kinds, fields, 1, whole);
    result := EncodeBindingTail(b, result, kinds, fields, whole);
  }

  method EncodeBindingTail(b: Binding, before: Bytes, ghost kinds: seq<Kind>, ghost fields: seq<Field>,
                           ghost whole: Bytes) returns (result: Bytes)
    requires IsBindingLayout(kinds) && Pending(kinds, fields, 2, before, whole)
    requires fields[2] == Data(b.attempt) && fields[3] == Data(b.primary) && fields[4] == Data(b.installation)
    requires fields[5] == Data(b.node) && fields[6] == Value(b.generation) && fields[7] == Data(b.digest)
    ensures result == whole
  {
    var values := [b.attempt, b.primary, b.installation, b.node];
    result := AppendTexts(before, values, kinds, fields, 2, whole);
    result := AppendNumber(result, b.generation, 8, kinds, fields, 6, whole);
    result := AppendText(result, b.digest, kinds, fields, 7, whole);
    PendingEnds(kinds, fields, result, whole);
  }
}
