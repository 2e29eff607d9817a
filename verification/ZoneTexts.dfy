/**
 * The texts inside a zone file and how a master-file reader understands them: owners expand to canonical
 * names, quoted text reads back, targets are absolute names.
 */
module ZoneTexts {
  import opened Options
  import opened DnsNames
  import opened Sequences
  import opened Numerals

  // ---------------------------------------------------------------- names inside a zone

  function CanonicalRecordName(name: string, zoneName: string): (r: Option<string>) {
    var zone, value := NormalizeDnsName(zoneName, false), Trim(name);
    if zone.None? then None
    else if value == "" || value == "@" then zone
    else
      var normalized := NormalizeDnsName(value, true);
      if normalized.None? then None else Some(Place(normalized.value, zone.value))
  }

  function Place(name: string, zone: string): string {
    if Within(name, zone) then name else name + ['.'] + zone
  }

  function OwnerName(name: string, zone: string): string {
    if name == zone then "@"
    else if EndsWith(name, ['.'] + zone) then name[..|name| - (|zone| + 1)]
    else name
  }

  /** How a master file reads an owner (section 5.1 of RFC 1035): `@` is the origin, a final dot makes a name
      absolute, any other name is relative to the origin. Names are given without their root dot. */
  function Expand(owner: string, origin: string): string {
    if owner == "@" then origin
    else if owner != [] && owner[|owner| - 1] == '.' then owner[..|owner| - 1]
    else owner + ['.'] + origin
  }

  predicate ProperLabels(name: string) {
    forall i :: 0 <= i < |Labels(name)| ==> LabelOk(Labels(name)[i]) || (i == 0 && Labels(name)[i] == "*")
  }

  predicate InZone(c: string, zone: string) {
    Within(c, zone) && ProperLabels(c)
  }

  lemma PlaceIsInZone(name: string, zone: string)
    requires Normal(zone, false) && Normal(name, true)
    ensures InZone(Place(name, zone), zone)
  {
    if !Within(name, zone) {
      LabelsOfConcat(name, zone);
      SuffixOf(name, zone);
    }
  }

  /** Label by label: the apex for `@` and for nothing, a name below the zone as it is, and any other name with the
      zone behind it. */
  lemma CanonicalLabels(name: string, zone: string)
    requires Normal(zone, false)
    ensures Trim(name) == "" || Trim(name) == "@" ==> CanonicalRecordName(name, zone) == Some(zone)
    ensures Trim(name) != "" && Trim(name) != "@" ==>
              (CanonicalRecordName(name, zone).Some? <==> NormalizeDnsName(Trim(name), true).Some?)
    ensures Trim(name) != "" && Trim(name) != "@" && NormalizeDnsName(Trim(name), true).Some? ==>
              var given, origin := Labels(NormalizeDnsName(Trim(name), true).value), Labels(zone);
              Labels(CanonicalRecordName(name, zone).value) ==
              if |given| >= |origin| && given[|given| - |origin|..] == origin then given else given + origin
  {
    NormalIsFixed(zone, false);
    if Trim(name) != "" && Trim(name) != "@" && NormalizeDnsName(Trim(name), true).Some? {
      var n := NormalizeDnsName(Trim(name), true).value;
      WithinIff(n, zone);
      LabelsOfConcat(n, zone);
    }
  }

  /** A canonical name lies in the zone, and its labels are proper ones. */
  lemma CanonicalIsInZone(name: string, zone: string)
    requires Normal(zone, false) && CanonicalRecordName(name, zone).Some?
    ensures InZone(CanonicalRecordName(name, zone).value, zone)
  {
    NormalIsFixed(zone, false);
    if CanonicalRecordName(name, zone) != Some(zone) {
      PlaceIsInZone(NormalizeDnsName(Trim(name), true).value, zone);
    }
  }

  lemma NotAt(name: string)
    requires Labels(name)[0] != "@"
    ensures name != "@"
  {
  }

  lemma OwnerExpands(c: string, zone: string)
    requires InZone(c, zone)
    ensures Expand(OwnerName(c, zone), zone) == c
    ensures OwnerName(c, zone) == "@" <==> c == zone
  {
    if c != zone {
      WithinSplits(c, zone);
      var owner := OwnerName(c, zone);
      assert owner == c[..|c| - |zone| - 1];
      forall i | 0 <= i < |Labels(owner)|
        ensures Labels(owner)[i] != [] && Labels(owner)[i] != "@"
      {
        assert Labels(owner)[i] == Labels(c)[i];
        assert !LabelOk("@");
      }
      NormalEnds(owner);
      NotAt(owner);
    }
  }

  /** Every name a record may be given: its rendered owner reads back as its canonical name. */
  lemma OwnerReadsBack(name: string, zone: string)
    requires Normal(zone, false) && CanonicalRecordName(name, zone).Some?
    ensures Expand(OwnerName(CanonicalRecordName(name, zone).value, zone), zone) == CanonicalRecordName(name,
                                                                                                        zone).value
  {
    CanonicalIsInZone(name, zone);
    OwnerExpands(CanonicalRecordName(name, zone).value, zone);
  }

  lemma {:induction false} LabelsNeedRoom(name: string)
    requires forall i :: 1 <= i < |Labels(name)| ==> Labels(name)[i] != []
    ensures |name| >= |Labels(name)[0]| + 2 * (|Labels(name)| - 1)
  {
    if name != [] {
      var r := Labels(name[1..]);
      forall i | 1 <= i < |r|
        ensures r[i] != []
      {
        assert name[0] == '.' ==> Labels(name)[i + 1] == r[i];
        assert name[0] != '.' ==> Labels(name)[i] == r[i];
      }
      LabelsNeedRoom(name[1..]);
      assert name[0] == '.' ==> Labels(name)[1] == r[0];
    }
  }

  /** The length limit is not checked again once the zone is appended, and nothing else can go wrong: a canonical
      name is a valid DNS name exactly when it has at most 253 characters. */
  lemma CanonicalIsValidIff(name: string, zone: string)
    requires Normal(zone, false) && CanonicalRecordName(name, zone).Some?
    ensures Normal(CanonicalRecordName(name, zone).value, true) <==> |CanonicalRecordName(name, zone).value| <= 253
  {
    CanonicalIsInZone(name, zone);
    LabelsNeedRoom(CanonicalRecordName(name, zone).value);
  }

  // ---------------------------------------------------------------- quoted text

  /** `replaceAll(c, "\" + c)`. */
  function Backslashed(s: string, c: char): string {
    if s == [] then [] else (if s[0] == c then ['\\', c] else [s[0]]) + Backslashed(s[1..], c)
  }

  function RenderText(s: string): string {
    ['"'] + Backslashed(Backslashed(s, '\\'), '"') + ['"']
  }

  /** What a master-file reader makes of the characters behind an opening quote, and what it leaves: `\X` is X,
      `\DDD` is the octet with that decimal number. */
  function Unquote(s: string): Option<(string, string)>
    decreases |s|
  {
    if s == [] then None
    else if s[0] == '"' then Some(([], s[1..]))
    else if s[0] != '\\' then Push(s[0], Unquote(s[1..]))
    else if |s| < 2 then None
    else if !IsDigit(s[1]) then Push(s[1], Unquote(s[2..]))
    else if |s| >= 4 && IsDigit(s[2]) && IsDigit(s[3])
    then Push(Octet(s[1], s[2], s[3]), Unquote(s[4..]))
    else None
  }

  function Octet(a: char, b: char, c: char): char
    requires IsDigit(a) && IsDigit(b) && IsDigit(c)
  {
    (((a as int - 48) * 100 + (b as int - 48) * 10 + (c as int - 48)) % 256) as char
  }

  function Push(c: char, rest: Option<(string, string)>): Option<(string, string)> {
    if rest.None? then None else Some(([c] + rest.value.0, rest.value.1))
  }

  lemma {:induction false} BackslashedConcat(a: string, b: string, c: char)
    ensures Backslashed(a + b, c) == Backslashed(a, c) + Backslashed(b, c)
  {
    if a == [] {
      assert a + b == b;
    } else {
      assert (a + b)[1..] == a[1..] + b;
      BackslashedConcat(a[1..], b, c);
    }
  }

  /** The two passes together escape one character at a time. */
  function Quoted(c: char): string {
    if c == '\\' || c == '"' then ['\\', c] else [c]
  }

  /** The escaped text in front of the closing quote and `rest`. */
  function OnePass(s: string, rest: string): string {
    if s == [] then ['"'] + rest else Quoted(s[0]) + OnePass(s[1..], rest)
  }

  lemma QuotedInTwoPasses(c: char)
    ensures Backslashed(Backslashed([c], '\\'), '"') == Quoted(c)
  {
    assert [c][1..] == [];
    assert Backslashed([c], '\\') == (if c == '\\' then ['\\', c] else [c]) + [];
    if c == '\\' {
      BackslashedConcat(['\\'], ['\\'], '"');
      assert ['\\'][1..] == [] && ['\\', '\\'] == ['\\'] + ['\\'];
      assert Backslashed(['\\'], '"') == ['\\'] + [];
    } else {
      assert Backslashed([c], '"') == (if c == '"' then ['\\', '"'] else [c]) + [];
    }
  }

  lemma EscapedHead(s: string)
    requires s != []
    ensures Backslashed(Backslashed(s, '\\'), '"') == Quoted(s[0]) + Backslashed(Backslashed(s[1..], '\\'), '"')
  {
    QuotedInTwoPasses(s[0]);
    assert s == [s[0]] + s[1..];
    BackslashedConcat([s[0]], s[1..], '\\');
    BackslashedConcat(Backslashed([s[0]], '\\'), Backslashed(s[1..], '\\'), '"');
  }

  lemma {:induction false} TwoPasses(s: string, rest: string)
    ensures Backslashed(Backslashed(s, '\\'), '"') + (['"'] + rest) == OnePass(s, rest)
  {
    if s == [] {
      assert [] + (['"'] + rest) == ['"'] + rest;
    } else {
      TwoPasses(s[1..], rest);
      EscapedHead(s);
      Assoc(Quoted(s[0]), Backslashed(Backslashed(s[1..], '\\'), '"'), ['"'] + rest);
    }
  }

  lemma UnquoteOne(c: char, rest: string)
    ensures Unquote(Quoted(c) + rest) == Push(c, Unquote(rest))
  {
    var all := Quoted(c) + rest;
    assert all[|Quoted(c)|..] == rest;
  }

  lemma {:induction false} OnePassReadsBack(s: string, rest: string)
    ensures Unquote(OnePass(s, rest)) == Some((s, rest))
  {
    if s == [] {
      assert (['"'] + rest)[1..] == rest;
    } else {
      OnePassReadsBack(s[1..], rest);
      UnquoteOne(s[0], OnePass(s[1..], rest));
      assert s == [s[0]] + s[1..];
    }
  }

  /** TXT data of any content is read back unchanged, whatever follows it on the line. */
  lemma TextReadsBack(s: string, rest: string)
    ensures (RenderText(s) + rest)[0] == '"' && Unquote((RenderText(s) + rest)[1..]) == Some((s, rest))
  {
    TwoPasses(s, rest);
    OnePassReadsBack(s, rest);
    QuoteInFront(Backslashed(Backslashed(s, '\\'), '"'), rest);
  }

  lemma QuoteInFront(e: string, rest: string)
    ensures (['"'] + e + ['"'] + rest)[0] == '"' && (['"'] + e + ['"'] + rest)[1..] == e + (['"'] + rest)
  {
  }

  // ---------------------------------------------------------------- targets of aliases, mail and services

  function EnsureFqdn(value: string): string {
    if value != [] && value[|value| - 1] == '.' then value else value + ['.']
  }

  lemma {:induction false} DropDotsShrinks(s: string)
    ensures |DropDots(s)| <= |s| && (s != [] && s[|s| - 1] == '.' ==> |DropDots(s)| < |s|)
    ensures |s| >= 2 && s[|s| - 2..] == ".." ==> |DropDots(s)| <= |s| - 2
  {
    if s != [] && s[|s| - 1] == '.' {
      DropDotsShrinks(s[..|s| - 1]);
    }
  }

  lemma {:induction false} TrimEndIsPrefix(s: string)
    ensures |TrimEnd(s)| <= |s| && TrimEnd(s) == s[..|TrimEnd(s)|]
  {
    if s != [] && Space(s[|s| - 1]) {
      TrimEndIsPrefix(s[..|s| - 1]);
    }
  }

  lemma {:induction false} TrimStartIsSuffix(s: string)
    ensures |TrimStart(s)| <= |s| && TrimStart(s) == s[|s| - |TrimStart(s)|..]
  {
    if s != [] && Space(s[0]) {
      TrimStartIsSuffix(s[1..]);
    }
  }

  lemma TrimShrinks(s: string)
    ensures |Trim(s)| <= |s| && (|Trim(s)| == |s| ==> Trim(s) == s)
    ensures Trim(s) != [] && s[|s| - 1] == '.' ==> Trim(s)[|Trim(s)| - 1] == '.'
  {
    TrimStartIsSuffix(s);
    TrimEndIsPrefix(TrimStart(s));
    if Trim(s) != [] && s[|s| - 1] == '.' {
      assert TrimStart(s)[|TrimStart(s)| - 1] == '.';
    }
  }

  lemma {:induction false} DropDotsLeavesDots(s: string)
    ensures |DropDots(s)| <= |s| && DropDots(s) == s[..|DropDots(s)|] && forall k :: |DropDots(s)| <= k < |s| ==>
            s[k] == '.'
  {
    if s != [] && s[|s| - 1] == '.' {
      DropDotsLeavesDots(s[..|s| - 1]);
    }
  }

  /** No blank is left inside a target that was accepted without trimming. */
  lemma TargetHasNoSpace(x: string)
    requires NormalizeDnsName(x, true).Some? && Trim(x) == x
    ensures forall k :: 0 <= k < |x| ==> !Space(x[k])
  {
    var name := NormalizeDnsName(x, true).value;
    NormalChars(name, true);
    DropDotsLeavesDots(x);
    forall k | 0 <= k < |x|
      ensures !Space(x[k])
    {
      if k < |DropDots(x)| {
        assert name[k] == LowerChar(x[k]);
      }
    }
  }

  /** A target is checked in normalised form but rendered as typed. The rendered target is the name that was checked
      exactly when nothing was trimmed and at most one dot was dropped. */
  lemma TargetReadsBackIff(value: string)
    requires NormalizeDnsName(value, true).Some?
    ensures Lower(EnsureFqdn(value)) == NormalizeDnsName(value, true).value + ['.'] <==>
            Trim(value) == value && !EndsWith(value, "..")
  {
    var trimmed := Trim(value);
    assert DropDots(trimmed) != [];
    DropDotsShrinks(trimmed);
    if trimmed == value && !EndsWith(value, "..") {
      PlainTargetReadsBack(value);
    } else {
      OddTargetIsLonger(value);
      assert |Lower(EnsureFqdn(value))| > |Lower(DropDots(trimmed)) + ['.']|;
    }
  }

  lemma LowerThenDot(s: string)
    ensures Lower(s + ['.']) == Lower(s) + ['.']
  {
    var x, y := Lower(s + ['.']), Lower(s) + ['.'];
    assert |x| == |y|;
    assert forall i :: 0 <= i < |s| ==> x[i] == LowerChar(s[i]) == y[i];
    assert x[|s|] == y[|s|];
  }

  lemma PlainTargetReadsBack(value: string)
    requires value != [] && !EndsWith(value, "..")
    ensures Lower(EnsureFqdn(value)) == Lower(DropDots(value)) + ['.']
  {
    if value[|value| - 1] == '.' {
      var front := value[..|value| - 1];
      assert |value| >= 2 ==> value[|value| - 2..] == [value[|value| - 2], '.'];
      assert DropDots(value) == DropDots(front) == front;
      assert value == front + ['.'];
      LowerThenDot(front);
    } else {
      LowerThenDot(value);
    }
  }

  lemma OddTargetIsLonger(value: string)
    requires Trim(value) != [] && (Trim(value) != value || EndsWith(value, ".."))
    ensures |EnsureFqdn(value)| > |DropDots(Trim(value))| + 1
  {
    TrimShrinks(value);
    DropDotsShrinks(Trim(value));
    if Trim(value) == value {
      assert value[|value| - 1] == value[|value| - 2..][1];
    }
  }

  // ---------------------------------------------------------------- at concrete names

  /** A target typed with a blank behind it: accepted as `a`, rendered as another name. */
  lemma TrailingBlankChangesTheTarget()
    ensures NormalizeDnsName("a ", true) == Some(['a']) && Lower(EnsureFqdn("a ")) != ['a'] + ['.']
  {
    SingleLabel('a');
    assert Trim("a ") == ['a'] by { assert "a "[..1] == ['a']; }
    NormalIsFixed(['a'], true);
    assert |Lower(EnsureFqdn("a "))| == 3;
  }

  function Letters(n: nat): (r: string)
    ensures |r| == n && forall i :: 0 <= i < n ==> r[i] == 'a'
  {
    seq(n, _ => 'a')
  }

  /** Four labels: 63, 63, 63 and 61 letters, 253 characters with their dots. */
  function Longest(): string {
    Letters(63) + ['.'] + Letters(63) + ['.'] + Letters(63) + ['.'] + Letters(61)
  }

  lemma FourLabels(a: string, b: string, c: string, d: string)
    requires LabelOk(a) && LabelOk(b) && LabelOk(c) && LabelOk(d)
    ensures Labels(a + ['.'] + b + ['.'] + c + ['.'] + d) == [a, b, c, d]
  {
    DotlessIsOneLabel(a);
    DotlessIsOneLabel(b);
    DotlessIsOneLabel(c);
    DotlessIsOneLabel(d);
    LabelsOfConcat(a, b);
    LabelsOfConcat(a + ['.'] + b, c);
    LabelsOfConcat(a + ['.'] + b + ['.'] + c, d);
  }

  lemma LongestIsNormal()
    ensures |Longest()| == 253 && Normal(Longest(), true) && Longest()[252] == 'a'
  {
    var l, m := Letters(63), Letters(61);
    assert LabelOk(l) && LabelOk(m);
    FourLabels(l, l, l, m);
  }

  /** Any name of full length that does not lie in the zone is accepted, and its canonical name is too long. */
  lemma FullNameIsTooLong(name: string, zone: string)
    requires Normal(name, true) && |name| == 253 && Normal(zone, false) && !Within(name, zone) && name[252] != '.'
    ensures CanonicalRecordName(name, zone) == Some(name + ['.'] + zone) && !Normal(name + ['.'] + zone, true)
  {
    NormalIsFixed(zone, false);
    NormalIsFixed(name, true);
    NormalEnds(name);
    NormalChars(name, true);
    assert !Space(name[0]) && !Space(name[252]);
    assert Trim(name) == name;
  }

  /** The longest name in zone `b` is accepted, and its canonical name has 255 characters. */
  lemma CanonicalNameTooLong()
    ensures CanonicalRecordName(Longest(), ['b']) == Some(Longest() + ['.'] + ['b']) &&
            !Normal(Longest() + ['.'] + ['b'], true)
  {
    LongestIsNormal();
    SingleLabel('b');
    DifferentEnd(Longest());
    FullNameIsTooLong(Longest(), ['b']);
  }

  lemma DifferentEnd(name: string)
    requires |name| == 253 && name[252] == 'a'
    ensures !Within(name, ['b'])
  {
    assert name[251..][1] == 'a' && (['.'] + ['b'])[1] == 'b';
  }
}
