/**
 * DNS names as the panel accepts them: normalisation, the canonical name of a record inside its zone, and
 * the relation between string suffixes and label suffixes.
 */
module DnsNames {
  import opened Options

  const DEFAULT_TTL := 300

  // ---------------------------------------------------------------- labels

  /** `split(".")`. */
  function Labels(s: string): (r: seq<string>)
    ensures r != []
  {
    if s == [] then [[]]
    else
      var r := Labels(s[1..]);
      if s[0] == '.' then [[]] + r else [[s[0]] + r[0]] + r[1..]
  }

  lemma {:induction false} LabelsOfConcat(a: string, b: string)
    ensures Labels(a + ['.'] + b) == Labels(a) + Labels(b)
  {
    var s := a + ['.'] + b;
    if a == [] {
      assert s == ['.'] + b && s[1..] == b;
    } else {
      assert s[0] == a[0] && s[1..] == a[1..] + ['.'] + b;
      LabelsOfConcat(a[1..], b);
      HeadOfConcat(Labels(a[1..]), Labels(b));
    }
  }

  lemma HeadOfConcat(x: seq<string>, y: seq<string>)
    requires x != []
    ensures (x + y)[0] == x[0] && (x + y)[1..] == x[1..] + y
  {
  }

  predicate Alphanumeric(c: char) {
    'a' <= c <= 'z' || '0' <= c <= '9'
  }

  /** At most 63 letters, digits and inner hyphens. */
  predicate LabelOk(part: string) {
    && 1 <= |part| <= 63
    && Alphanumeric(part[0]) && Alphanumeric(part[|part| - 1])
    && forall i :: 0 <= i < |part| ==> Alphanumeric(part[i]) || part[i] == '-'
  }

  // ---------------------------------------------------------------- normalisation

  predicate Space(c: char) {
    '\t' <= c <= '\r' || c == ' ' || c == '\U{A0}' || c == '\U{1680}' || '\U{2000}' <= c <= '\U{200A}' ||
    c == '\U{2028}' || c == '\U{2029}' || c == '\U{202F}' || c == '\U{205F}' || c == '\U{3000}' || c == '\U{FEFF}'
  }

  function Trim(s: string): string {
    TrimEnd(TrimStart(s))
  }

  function TrimStart(s: string): string {
    if s != [] && Space(s[0]) then TrimStart(s[1..]) else s
  }

  function TrimEnd(s: string): string {
    if s != [] && Space(s[|s| - 1]) then TrimEnd(s[..|s| - 1]) else s
  }

  function DropDots(s: string): (r: string)
    ensures r != [] ==> r[|r| - 1] != '.'
  {
    if s != [] && s[|s| - 1] == '.' then DropDots(s[..|s| - 1]) else s
  }

  /** Lower case, as far as it can yield a label character; any other capital is refused as a label anyway. */
  function LowerChar(c: char): char {
    if 'A' <= c <= 'Z' then (c as int + 32) as char else if c == '\U{212A}' then 'k' else c
  }

  function Lower(s: string): (r: string)
    ensures |r| == |s| && forall i :: 0 <= i < |s| ==> r[i] == LowerChar(s[i])
  {
    if s == [] then [] else [LowerChar(s[0])] + Lower(s[1..])
  }

  /** A name in normal form. */
  predicate Normal(name: string, wildcard: bool) {
    && |name| <= 253 && |Labels(name)| <= 127
    && forall i :: 0 <= i < |Labels(name)| ==>
       LabelOk(Labels(name)[i]) || (wildcard && i == 0 && Labels(name)[i] == "*")
  }

  /** `normalizeDnsName`; an invalid name is an exception. */
  function NormalizeDnsName(value: string, wildcard: bool): (r: Option<string>)
    ensures r.Some? ==> Normal(r.value, wildcard)
  {
    var name := Lower(DropDots(Trim(value)));
    if name != [] && Normal(name, wildcard) then Some(name) else None
  }

  /** Every character of a dotted name belongs to one of its labels. */
  lemma {:induction false} CharOfLabel(s: string, k: nat)
    requires k < |s| && s[k] != '.'
    ensures exists i, p :: 0 <= i < |Labels(s)| && 0 <= p < |Labels(s)[i]| && Labels(s)[i][p] == s[k]
  {
    var r := Labels(s[1..]);
    if k == 0 {
      assert Labels(s)[0][0] == s[0];
    } else {
      CharOfLabel(s[1..], k - 1);
      var i, p :| 0 <= i < |r| && 0 <= p < |r[i]| && r[i][p] == s[k];
      if s[0] == '.' {
        assert Labels(s)[i + 1][p] == s[k];
      } else if i == 0 {
        assert Labels(s)[0][p + 1] == s[k];
      } else {
        assert Labels(s)[i][p] == s[k];
      }
    }
  }

  lemma SingleLabel(c: char)
    requires Alphanumeric(c)
    ensures Labels([c]) == [[c]] && Normal([c], false) && Normal([c], true)
  {
    assert [c][1..] == [] && Labels([]) == [[]];
    assert [c] + [] == [c] && [[c]] + [] == [[c]];
  }

  lemma {:induction false} DotlessIsOneLabel(s: string)
    requires forall i :: 0 <= i < |s| ==> s[i] != '.'
    ensures Labels(s) == [s]
  {
    if s != [] {
      DotlessIsOneLabel(s[1..]);
      assert [s[0]] + s[1..] == s;
    }
  }

  predicate NameChar(c: char) {
    Alphanumeric(c) || c == '-' || c == '.' || c == '*'
  }

  lemma NormalChars(name: string, wildcard: bool)
    requires Normal(name, wildcard)
    ensures forall k :: 0 <= k < |name| ==> NameChar(name[k])
  {
    forall k | 0 <= k < |name|
      ensures NameChar(name[k])
    {
      if name[k] != '.' {
        CharOfLabel(name, k);
        var i, p :| 0 <= i < |Labels(name)| && 0 <= p < |Labels(name)[i]| && Labels(name)[i][p] == name[k];
        assert LabelOk(Labels(name)[i]) || Labels(name)[i] == "*";
      }
    }
  }

  lemma {:induction false} FinalDotEmptiesLabel(s: string)
    requires s != [] && s[|s| - 1] == '.'
    ensures |Labels(s)| >= 2 && Labels(s)[|Labels(s)| - 1] == []
  {
    var rest := s[1..];
    var r := Labels(rest);
    if |s| == 1 {
      assert rest == [] && r == [[]];
      assert Labels(s) == [[]] + r;
    } else {
      assert rest[|rest| - 1] == '.';
      FinalDotEmptiesLabel(rest);
      assert Labels(s) == if s[0] == '.' then [[]] + r else [[s[0]] + r[0]] + r[1..];
    }
  }

  /** No label of a normal name is empty, so the name neither is empty nor starts nor ends with a dot. */
  lemma NormalEnds(name: string)
    requires forall i :: 0 <= i < |Labels(name)| ==> Labels(name)[i] != []
    ensures name != [] && name[0] != '.' && name[|name| - 1] != '.'
  {
    assert Labels(name)[0] != [];
    if name != [] && name[|name| - 1] == '.' {
      FinalDotEmptiesLabel(name);
    }
  }

  lemma LowerIsStable(s: string)
    requires forall k :: 0 <= k < |s| ==> NameChar(s[k])
    ensures Lower(s) == s
  {
  }

  /** Normalising is idempotent, and its results are exactly the names in normal form. */
  lemma NormalizeIsAProjection(name: string, wildcard: bool)
    ensures NormalizeDnsName(name, wildcard) == Some(name) <==> Normal(name, wildcard)
    ensures NormalizeDnsName(name, wildcard).Some? ==>
              NormalizeDnsName(NormalizeDnsName(name, wildcard).value, wildcard) == NormalizeDnsName(name, wildcard)
  {
    if Normal(name, wildcard) {
      NormalIsFixed(name, wildcard);
    }
    if NormalizeDnsName(name, wildcard).Some? {
      NormalIsFixed(NormalizeDnsName(name, wildcard).value, wildcard);
    }
  }

  lemma NormalIsFixed(name: string, wildcard: bool)
    requires Normal(name, wildcard)
    ensures NormalizeDnsName(name, wildcard) == Some(name)
  {
    NormalEnds(name);
    NormalChars(name, wildcard);
    assert !Space(name[0]) && !Space(name[|name| - 1]);
    LowerIsStable(name);
  }

  // ---------------------------------------------------------------- names as labels with dots between them

  function Joined(parts: seq<string>): string {
    if parts == [] then [] else if |parts| == 1 then parts[0] else parts[0] + ['.'] + Joined(parts[1..])
  }

  lemma {:induction false} JoinedLabels(s: string)
    ensures Joined(Labels(s)) == s
  {
    if s != [] {
      JoinedLabels(s[1..]);
      assert s == [s[0]] + s[1..];
      JoinedCons(s[0], Labels(s[1..]));
    }
  }

  lemma JoinedStep(first: string, rest: seq<string>)
    ensures Joined([first] + rest) == if rest == [] then first else first + ['.'] + Joined(rest)
  {
    assert ([first] + rest)[1..] == rest;
  }

  lemma JoinedCons(c: char, r: seq<string>)
    requires r != []
    ensures Joined([[]] + r) == ['.'] + Joined(r)
    ensures Joined([[c] + r[0]] + r[1..]) == [c] + Joined(r)
  {
    JoinedStep([], r);
    assert [] + ['.'] == ['.'];
    JoinedStep([c] + r[0], r[1..]);
    JoinedStep(r[0], r[1..]);
    assert [r[0]] + r[1..] == r;
    Assoc3([c], r[0], ['.'], Joined(r[1..]));
  }

  lemma Assoc3(a: string, b: string, c: string, d: string)
    ensures a + b + c + d == a + (b + c + d)
  {
  }

  lemma {:induction false} LabelsOfJoined(parts: seq<string>)
    requires parts != [] && forall l :: l in parts ==> '.' !in l
    ensures Labels(Joined(parts)) == parts
  {
    assert parts[0] in parts;
    DotlessIsOneLabel(parts[0]);
    if |parts| > 1 {
      LabelsOfJoined(parts[1..]);
      LabelsOfConcat(parts[0], Joined(parts[1..]));
    }
    assert parts == [parts[0]] + parts[1..];
  }

  /** One to 63 letters, digits and hyphens, with no hyphen at either end. */
  predicate ProperLabel(l: string) {
    1 <= |l| <= 63 && l[0] != '-' && l[|l| - 1] != '-' && forall c :: c in l ==>
      'a' <= c <= 'z' || '0' <= c <= '9' || c == '-'
  }

  /** Up to 253 characters: up to 127 proper labels, of which the first may be a wildcard. */
  ghost predicate WellFormed(name: string, wildcard: bool) {
    && |name| <= 253
    && exists parts :: 0 < |parts| <= 127 && name == Joined(parts) &&
         forall i :: 0 <= i < |parts| ==> ProperLabel(parts[i]) || (wildcard && i == 0 && parts[i] == "*")
  }

  lemma LabelOkIff(l: string)
    ensures LabelOk(l) <==> ProperLabel(l)
  {
    assert forall i :: 0 <= i < |l| ==> l[i] in l;
  }

  lemma NormalIff(name: string, wildcard: bool)
    ensures Normal(name, wildcard) <==> WellFormed(name, wildcard)
  {
    forall l: string
      ensures LabelOk(l) <==> ProperLabel(l)
    {
      LabelOkIff(l);
    }
    if Normal(name, wildcard) {
      JoinedLabels(name);
      assert name == Joined(Labels(name));
    }
    if WellFormed(name, wildcard) {
      var parts :| 0 < |parts| <= 127 && name == Joined(parts) &&
        forall i :: 0 <= i < |parts| ==> ProperLabel(parts[i]) || (wildcard && i == 0 && parts[i] == "*");
      LabelsOfJoined(parts);
    }
  }

  /** The same text but for capital letters, the Kelvin sign among them. */
  predicate SameButCase(typed: string, name: string) {
    && |typed| == |name|
    && forall i :: 0 <= i < |name| ==>
         || (typed[i] == name[i] && !('A' <= typed[i] <= 'Z') && typed[i] != '\U{212A}')
         || ('A' <= typed[i] <= 'Z' && name[i] as int - 'a' as int == typed[i] as int - 'A' as int)
         || (typed[i] == '\U{212A}' && name[i] == 'k')
  }

  predicate All(s: string, p: char -> bool) {
    forall i :: 0 <= i < |s| ==> p(s[i])
  }

  lemma {:induction false} TrimStartOf(blanks: string, rest: string)
    requires All(blanks, Space) && (rest == [] || !Space(rest[0]))
    ensures TrimStart(blanks + rest) == rest
  {
    if blanks == [] {
      assert blanks + rest == rest;
    } else {
      assert (blanks + rest)[1..] == blanks[1..] + rest;
      TrimStartOf(blanks[1..], rest);
    }
  }

  lemma {:induction false} TrimEndOf(front: string, blanks: string)
    requires All(blanks, Space) && (front == [] || !Space(front[|front| - 1]))
    ensures TrimEnd(front + blanks) == front
  {
    if blanks == [] {
      assert front + blanks == front;
    } else {
      assert (front + blanks)[..|front + blanks| - 1] == front + blanks[..|blanks| - 1];
      TrimEndOf(front, blanks[..|blanks| - 1]);
    }
  }

  lemma {:induction false} DropDotsOf(front: string, dots: string)
    requires (forall i :: 0 <= i < |dots| ==> dots[i] == '.') && (front == [] || front[|front| - 1] != '.')
    ensures DropDots(front + dots) == front
  {
    if dots == [] {
      assert front + dots == front;
    } else {
      assert (front + dots)[..|front + dots| - 1] == front + dots[..|dots| - 1];
      DropDotsOf(front, dots[..|dots| - 1]);
    }
  }

  lemma {:induction false} TrimStartSplits(s: string) returns (blanks: string)
    ensures s == blanks + TrimStart(s) && All(blanks, Space)
  {
    if s != [] && Space(s[0]) {
      var rest := TrimStartSplits(s[1..]);
      blanks := [s[0]] + rest;
      assert s == [s[0]] + s[1..];
    } else {
      blanks := [];
    }
  }

  lemma {:induction false} TrimEndSplits(s: string) returns (blanks: string)
    ensures s == TrimEnd(s) + blanks && All(blanks, Space)
  {
    if s != [] && Space(s[|s| - 1]) {
      var rest := TrimEndSplits(s[..|s| - 1]);
      blanks := rest + [s[|s| - 1]];
      assert s == s[..|s| - 1] + [s[|s| - 1]];
    } else {
      blanks := [];
    }
  }

  lemma {:induction false} DropDotsSplits(s: string) returns (dots: string)
    ensures s == DropDots(s) + dots && forall i :: 0 <= i < |dots| ==> dots[i] == '.'
  {
    if s != [] && s[|s| - 1] == '.' {
      var rest := DropDotsSplits(s[..|s| - 1]);
      dots := rest + ['.'];
      assert s == s[..|s| - 1] + [s[|s| - 1]];
    } else {
      dots := [];
    }
  }

  /** How a name may be typed: in any case, with dots behind it, and with white space around that. */
  ghost predicate TypedAs(value: string, name: string, before: string, typed: string, dots: string, behind: string) {
    && value == before + (typed + dots + behind) && All(before, Space) && All(behind, Space)
    && (forall i :: 0 <= i < |dots| ==> dots[i] == '.') && SameButCase(typed, name)
  }

  /** What is accepted, and as which name. */
  lemma NormalizeIff(value: string, wildcard: bool, name: string)
    ensures NormalizeDnsName(value, wildcard) == Some(name) <==>
            WellFormed(name, wildcard) &&
            exists before, typed, dots, behind :: TypedAs(value, name, before, typed, dots, behind)
  {
    NormalIff(name, wildcard);
    if NormalizeDnsName(value, wildcard) == Some(name) {
      var before := TrimStartSplits(value);
      var behind := TrimEndSplits(TrimStart(value));
      var dots := DropDotsSplits(Trim(value));
      assert TypedAs(value, name, before, DropDots(Trim(value)), dots, behind);
    }
    if WellFormed(name, wildcard) &&
       exists before, typed, dots, behind :: TypedAs(value, name, before, typed, dots, behind) {
      var before, typed, dots, behind :| TypedAs(value, name, before, typed, dots, behind);
      TypedIsNormalized(value, name, wildcard, before, typed, dots, behind);
    }
  }

  lemma TypedIsNormalized(value: string, name: string, wildcard: bool, before: string, typed: string, dots: string,
                          behind: string)
    requires Normal(name, wildcard) && TypedAs(value, name, before, typed, dots, behind)
    ensures NormalizeDnsName(value, wildcard) == Some(name)
  {
    NormalEnds(name);
    NormalChars(name, wildcard);
    TypedEnds(typed, name);
    StripsTo(before, typed, dots, behind);
    LowerIs(typed, name);
  }

  lemma TypedEnds(typed: string, name: string)
    requires SameButCase(typed, name) && name != [] && NameChar(name[0]) && NameChar(name[|name| - 1]) &&
             name[|name| - 1] != '.'
    ensures typed != [] && !Space(typed[0]) && !Space(typed[|typed| - 1]) && typed[|typed| - 1] != '.'
  {
  }

  lemma LowerIs(typed: string, name: string)
    requires SameButCase(typed, name)
    ensures Lower(typed) == name
  {
    assert forall i :: 0 <= i < |name| ==> LowerChar(typed[i]) == name[i];
  }

  lemma StripsTo(before: string, typed: string, dots: string, behind: string)
    requires All(before, Space) && All(behind, Space) && forall i :: 0 <= i < |dots| ==> dots[i] == '.'
    requires typed != [] && !Space(typed[0]) && !Space(typed[|typed| - 1]) && typed[|typed| - 1] != '.'
    ensures DropDots(Trim(before + (typed + dots + behind))) == typed
  {
    var middle := typed + dots;
    assert middle[0] == typed[0] && (dots != [] ==> middle[|middle| - 1] == dots[|dots| - 1]);
    TrimStartOf(before, middle + behind);
    TrimEndOf(middle, behind);
    DropDotsOf(typed, dots);
  }

  /** White space and line ends of ECMAScript (sections 12.2 and 12.3 of ECMA-262). */
  lemma SpaceIff(c: char)
    ensures Space(c) <==>
            c as int in {9, 10, 11, 12, 13, 0x20, 0xA0, 0x1680, 0x2000, 0x2001, 0x2002, 0x2003, 0x2004, 0x2005, 0x2006,
                         0x2007, 0x2008, 0x2009, 0x200A, 0x2028, 0x2029, 0x202F, 0x205F, 0x3000, 0xFEFF}
  {
  }

  // ---------------------------------------------------------------- suffixes

  predicate EndsWith(s: string, suffix: string) {
    |suffix| <= |s| && s[|s| - |suffix|..] == suffix
  }

  /** `name` is `suffix` or a name below it. */
  predicate Within(name: string, suffix: string) {
    name == suffix || EndsWith(name, ['.'] + suffix)
  }

  lemma SuffixOf(name: string, zone: string)
    ensures Within(name + ['.'] + zone, zone)
  {
    var longer := name + ['.'] + zone;
    assert longer[|longer| - |zone| - 1..] == ['.'] + zone;
  }

  lemma WithinSplits(name: string, suffix: string)
    requires Within(name, suffix) && name != suffix
    ensures |name| > |suffix| && name == name[..|name| - |suffix| - 1] + ['.'] + suffix
    ensures Labels(name) == Labels(name[..|name| - |suffix| - 1]) + Labels(suffix)
  {
    var n := |name| - |suffix| - 1;
    assert name == name[..n] + name[n..];
    assert name == name[..n] + ['.'] + suffix;
    LabelsOfConcat(name[..n], suffix);
  }

  lemma {:induction false} JoinedConcat(a: seq<string>, b: seq<string>)
    requires a != [] && b != []
    ensures Joined(a + b) == Joined(a) + ['.'] + Joined(b)
  {
    var c := a + b;
    if |a| == 1 {
      assert c[1..] == b;
    } else {
      assert c[1..] == a[1..] + b;
      JoinedConcat(a[1..], b);
    }
  }

  /** A name is a suffix or below it exactly when its labels end with the labels of the suffix. */
  lemma WithinIff(name: string, suffix: string)
    ensures Within(name, suffix) <==>
            |Labels(suffix)| <= |Labels(name)| &&
              Labels(name)[|Labels(name)| - |Labels(suffix)|..] == Labels(suffix)
  {
    if Within(name, suffix) && name != suffix {
      WithinSplits(name, suffix);
    }
    JoinedLabels(name);
    JoinedLabels(suffix);
    if |Labels(suffix)| <= |Labels(name)| && Labels(name)[|Labels(name)| - |Labels(suffix)|..] == Labels(suffix) {
      TailIsWithin(Labels(name), Labels(suffix));
    }
  }

  lemma TailIsWithin(l: seq<string>, m: seq<string>)
    requires m != [] && |m| <= |l| && l[|l| - |m|..] == m
    ensures Within(Joined(l), Joined(m))
  {
    var front := l[..|l| - |m|];
    assert l == front + m;
    if front == [] {
      assert l == m;
    } else {
      JoinedConcat(front, m);
      SuffixOf(Joined(front), Joined(m));
    }
  }

  /** Two suffixes of one name: the shorter string is a suffix of the longer and has fewer labels. */
  lemma SuffixesOfOneName(name: string, a: string, b: string)
    requires Within(name, a) && Within(name, b)
    ensures |a| == |b| <==> a == b
    ensures |a| < |b| <==> |Labels(a)| < |Labels(b)|
    ensures |a| <= |b| ==> Within(b, a)
  {
    if |a| < |b| {
      ShorterSuffix(name, a, b);
    } else if |b| < |a| {
      ShorterSuffix(name, b, a);
    } else {
      TailOfWithin(name, a);
      TailOfWithin(name, b);
    }
  }

  lemma TailOfWithin(name: string, a: string)
    requires Within(name, a)
    ensures |a| <= |name| && a == name[|name| - |a|..] && (|a| < |name| ==> name[|name| - |a| - 1] == '.')
  {
    if name != a {
      WithinSplits(name, a);
    }
  }

  lemma TailOfTail(name: string, a: string, b: string)
    requires |a| < |b| <= |name| && a == name[|name| - |a|..] && b == name[|name| - |b|..] &&
             name[|name| - |a| - 1] == '.'
    ensures EndsWith(b, ['.'] + a)
  {
    var n := |b| - |a| - 1;
    assert b[n] == name[|name| - |a| - 1] && b[n + 1..] == a;
  }

  lemma ShorterSuffix(name: string, a: string, b: string)
    requires Within(name, a) && Within(name, b) && |a| < |b|
    ensures Within(b, a) && |Labels(a)| < |Labels(b)|
  {
    TailOfWithin(name, a);
    TailOfWithin(name, b);
    TailOfTail(name, a, b);
    WithinSplits(b, a);
  }
}
