/**
 * The ustar archives that carry configuration into containers and back: building an archive from named
 * files, and taking the first regular file out of one.
 */
module Tar {
  import opened Options
  import opened Octets
  import opened Sequences

  const BLOCK := 512
  datatype Entry = Entry(name: Bytes, contents: Bytes)

  // ---------------------------------------------------------------- octal numbers

  predicate OctalDigit(b: byte) {
    0x30 <= b <= 0x37
  }

  predicate AllOctal(s: Bytes) {
    forall i :: 0 <= i < |s| ==> OctalDigit(s[i])
  }

  /** `toString(8)`. */
  function Octal(n: nat): (r: Bytes)
    ensures r != [] && AllOctal(r)
  {
    if n < 8 then [(0x30 + n) as byte] else Octal(n / 8) + [(0x30 + n % 8) as byte]
  }

  function Zeros(n: nat): (r: Bytes)
    ensures |r| == n && forall i :: 0 <= i < n ==> r[i] == 0
  {
    seq(n, _ => 0)
  }

  function PadStart(s: Bytes, width: nat): (r: Bytes)
    ensures |r| == if |s| < width then width else |s|
    ensures AllOctal(s) ==> AllOctal(r)
    decreases width - |s|
  {
    if |s| >= width then s else PadStart([0x30] + s, width)
  }

  /** `parseInt(text, 8)` of a run of octal digits. */
  function Value(s: Bytes): nat
    requires AllOctal(s)
  {
    if s == [] then 0 else 8 * Value(s[..|s| - 1]) + (s[|s| - 1] as nat - 0x30)
  }

  function Power8(k: nat): (p: nat)
    ensures p > 0
  {
    if k == 0 then 1 else 8 * Power8(k - 1)
  }

  lemma {:induction false} ValueOfOctal(n: nat)
    ensures Value(Octal(n)) == n
  {
    if n >= 8 {
      ValueOfOctal(n / 8);
      var s := Octal(n);
      assert s[..|s| - 1] == Octal(n / 8);
    } else {
      assert Octal(n)[..0] == [];
    }
  }

  lemma {:induction false} LeadingZero(s: Bytes)
    requires AllOctal(s)
    ensures Value([0x30] + s) == Value(s)
  {
    var t := [0x30] + s;
    if s == [] {
      assert t[..0] == [];
    } else {
      LeadingZero(s[..|s| - 1]);
      assert t[..|t| - 1] == [0x30] + s[..|s| - 1];
    }
  }

  lemma {:induction false} ValueOfPadded(s: Bytes, width: nat)
    requires AllOctal(s)
    ensures Value(PadStart(s, width)) == Value(s)
    decreases width - |s|
  {
    if |s| < width {
      LeadingZero(s);
      ValueOfPadded([0x30] + s, width);
    }
  }

  lemma {:induction false} DigitsNeeded(n: nat, k: nat)
    requires k > 0
    ensures |Octal(n)| <= k <==> n < Power8(k)
  {
    if n >= 8 && k > 1 {
      DigitsNeeded(n / 8, k - 1);
    } else if n >= 8 {
      assert |Octal(n / 8)| >= 1;
      assert Power8(1) == 8;
    } else {
      assert Power8(k) >= 8 by { PowerGrows(k); }
    }
  }

  lemma {:induction false} PowerGrows(k: nat)
    requires k > 0
    ensures Power8(k) >= 8
  {
    if k > 1 {
      PowerGrows(k - 1);
    }
  }

  /** Cutting digits off the end divides. */
  lemma {:induction false} PrefixIsSmaller(s: Bytes, k: nat)
    requires AllOctal(s) && k < |s|
    ensures Value(s) >= 8 * Value(s[..k])
    decreases |s|
  {
    var init := s[..|s| - 1];
    if k < |init| {
      PrefixIsSmaller(init, k);
      assert init[..k] == s[..k];
    }
  }

  // ---------------------------------------------------------------- headers

  function Written(h: Bytes, offset: nat, s: Bytes): (r: Bytes)
    requires offset + |s| <= |h|
    ensures |r| == |h|
  {
    h[..offset] + s + h[offset + |s|..]
  }

  function Truncated(s: Bytes, length: nat): (r: Bytes)
    ensures |r| <= length && |r| <= |s| && r == s[..|r|] && (|s| <= length ==> r == s)
  {
    if |s| <= length then s else s[..length]
  }

  /** What `writeTarOctal` puts into a field: as many digits as fit, and a NUL if there is room. */
  function OctalField(n: nat, length: nat): Bytes
    requires length > 0
  {
    Truncated(PadStart(Octal(n), length - 1) + [0], length)
  }

  const USTAR: Bytes := [0x75, 0x73, 0x74, 0x61, 0x72]
  const VERSION: Bytes := [0x30, 0x30]
  const ROOT: Bytes := [0x72, 0x6F, 0x6F, 0x74]
  const BLANKS: Bytes := [0x20, 0x20, 0x20, 0x20, 0x20, 0x20, 0x20, 0x20]

  lemma FieldFits(n: nat, length: nat)
    requires length > 0
    ensures |OctalField(n, length)| == length
  {
  }

  /** A write leaves every other range alone. */
  lemma WrittenElsewhere(h: Bytes, offset: nat, s: Bytes, from: nat, to: nat)
    requires offset + |s| <= |h| && from <= to <= |h| && (to <= offset || offset + |s| <= from)
    ensures Written(h, offset, s)[from..to] == h[from..to]
  {
    var w := Written(h, offset, s);
    assert forall i :: from <= i < to ==> w[i] == h[i];
  }

  lemma WrittenHere(h: Bytes, offset: nat, s: Bytes)
    requires offset + |s| <= |h|
    ensures Written(h, offset, s)[offset..offset + |s|] == s
  {
  }

  /** All fields up to the size. */
  function Front(e: Entry): (r: Bytes)
    ensures |r| == BLOCK
  {
    FieldFits(0x1A4, 8);
    FieldFits(0, 8);
    FieldFits(|e.contents|, 12);
    var h := Written(Zeros(BLOCK), 0, Truncated(e.name, 100));
    var h := Written(Written(Written(h, 100, OctalField(0x1A4, 8)), 108, OctalField(0, 8)), 116, OctalField(0, 8));
    Written(h, 124, OctalField(|e.contents|, 12))
  }

  /** The fields behind the size, with blanks for the checksum. */
  function Blanked(h: Bytes): (r: Bytes)
    requires |h| == BLOCK
    ensures |r| == BLOCK
  {
    FieldFits(0, 12);
    var h := Written(Written(h, 136, OctalField(0, 12)), 156, [0x30]);
    var h := Written(Written(h, 257, USTAR), 263, VERSION);
    Written(Written(Written(h, 265, ROOT), 297, ROOT), 148, BLANKS)
  }

  function Sum(h: Bytes): nat {
    if h == [] then 0 else Sum(h[..|h| - 1]) + h[|h| - 1] as nat
  }

  lemma {:induction false} SumIsSmall(h: Bytes)
    ensures Sum(h) <= 255 * |h|
  {
    if h != [] {
      SumIsSmall(h[..|h| - 1]);
    }
  }

  function ChecksumText(h: Bytes): Bytes {
    Truncated(PadStart(Octal(Sum(h)), 6), 6)
  }

  function Sealed(h: Bytes): (r: Bytes)
    requires |h| == BLOCK
    ensures |r| == BLOCK
  {
    Written(Written(Written(h, 148, ChecksumText(h)), 154, [0]), 155, [0x20])
  }

  function Header(e: Entry): (r: Bytes)
    ensures |r| == BLOCK
  {
    Sealed(Blanked(Front(e)))
  }

  lemma BlankedKeepsSize(h: Bytes)
    requires |h| == BLOCK
    ensures Blanked(h)[124..136] == h[124..136] && Blanked(h)[156] == 0x30
    ensures Blanked(h)[148..156] == BLANKS
  {
    FieldFits(0, 12);
    var a := Written(h, 136, OctalField(0, 12));
    WrittenElsewhere(h, 136, OctalField(0, 12), 124, 136);
    var b := Written(a, 156, [0x30]);
    WrittenElsewhere(a, 156, [0x30], 124, 136);
    WrittenHere(a, 156, [0x30]);
    assert b[156] == b[156..157][0];
    var c := Written(b, 257, USTAR);
    WrittenElsewhere(b, 257, USTAR, 124, 136);
    WrittenElsewhere(b, 257, USTAR, 156, 157);
    var d := Written(c, 263, VERSION);
    WrittenElsewhere(c, 263, VERSION, 124, 136);
    WrittenElsewhere(c, 263, VERSION, 156, 157);
    var e := Written(d, 265, ROOT);
    WrittenElsewhere(d, 265, ROOT, 124, 136);
    WrittenElsewhere(d, 265, ROOT, 156, 157);
    var f := Written(e, 297, ROOT);
    WrittenElsewhere(e, 297, ROOT, 124, 136);
    WrittenElsewhere(e, 297, ROOT, 156, 157);
    WrittenElsewhere(f, 148, BLANKS, 124, 136);
    WrittenElsewhere(f, 148, BLANKS, 156, 157);
    WrittenHere(f, 148, BLANKS);
    assert Blanked(h)[156] == Blanked(h)[156..157][0];
  }

  lemma SealedKeepsSize(h: Bytes)
    requires |h| == BLOCK
    ensures Sealed(h)[124..136] == h[124..136] && Sealed(h)[156] == h[156]
    ensures |ChecksumText(h)| == 6 && Sealed(h)[148..154] == ChecksumText(h)
  {
    ChecksumFits(h);
    var a := Written(h, 148, ChecksumText(h));
    WrittenElsewhere(h, 148, ChecksumText(h), 124, 136);
    WrittenElsewhere(h, 148, ChecksumText(h), 156, 157);
    WrittenHere(h, 148, ChecksumText(h));
    var b := Written(a, 154, [0]);
    WrittenElsewhere(a, 154, [0], 124, 136);
    WrittenElsewhere(a, 154, [0], 156, 157);
    WrittenElsewhere(a, 154, [0], 148, 154);
    WrittenElsewhere(b, 155, [0x20], 124, 136);
    WrittenElsewhere(b, 155, [0x20], 156, 157);
    WrittenElsewhere(b, 155, [0x20], 148, 154);
    assert Sealed(h)[156] == Sealed(h)[156..157][0] == h[156..157][0];
  }

  /** The sum of a header always fits its six digits. */
  lemma ChecksumFits(h: Bytes)
    requires |h| == BLOCK
    ensures |ChecksumText(h)| == 6 && AllOctal(ChecksumText(h)) && Value(ChecksumText(h)) == Sum(h)
  {
    SumIsSmall(h);
    PowerOfSix();
    DigitsNeeded(Sum(h), 6);
    ValueOfOctal(Sum(h));
    ValueOfPadded(Octal(Sum(h)), 6);
  }

  lemma PowerOfSix()
    ensures Power8(6) == 262144
  {
    assert Power8(1) == 8 && Power8(2) == 64 && Power8(3) == 512 && Power8(4) == 4096 && Power8(5) == 32768;
  }

  lemma HeaderFields(e: Entry)
    ensures Header(e)[124..136] == OctalField(|e.contents|, 12) && Header(e)[156] == 0x30
  {
    FieldFits(0x1A4, 8);
    FieldFits(0, 8);
    FieldFits(|e.contents|, 12);
    var h := Written(Zeros(BLOCK), 0, Truncated(e.name, 100));
    var front := Written(Written(Written(h, 100, OctalField(0x1A4, 8)), 108, OctalField(0, 8)), 116, OctalField(0, 8));
    WrittenHere(front, 124, OctalField(|e.contents|, 12));
    BlankedKeepsSize(Front(e));
    SealedKeepsSize(Blanked(Front(e)));
  }

  /** The checksum a reader finds is the sum of the header with its checksum field blank. */
  lemma ChecksumIsRight(e: Entry)
    ensures var blank := Blanked(Front(e));
            && blank[148..156] == BLANKS && AllOctal(Header(e)[148..154]) && Value(Header(e)[148..154]) == Sum(blank)
            && Header(e)[..148] == blank[..148] && Header(e)[156..] == blank[156..]
  {
    var blank := Blanked(Front(e));
    BlankedKeepsSize(Front(e));
    SealedKeepsSize(blank);
    ChecksumFits(blank);
    var a := Written(blank, 148, ChecksumText(blank));
    var b := Written(a, 154, [0]);
    WrittenElsewhere(blank, 148, ChecksumText(blank), 0, 148);
    WrittenElsewhere(blank, 148, ChecksumText(blank), 156, BLOCK);
    WrittenElsewhere(a, 154, [0], 0, 148);
    WrittenElsewhere(a, 154, [0], 156, BLOCK);
    WrittenElsewhere(b, 155, [0x20], 0, 148);
    WrittenElsewhere(b, 155, [0x20], 156, BLOCK);
    assert Header(e)[0..148] == blank[0..148] && Header(e)[156..BLOCK] == blank[156..BLOCK];
  }

  // ---------------------------------------------------------------- the header as a reader of the format sees it

  /** The byte at `k` after a write. */
  lemma WrittenAt(h: Bytes, offset: nat, s: Bytes, k: nat)
    requires offset + |s| <= |h| && k < |h|
    ensures Written(h, offset, s)[k] == if offset <= k < offset + |s| then s[k - offset] else h[k]
  {
  }

  function Padded0(n: nat, s: Bytes): (r: Bytes)
    ensures |r| == n + |s| && (forall i :: 0 <= i < n ==> r[i] == 0x30) && r[n..] == s
  {
    seq(n, _ => 0x30) + s
  }

  lemma {:induction false} PadStartIs(n: nat, s: Bytes, width: nat)
    requires n + |s| <= width
    ensures PadStart(Padded0(n, s), width) == Padded0(width - |s|, s)
    decreases width - n
  {
    if n + |s| < width {
      assert [0x30] + Padded0(n, s) == Padded0(n + 1, s);
      PadStartIs(n + 1, s, width);
    }
  }

  /** A number that fits is written with zeros in front and a NUL behind. */
  lemma OctalFieldIs(n: nat, length: nat)
    requires |Octal(n)| < length
    ensures OctalField(n, length) == Padded0(length - 1 - |Octal(n)|, Octal(n)) + [0]
  {
    assert Padded0(0, Octal(n)) == Octal(n);
    PadStartIs(0, Octal(n), length - 1);
  }

  lemma OctalConstants()
    ensures Octal(0) == [0x30] && Octal(0x1A4) == [0x36, 0x34, 0x34]
  {
    assert Octal(6) == [0x36] && Octal(52) == [0x36, 0x34];
  }

  /** The parts of the header before the checksum field. */
  lemma FrontIsUstar(e: Entry, k: nat)
    requires k < BLOCK
    ensures Front(e)[k] ==
            if k < 100 then (if k < |e.name| then e.name[k] else 0)
            else if k < 108 then OctalField(0x1A4, 8)[k - 100]
            else if k < 116 then OctalField(0, 8)[k - 108]
            else if k < 124 then OctalField(0, 8)[k - 116]
            else if k < 136 then OctalField(|e.contents|, 12)[k - 124]
            else 0
  {
    FieldFits(0x1A4, 8);
    FieldFits(0, 8);
    FieldFits(|e.contents|, 12);
    var a := Written(Zeros(BLOCK), 0, Truncated(e.name, 100));
    WrittenAt(Zeros(BLOCK), 0, Truncated(e.name, 100), k);
    var b := Written(a, 100, OctalField(0x1A4, 8));
    WrittenAt(a, 100, OctalField(0x1A4, 8), k);
    var c := Written(b, 108, OctalField(0, 8));
    WrittenAt(b, 108, OctalField(0, 8), k);
    var d := Written(c, 116, OctalField(0, 8));
    WrittenAt(c, 116, OctalField(0, 8), k);
    WrittenAt(d, 124, OctalField(|e.contents|, 12), k);
  }

  lemma BlankedIsUstar(h: Bytes, k: nat)
    requires |h| == BLOCK && k < BLOCK
    ensures Blanked(h)[k] ==
            if 136 <= k < 148 then OctalField(0, 12)[k - 136]
            else if 148 <= k < 156 then 0x20
            else if k == 156 then 0x30
            else if 257 <= k < 262 then USTAR[k - 257]
            else if 263 <= k < 265 then VERSION[k - 263]
            else if 265 <= k < 269 then ROOT[k - 265]
            else if 297 <= k < 301 then ROOT[k - 297]
            else h[k]
  {
    FieldFits(0, 12);
    var a := Written(h, 136, OctalField(0, 12));
    WrittenAt(h, 136, OctalField(0, 12), k);
    var b := Written(a, 156, [0x30]);
    WrittenAt(a, 156, [0x30], k);
    var c := Written(b, 257, USTAR);
    WrittenAt(b, 257, USTAR, k);
    var d := Written(c, 263, VERSION);
    WrittenAt(c, 263, VERSION, k);
    var e := Written(d, 265, ROOT);
    WrittenAt(d, 265, ROOT, k);
    var f := Written(e, 297, ROOT);
    WrittenAt(e, 297, ROOT, k);
    WrittenAt(f, 148, BLANKS, k);
  }

  lemma SealedIsUstar(h: Bytes, k: nat)
    requires |h| == BLOCK && k < BLOCK && !(148 <= k < 154)
    ensures Sealed(h)[k] == if k == 154 then 0 else if k == 155 then 0x20 else h[k]
  {
    ChecksumFits(h);
    var a := Written(h, 148, ChecksumText(h));
    WrittenAt(h, 148, ChecksumText(h), k);
    var b := Written(a, 154, [0]);
    WrittenAt(a, 154, [0], k);
    WrittenAt(b, 155, [0x20], k);
  }

  /** Every byte of a header but the checksum, at the offsets of the format (pax, "ustar Interchange Format", of
      POSIX.1): the name cut to its field, mode 644, user, group and time 0, a regular file, magic, version and
      owner. */
  lemma HeaderIsUstar(e: Entry, k: nat)
    requires k < BLOCK && !(124 <= k < 136) && !(148 <= k < 154)
    ensures Header(e)[k] ==
            if k < 100 then (if k < |e.name| then e.name[k] else 0)
            else if k in {107, 115, 123, 147} then 0
            else if k == 104 then 0x36
            else if k in {105, 106} then 0x34
            else if k < 148 then 0x30
            else if k == 155 then 0x20
            else if k == 156 then 0x30
            else if 257 <= k < 262 then [0x75, 0x73, 0x74, 0x61, 0x72][k - 257]
            else if 263 <= k < 265 then 0x30
            else if 265 <= k < 269 then [0x72, 0x6F, 0x6F, 0x74][k - 265]
            else if 297 <= k < 301 then [0x72, 0x6F, 0x6F, 0x74][k - 297]
            else 0
  {
    OctalConstants();
    OctalFieldIs(0x1A4, 8);
    OctalFieldIs(0, 8);
    OctalFieldIs(0, 12);
    FrontIsUstar(e, k);
    BlankedIsUstar(Front(e), k);
    SealedIsUstar(Blanked(Front(e)), k);
  }

  // ---------------------------------------------------------------- archives

  function Padding(size: nat): nat {
    (BLOCK - size % BLOCK) % BLOCK
  }

  /** One file: header, contents and padding. */
  function Packed(e: Entry): Bytes {
    Header(e) + e.contents + Zeros(Padding(|e.contents|))
  }

  function Blocks(entries: seq<Entry>): Bytes {
    if entries == [] then [] else Packed(entries[0]) + Blocks(entries[1..])
  }

  function Archive(entries: seq<Entry>): Bytes {
    Blocks(entries) + Zeros(1024)
  }

  lemma PackedIsWhole(e: Entry)
    ensures |Packed(e)| % BLOCK == 0
  {
    PaddedLength(Header(e), e.contents);
  }

  lemma PaddedLength(h: Bytes, c: Bytes)
    requires |h| == BLOCK
    ensures |h + c + Zeros(Padding(|c|))| % BLOCK == 0
  {
    var n := |c|;
    assert |h + c + Zeros(Padding(n))| == BLOCK + n + Padding(n);
    assert n % BLOCK == 0 ==> BLOCK + n + Padding(n) == BLOCK * (1 + n / BLOCK);
    assert n % BLOCK != 0 ==> BLOCK + n + Padding(n) == BLOCK * (2 + n / BLOCK);
  }

  lemma WholeAndWhole(a: nat, b: nat)
    requires a % BLOCK == 0 && b % BLOCK == 0
    ensures (a + b) % BLOCK == 0
  {
  }

  lemma {:induction false} BlocksAreWhole(entries: seq<Entry>)
    ensures |Blocks(entries)| % BLOCK == 0
  {
    if entries != [] {
      BlocksAreWhole(entries[1..]);
      PackedIsWhole(entries[0]);
      WholeAndWhole(|Packed(entries[0])|, |Blocks(entries[1..])|);
    }
  }

  lemma ArchiveIsWholeBlocks(entries: seq<Entry>)
    ensures |Archive(entries)| % BLOCK == 0
  {
    BlocksAreWhole(entries);
    WholeAndWhole(|Blocks(entries)|, 1024);
  }

  predicate White(b: byte) {
    9 <= b <= 13 || b == 0x20
  }

  /** The text before the first NUL. */
  function BeforeNul(s: Bytes): (r: Bytes)
    ensures |r| <= |s| && r == s[..|r|]
  {
    if s == [] || s[0] == 0 then [] else [s[0]] + BeforeNul(s[1..])
  }

  function SkipWhite(s: Bytes): Bytes {
    if s != [] && White(s[0]) then SkipWhite(s[1..]) else s
  }

  function LeadingDigits(s: Bytes): (r: Bytes)
    ensures AllOctal(r)
  {
    if s == [] || !OctalDigit(s[0]) then [] else [s[0]] + LeadingDigits(s[1..])
  }

  /** The size field as `parseInt` reads it; no digits count as 0. */
  function ParseSize(field: Bytes): nat {
    Value(LeadingDigits(SkipWhite(BeforeNul(field))))
  }

  predicate Blank(h: Bytes) {
    forall i :: 0 <= i < |h| ==> h[i] == 0
  }

  function Min(a: nat, b: nat): nat {
    if a < b then a else b
  }

  /** The first regular file from `offset` on. */
  function Extract(archive: Bytes, offset: nat): Option<Bytes>
    decreases |archive| - offset
  {
    if offset + BLOCK > |archive| || Blank(archive[offset..offset + BLOCK]) then None
    else
      var h := archive[offset..offset + BLOCK];
      var start, size := offset + BLOCK, ParseSize(h[124..136]);
      if h[156] == 0 || h[156] == 0x30 then Some(archive[start..Min(start + size, |archive|)])
      else if start + size + Padding(size) > |archive| then None
      else Extract(archive, start + size + Padding(size))
  }

  // ---------------------------------------------------------------- the first file comes back

  lemma {:induction false} DigitsBeforeNul(s: Bytes)
    requires AllOctal(s)
    ensures BeforeNul(s) == s && BeforeNul(s + [0]) == s && LeadingDigits(s) == s
  {
    if s == [] {
      assert ([] + [0])[0] == 0;
    } else {
      DigitsBeforeNul(s[1..]);
      assert (s + [0])[1..] == s[1..] + [0] && s == [s[0]] + s[1..];
    }
  }

  lemma DigitsParse(s: Bytes)
    requires AllOctal(s)
    ensures ParseSize(s) == Value(s) && ParseSize(s + [0]) == Value(s)
  {
    DigitsBeforeNul(s);
    assert SkipWhite(s) == s;
  }

  /** What a size field may hold: white space is skipped, and the digits end at the first byte that is none. */
  lemma {:induction false} SizeFieldReads(blanks: Bytes, digits: Bytes, behind: Bytes)
    requires forall i :: 0 <= i < |blanks| ==> blanks[i] in {9, 10, 11, 12, 13, 0x20}
    requires AllOctal(digits) && (behind == [] || behind[0] < 0x30 || behind[0] > 0x37)
    requires digits == [] ==> behind == [] || behind[0] !in {9, 10, 11, 12, 13, 0x20}
    ensures ParseSize(blanks + (digits + behind)) == Value(digits)
  {
    if blanks == [] {
      assert blanks + (digits + behind) == digits + behind;
      DigitsStopAt(digits, behind);
      assert BeforeNul(digits + behind) != [] ==> !White(BeforeNul(digits + behind)[0]);
    } else {
      SizeFieldReads(blanks[1..], digits, behind);
      var s := blanks + (digits + behind);
      assert s[1..] == blanks[1..] + (digits + behind);
      assert BeforeNul(s)[1..] == BeforeNul(s[1..]);
    }
  }

  lemma {:induction false} DigitsStopAt(digits: Bytes, behind: Bytes)
    requires AllOctal(digits) && (behind == [] || !OctalDigit(behind[0]))
    ensures LeadingDigits(BeforeNul(digits + behind)) == digits
    ensures digits != [] ==> BeforeNul(digits + behind) != [] && BeforeNul(digits + behind)[0] == digits[0]
    ensures digits == [] && BeforeNul(digits + behind) != [] ==>
            behind != [] && BeforeNul(digits + behind)[0] == behind[0]
  {
    var s := digits + behind;
    if digits == [] {
      assert s == behind;
    } else {
      assert s[1..] == digits[1..] + behind;
      DigitsStopAt(digits[1..], behind);
      assert BeforeNul(s)[1..] == BeforeNul(s[1..]);
      assert digits == [digits[0]] + digits[1..];
    }
  }

  /** The size field gives the size back exactly when it has at most twelve octal digits; otherwise less. */
  lemma SizeReadsBackIff(n: nat)
    ensures n < Power8(12) ==> ParseSize(OctalField(n, 12)) == n
    ensures n >= Power8(12) ==> ParseSize(OctalField(n, 12)) < n
  {
    var digits := PadStart(Octal(n), 11);
    var text := digits + [0];
    ValueOfOctal(n);
    ValueOfPadded(Octal(n), 11);
    DigitsNeeded(n, 12);
    DigitsParse(digits);
    if |digits| == 11 {
      assert OctalField(n, 12) == text;
    } else {
      assert digits == Octal(n);
      assert OctalField(n, 12) == digits[..12] by { assert text[..12] == digits[..12]; }
      DigitsParse(digits[..12]);
      if |digits| > 12 {
        PrefixIsSmaller(digits, 12);
      } else {
        assert digits[..12] == digits;
      }
    }
  }

  lemma ExtractFrom(h: Bytes, c: Bytes, rest: Bytes, size: nat)
    requires |h| == BLOCK && h[156] == 0x30 && size == ParseSize(h[124..136]) && size <= |c|
    ensures Extract(h + (c + rest), 0) == Some(c[..size])
  {
    var a := h + (c + rest);
    assert a[0..BLOCK] == h;
    assert !Blank(h);
    assert a[BLOCK..BLOCK + size] == c[..size];
  }

  lemma FirstFileIs(entries: seq<Entry>, size: nat)
    requires entries != [] && size == ParseSize(OctalField(|entries[0].contents|, 12)) && size <= |entries[0].contents|
    ensures Extract(Archive(entries), 0) == Some(entries[0].contents[..size])
  {
    var h, c := Header(entries[0]), entries[0].contents;
    var padding, others := Zeros(Padding(|c|)), Blocks(entries[1..]);
    HeaderFields(entries[0]);
    ExtractFrom(h, c, padding + others + Zeros(1024), size);
    Regroup(h, c, padding, others, Zeros(1024));
  }

  lemma Regroup(a: Bytes, b: Bytes, c: Bytes, d: Bytes, e: Bytes)
    ensures a + b + c + d + e == a + (b + (c + d + e))
  {
  }

  /** Whatever files are packed, the first one comes out again if and only if its size is below 8 to the 12th. */
  lemma FirstFileComesBackIff(entries: seq<Entry>)
    requires entries != []
    ensures Extract(Archive(entries), 0) == Some(entries[0].contents) <==> |entries[0].contents| < Power8(12)
  {
    var n := |entries[0].contents|;
    SizeReadsBackIff(n);
    FirstFileIs(entries, ParseSize(OctalField(n, 12)));
    assert entries[0].contents[..n] == entries[0].contents;
  }

  lemma {:induction false} ExtractShifts(whole: Bytes, d: nat, offset: nat)
    requires d <= |whole|
    ensures Extract(whole, d + offset) == Extract(whole[d..], offset)
    decreases |whole| - offset
  {
    var rest := whole[d..];
    if offset + BLOCK <= |rest| {
      var h := rest[offset..offset + BLOCK];
      assert h == whole[d + offset..d + offset + BLOCK];
      var start, size := offset + BLOCK, ParseSize(h[124..136]);
      assert rest[start..Min(start + size, |rest|)] == whole[d + start..Min(d + start + size, |whole|)];
      if !Blank(h) && start + size + Padding(size) <= |rest| {
        ExtractShifts(whole, d, start + size + Padding(size));
      }
    }
  }

  /** What a reader finds in any archive: nothing in less than a block or from a blank block on; in a regular file,
      also one of the old kind, its contents as far as they are there; behind any other entry whatever comes after
      it. */
  lemma ExtractFinds(h: Bytes, contents: Bytes, padding: Bytes, rest: Bytes)
    requires |h| == BLOCK && |contents| == ParseSize(h[124..136]) && |padding| == Padding(|contents|)
    ensures Blank(h) ==> Extract(h + contents + padding + rest, 0) == None
    ensures !Blank(h) && h[156] in {0, 0x30} ==> Extract(h + contents + padding + rest, 0) == Some(contents)
    ensures !Blank(h) && h[156] !in {0, 0x30} ==> Extract(h + contents + padding + rest, 0) == Extract(rest, 0)
  {
    var whole, front := h + contents + padding + rest, h + contents + padding;
    assert whole[0..BLOCK] == h && whole[BLOCK..BLOCK + |contents|] == contents;
    assert whole[|front|..] == rest;
    ExtractShifts(whole, |front|, 0);
  }

  lemma NothingPackedNothingFound()
    ensures Extract(Archive([]), 0) == None
  {
    var a := Archive([]);
    assert a == Zeros(1024);
    assert Blank(a[0..BLOCK]);
  }

  // ---------------------------------------------------------------- buffers

  method WriteAt(header: array<byte>, offset: nat, s: Bytes)
    requires offset + |s| <= header.Length
    modifies header
    ensures header[..] == Written(old(header[..]), offset, s)
  {
    for i := 0 to |s|
      invariant forall k :: 0 <= k < i ==> header[offset + k] == s[k]
      invariant forall k :: 0 <= k < header.Length && !(offset <= k < offset + i) ==> header[k] == old(header[k])
    {
      header[offset + i] := s[i];
    }
    assert forall k :: offset <= k < offset + |s| ==> header[k] == s[k - offset];
  }

  method WriteTarString(header: array<byte>, offset: nat, length: nat, value: Bytes)
    requires offset + length <= header.Length
    modifies header
    ensures header[..] == Written(old(header[..]), offset, Truncated(value, length))
  {
    WriteAt(header, offset, Truncated(value, length));
  }

  method WriteTarOctal(header: array<byte>, offset: nat, length: nat, value: nat)
    requires offset + length <= header.Length && length > 0
    modifies header
    ensures header[..] == Written(old(header[..]), offset, OctalField(value, length))
  {
    var text := PadStart(Octal(value), length - 1);
    WriteAt(header, offset, Truncated(text + [0], length));
  }

  method SumOf(header: array<byte>) returns (sum: nat)
    ensures sum == Sum(header[..])
  {
    sum := 0;
    for i := 0 to header.Length
      invariant sum == Sum(header[..i])
    {
      assert header[..i + 1][..i] == header[..i];
      sum := sum + header[i] as nat;
    }
    assert header[..header.Length] == header[..];
  }

  method WriteFront(header: array<byte>, e: Entry)
    requires header.Length == BLOCK && header[..] == Zeros(BLOCK)
    modifies header
    ensures header[..] == Front(e)
  {
    WriteTarString(header, 0, 100, e.name);
    WriteTarOctal(header, 100, 8, 0x1A4);
    WriteTarOctal(header, 108, 8, 0);
    WriteTarOctal(header, 116, 8, 0);
    WriteTarOctal(header, 124, 12, |e.contents|);
  }

  method WriteBlanked(header: array<byte>)
    requires header.Length == BLOCK
    modifies header
    ensures header[..] == Blanked(old(header[..]))
  {
    WriteTarOctal(header, 136, 12, 0);
    WriteAt(header, 156, [0x30]);
    WriteTarString(header, 257, 6, USTAR);
    WriteTarString(header, 263, 2, VERSION);
    WriteTarString(header, 265, 32, ROOT);
    WriteTarString(header, 297, 32, ROOT);
    WriteAt(header, 148, BLANKS);
  }

  method WriteChecksum(header: array<byte>)
    requires header.Length == BLOCK
    modifies header
    ensures header[..] == Sealed(old(header[..]))
  {
    var sum := SumOf(header);
    WriteAt(header, 148, Truncated(PadStart(Octal(sum), 6), 6));
    WriteAt(header, 154, [0]);
    WriteAt(header, 155, [0x20]);
  }

  method PackEntry(e: Entry) returns (block: Bytes)
    ensures block == Packed(e)
  {
    var header := new byte[BLOCK](_ => 0);
    assert header[..] == Zeros(BLOCK);
    WriteFront(header, e);
    WriteBlanked(header);
    WriteChecksum(header);
    block := header[..] + e.contents + Zeros(Padding(|e.contents|));
  }

  method CreateTar(entries: seq<Entry>) returns (archive: Bytes)
    ensures archive == Archive(entries)
  {
    archive := [];
    for n := 0 to |entries|
      invariant archive == Blocks(entries[..n])
    {
      var block := PackEntry(entries[n]);
      OneMoreBlock(entries, n);
      archive := archive + block;
    }
    assert entries[..|entries|] == entries;
    archive := archive + Zeros(1024);
  }

  lemma OneMoreBlock(entries: seq<Entry>, n: nat)
    requires n < |entries|
    ensures Blocks(entries[..n + 1]) == Blocks(entries[..n]) + Packed(entries[n])
  {
    BlocksGrow(entries[..n], entries[n]);
    assert entries[..n + 1] == entries[..n] + [entries[n]];
  }

  lemma {:induction false} BlocksGrow(entries: seq<Entry>, e: Entry)
    ensures Blocks(entries + [e]) == Blocks(entries) + Packed(e)
  {
    if entries == [] {
      OneBlock(e);
      assert [] + [e] == [e] && [] + Packed(e) == Packed(e);
    } else {
      BlocksGrow(entries[1..], e);
      assert (entries + [e])[1..] == entries[1..] + [e];
      Assoc(Packed(entries[0]), Blocks(entries[1..]), Packed(e));
    }
  }

  lemma OneBlock(e: Entry)
    ensures Blocks([e]) == Packed(e)
  {
    assert [e][1..] == [] && Packed(e) + [] == Packed(e);
  }

  /** `extractFirstFileFromTar`; no regular file is an exception. */
  method ExtractFirstFileFromTar(archive: Bytes) returns (r: Option<Bytes>)
    ensures r == Extract(archive, 0)
  {
    var offset: nat := 0;
    while offset + BLOCK <= |archive|
      invariant Extract(archive, 0) == if offset <= |archive| then Extract(archive, offset) else None
      decreases |archive| - offset
    {
      var header := archive[offset..offset + BLOCK];
      if Blank(header) {
        return None;
      }
      var size := ParseSize(header[124..136]);
      var start := offset + BLOCK;
      offset := start + size + Padding(size);
      if header[156] == 0 || header[156] == 0x30 {
        return Some(archive[start..Min(start + size, |archive|)]);
      }
    }
    return None;
  }
}
