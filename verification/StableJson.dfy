/**
 * The stable text of a JSON tree: sorted keys, integers in decimal, strings as Go's encoder writes them. A reader
 * gets the tree back, so the text determines it and a checksum of the text identifies a configuration.
 */
module StableJson {
  import opened Sequences
  import opened Numerals
  import opened Options
  import opened Sorting
  import opened JsonReader

  // ---------------------------------------------------------------- key order

  /** Byte order of UTF-8 strings, which is the order of their code points. */
  predicate Less(a: string, b: string) {
    b != [] && (a == [] || a[0] < b[0] || (a[0] == b[0] && Less(a[1..], b[1..])))
  }

  /** A proper prefix comes first, and otherwise the first difference decides. */
  lemma {:induction false} LessIff(a: string, b: string)
    ensures Less(a, b) <==>
            || (|a| < |b| && b[..|a|] == a)
            || exists k :: FirstDifference(a, b, k) && a[k] < b[k]
  {
    if a != [] && b != [] && a[0] == b[0] {
      LessIff(a[1..], b[1..]);
      assert a == [a[0]] + a[1..] && b == [b[0]] + b[1..];
      assert |a| < |b| ==> (b[..|a|] == a <==> b[1..][..|a[1..]|] == a[1..]);
      forall k
        ensures FirstDifference(a[1..], b[1..], k) ==> FirstDifference(a, b, k + 1)
        ensures FirstDifference(a, b, k + 1) ==> FirstDifference(a[1..], b[1..], k)
      {
        if 0 <= k < |a| - 1 && k < |b| - 1 {
          assert a[..k + 1] == [a[0]] + a[1..][..k] && b[..k + 1] == [b[0]] + b[1..][..k];
          assert a[..k + 1][1..] == a[1..][..k] && b[..k + 1][1..] == b[1..][..k];
        }
      }
      if k :| FirstDifference(a, b, k) && a[k] < b[k] {
        assert k > 0 && FirstDifference(a, b, k - 1 + 1);
        assert FirstDifference(a[1..], b[1..], k - 1);
      }
      if k :| FirstDifference(a[1..], b[1..], k) && a[1..][k] < b[1..][k] {
        assert FirstDifference(a, b, k + 1);
      }
    } else if a != [] && b != [] {
      assert a[0] < b[0] ==> FirstDifference(a, b, 0);
      assert |a| <= |b| ==> b[..|a|][0] == b[0];
      assert forall k :: FirstDifference(a, b, k) ==> k == 0 || a[..k][0] == b[..k][0];
    }
  }

  predicate FirstDifference(a: string, b: string, k: int) {
    0 <= k < |a| && k < |b| && a[..k] == b[..k] && a[k] != b[k]
  }

  lemma LessTransitive(a: string, b: string, c: string)
    requires Less(a, b) && Less(b, c)
    ensures Less(a, c)
  {
  }

  lemma LessTotal(a: string, b: string)
    ensures a == b || Less(a, b) || Less(b, a)
  {
    if a != [] && b != [] && a[0] == b[0] {
      LessTotal(a[1..], b[1..]);
      assert a == [a[0]] + a[1..] && b == [b[0]] + b[1..];
    }
  }

  lemma LessAsymmetric(a: string, b: string)
    requires Less(a, b)
    ensures !Less(b, a)
  {
  }

  predicate Ascending(keys: seq<string>) {
    forall i, k :: 0 <= i < k < |keys| ==> Less(keys[i], keys[k])
  }

  /** Sorting distinct keys one at a time. */
  lemma {:induction false} InsertKeepsOrder(key: string, sorted: seq<string>)
    requires Ascending(sorted) && key !in sorted
    ensures Ascending(Insert(key, sorted, Less))
    ensures forall k :: k in Insert(key, sorted, Less) <==> k == key || k in sorted
  {
    if sorted == [] {
    } else if Less(key, sorted[0]) {
      forall i | 0 < i < |sorted|
        ensures Less(key, sorted[i])
      {
        LessTransitive(key, sorted[0], sorted[i]);
      }
    } else {
      LessTotal(key, sorted[0]);
      InsertKeepsOrder(key, sorted[1..]);
      var rest := Insert(key, sorted[1..], Less);
      forall i | 0 <= i < |rest|
        ensures Less(sorted[0], rest[i])
      {
        assert rest[i] in rest;
        assert rest[i] != key ==> rest[i] in sorted[1..];
      }
    }
  }

  ghost function SortedKeys(keys: set<string>): (r: seq<string>)
    ensures Ascending(r) && forall k :: k in r <==> k in keys
  {
    if keys == {} then []
    else
      var key :| key in keys;
      InsertKeepsOrder(key, SortedKeys(keys - {key}));
      Insert(key, SortedKeys(keys - {key}), Less)
  }

  lemma {:induction false} AscendingIsUnique(a: seq<string>, b: seq<string>)
    requires Ascending(a) && Ascending(b) && forall k :: k in a <==> k in b
    ensures a == b
    decreases |a|
  {
    if a != [] { assert a[0] in a; }
    if b != [] { assert b[0] in b; }
    if a != [] {
      HeadsAgree(a, b);
      assert forall k :: k in a <==> k == a[0] || k in a[1..];
      assert forall k :: k in b <==> k == b[0] || k in b[1..];
      HeadNotInTail(a);
      HeadNotInTail(b);
      AscendingIsUnique(a[1..], b[1..]);
      assert a == [a[0]] + a[1..] && b == [b[0]] + b[1..];
    }
  }

  lemma HeadNotInTail(a: seq<string>)
    requires Ascending(a) && a != []
    ensures a[0] !in a[1..]
  {
    if a[0] in a[1..] {
      var i :| 1 <= i < |a| && a[i] == a[0];
      LessAsymmetric(a[0], a[i]);
    }
  }

  lemma HeadsAgree(a: seq<string>, b: seq<string>)
    requires Ascending(a) && Ascending(b) && a != [] && b != [] && a[0] in b && b[0] in a
    ensures a[0] == b[0]
  {
    var i :| 0 <= i < |b| && b[i] == a[0];
    var k :| 0 <= k < |a| && a[k] == b[0];
    if i > 0 && k > 0 {
      LessAsymmetric(a[0], b[0]);
    }
  }

  // ---------------------------------------------------------------- strings

  function Unicode(n: nat): string {
    ['\\', 'u'] + Places(n, 4)
  }

  /** The short escapes of Go's encoder, or a blank. */
  function Short(c: char): char {
    if c == '"' then '"' else if c == '\\' then '\\'
    else if c == '\U{8}' then 'b' else if c == '\U{C}' then 'f'
    else if c == '\n' then 'n' else if c == '\r' then 'r' else if c == '\t' then 't' else ' '
  }

  predicate NeedsUnicode(c: char) {
    c < ' ' || c == '<' || c == '>' || c == '&' || c == '\U{2028}' || c == '\U{2029}'
  }

  /** One character inside quotes: a short escape, `\u` for other controls, for `< > &` and for the line separators,
      and the character itself otherwise. */
  function Escape(c: char): string {
    if Short(c) != ' ' then ['\\', Short(c)]
    else if NeedsUnicode(c) then Unicode(c as int)
    else [c]
  }

  /** Seven characters have short escapes; other controls, `< > &` and the line separators are written by number,
      all others as they are. */
  lemma EscapeIff(c: char)
    ensures |Escape(c)| == 2 <==> c in {'"', '\\', '\n', '\r', '\t', '\U{8}', '\U{C}'}
    ensures |Escape(c)| == 6 <==>
            (c < ' ' || c in {'<', '>', '&', '\U{2028}', '\U{2029}'}) && c !in {'\n', '\r', '\t', '\U{8}', '\U{C}'}
    ensures |Escape(c)| != 2 && |Escape(c)| != 6 ==> Escape(c) == [c]
  {
  }

  // The writers below say what is written in front of `rest`, so that each step peels one prefix off.

  function Quoted(s: string, rest: string): string {
    ['"'] + Escaped(s, rest)
  }

  function Escaped(s: string, rest: string): string {
    if s == [] then ['"'] + rest else Escape(s[0]) + Escaped(s[1..], rest)
  }

  // ---------------------------------------------------------------- integers

  function Decimal(n: int, rest: string): string {
    if n < 0 then ['-'] + (Digits(-n) + rest) else Digits(n) + rest
  }

  /** What may follow a value inside a text: nothing, or a separator or closing bracket. */
  predicate Ends(s: string) {
    s == [] || s[0] == ',' || s[0] == ']' || s[0] == '}'
  }

  // ---------------------------------------------------------------- trees

  /** The text of the tree in front of `rest`. */
  ghost function Put(j: Json, rest: string): string
    decreases j
  {
    match j
    case Null => "null" + rest
    case Bool(b) => (if b then "true" else "false") + rest
    case Int(n) => Decimal(n, rest)
    case Str(s) => Quoted(s, rest)
    case Arr(items) => ['['] + Items(items, true, [']'] + rest)
    case Obj(fields) => ['{'] + Members(j, SortedKeys(fields.Keys), true, ['}'] + rest)
  }

  ghost function Text(j: Json): string {
    Put(j, [])
  }

  function Comma(first: bool, rest: string): string {
    if first then rest else [','] + rest
  }

  ghost function Items(items: seq<Json>, first: bool, rest: string): string
    decreases items
  {
    if items == [] then rest else Comma(first, Put(items[0], Items(items[1..], false, rest)))
  }

  ghost function Members(o: Json, keys: seq<string>, first: bool, rest: string): string
    requires o.Obj? && forall k :: k in keys ==> k in o.fields
    decreases o, |keys|
  {
    if keys == [] then rest
    else Comma(first, Quoted(keys[0], [':'] + Put(o.fields[keys[0]], Members(o, keys[1..], false, rest))))
  }

  // ---------------------------------------------------------------- the reader gets the tree back

  lemma {:induction false} DigitsValue(n: nat)
    ensures DecimalValue(Digits(n)) == n && (n > 0 ==> Digits(n)[0] != '0') && (n == 0 ==> Digits(n) == ['0'])
  {
    if n < 10 {
      assert Digits(n)[..0] == [];
    } else {
      DigitsValue(n / 10);
      assert Digits(n)[..|Digits(n)| - 1] == Digits(n / 10);
    }
  }

  lemma {:induction false} RunOfDigits(digits: string, rest: string)
    requires (forall i :: 0 <= i < |digits| ==> IsDigit(digits[i])) && (rest == [] || !IsDigit(rest[0]))
    ensures DigitRun(digits + rest) == digits
  {
    if digits == [] {
      assert digits + rest == rest;
    } else {
      RunOfDigits(digits[1..], rest);
      assert (digits + rest)[1..] == digits[1..] + rest && digits == [digits[0]] + digits[1..];
    }
  }

  lemma NatReadsBack(n: nat, rest: string)
    requires Ends(rest)
    ensures ReadNat(Digits(n) + rest) == Some(Read(n, rest))
  {
    DigitsValue(n);
    RunOfDigits(Digits(n), rest);
    assert (Digits(n) + rest)[|Digits(n)|..] == rest;
  }

  lemma IntReadsBack(n: int, rest: string)
    requires Ends(rest)
    ensures ReadValue(Decimal(n, rest)) == Some(Read(Int(n), rest))
  {
    var digits := Digits(if n < 0 then -n else n) + rest;
    NatReadsBack(if n < 0 then -n else n, rest);
    assert IsDigit(digits[0]);
    if n < 0 {
      MinusReads(digits);
    }
  }

  lemma MinusReads(digits: string)
    ensures ReadValue(['-'] + digits) == ReadInt(['-'] + digits)
    ensures (['-'] + digits)[1..] == digits
  {
  }

  lemma HexReadsBack(k: nat)
    requires k < 16
    ensures HexValue(Hex(k)) == Some(k)
  {
  }

  lemma FourPlaces(n: nat)
    requires n < 0x10000
    ensures var a, b, c := n / 16, n / 16 / 16, n / 16 / 16 / 16;
            && c < 16 && n == 0x1000 * c + 0x100 * (b % 16) + 0x10 * (a % 16) + n % 16
            && Places(n, 4) == [Hex(c), Hex(b % 16), Hex(a % 16), Hex(n % 16)]
  {
    var a, b, c := n / 16, n / 16 / 16, n / 16 / 16 / 16;
    assert n == 16 * a + n % 16 && a == 16 * b + a % 16 && b == 16 * c + b % 16;
    assert Places(c / 16, 0) == [] && Places(c, 1) == [] + [Hex(c % 16)];
    assert Places(b, 2) == Places(c, 1) + [Hex(b % 16)];
    assert Places(a, 3) == Places(b, 2) + [Hex(a % 16)];
    assert Places(n, 4) == Places(a, 3) + [Hex(n % 16)];
  }

  lemma UnicodeReadsBack(c: char)
    requires c as int < 0x10000
    ensures FourHex(Unicode(c as int)[2..6]) == Some(c)
  {
    var n := c as nat;
    var s := Unicode(n)[2..6];
    assert s == Places(n, 4);
    FourPlaces(n);
    HexReadsBack(n / 16 / 16 / 16);
    HexReadsBack(n / 16 / 16 % 16);
    HexReadsBack(n / 16 % 16);
    HexReadsBack(n % 16);
  }

  lemma ShortIsUnescaped(c: char)
    requires Short(c) != ' '
    ensures Unescaped(Short(c)) == Some(c) && Short(c) != 'u'
  {
  }

  lemma ShortReadsBack(c: char, rest: string)
    requires Short(c) != ' '
    ensures ReadChars(['\\', Short(c)] + rest) == InFront(c, ReadChars(rest))
  {
    var s := ['\\', Short(c)] + rest;
    ShortIsUnescaped(c);
    assert |s| >= 2 && s[0] == '\\' && s[1] == Short(c) && s[2..] == rest;
  }

  lemma NumberedReadsBack(c: char, rest: string)
    requires c as int < 0x10000
    ensures ReadChars(Unicode(c as int) + rest) == InFront(c, ReadChars(rest))
  {
    var s := Unicode(c as int) + rest;
    UnicodeReadsBack(c);
    assert s[0] == '\\' && s[1] == 'u' && s[2..6] == Unicode(c as int)[2..6] && s[6..] == rest;
  }

  lemma CharReadsBack(c: char, rest: string)
    ensures ReadChars(Escape(c) + rest) == InFront(c, ReadChars(rest))
  {
    if Short(c) != ' ' {
      ShortReadsBack(c, rest);
    } else if NeedsUnicode(c) {
      NumberedReadsBack(c, rest);
    } else {
      assert ([c] + rest)[1..] == rest;
    }
  }

  lemma {:induction false} CharsReadBack(s: string, rest: string)
    ensures ReadChars(Escaped(s, rest)) == Some(Read(s, rest))
  {
    if s == [] {
      assert Escaped(s, rest)[1..] == rest;
    } else {
      CharReadsBack(s[0], Escaped(s[1..], rest));
      CharsReadBack(s[1..], rest);
      assert s == [s[0]] + s[1..];
    }
  }

  /** A value never starts like the end of a list. */
  lemma PutStarts(j: Json, rest: string)
    ensures Put(j, rest) != [] && Put(j, rest)[0] != ']'
  {
    if j.Int? && j.number >= 0 {
      assert Put(j, rest)[0] == Digits(j.number)[0];
    }
  }

  /** Whatever may follow it, a reader reads the value back from its text and stops where the text does. */
  lemma {:induction false} ReadsBack(j: Json, rest: string)
    requires Ends(rest)
    ensures ReadValue(Put(j, rest)) == Some(Read(j, rest))
    decreases j, 2, 0
  {
    var s := Put(j, rest);
    match j {
      case Null => WordReadsBack("null", Null, rest);
      case Bool(b) => WordReadsBack(if b then "true" else "false", j, rest);
      case Int(n) => IntReadsBack(n, rest);
      case Str(text) =>
        CharsReadBack(text, rest);
        assert s[1..] == Escaped(text, rest);
      case Arr(items) => ArrayReadsBack(j, rest);
      case Obj(fields) => ObjectReadsBack(j, rest);
    }
  }

  lemma WordReadsBack(word: string, j: Json, rest: string)
    requires word != []
    ensures (word + rest)[0] == word[0] && ReadWord(word + rest, word, j) == Some(Read(j, rest))
  {
    assert (word + rest)[..|word|] == word && (word + rest)[|word|..] == rest;
  }

  lemma {:induction false} ArrayReadsBack(j: Json, rest: string)
    requires j.Arr?
    ensures ReadValue(Put(j, rest)) == Some(Read(j, rest))
    decreases j, 1, 0
  {
    var s, inside := Put(j, rest), Items(j.items, true, [']'] + rest);
    assert s == ['['] + inside && s[1..] == inside;
    if j.items == [] {
      assert s[2..] == rest;
    } else {
      PutStarts(j.items[0], Items(j.items[1..], false, [']'] + rest));
      assert s[1] == inside[0];
      ItemsReadBack(j, j.items, rest);
    }
  }

  lemma {:induction false} ItemsReadBack(j: Json, items: seq<Json>, rest: string)
    requires j.Arr? && items != [] && forall i :: 0 <= i < |items| ==> items[i] in j.items
    ensures ReadItems(Items(items, true, [']'] + rest)) == Some(Read(items, rest))
    decreases j, 0, |items|
  {
    var tail := Items(items[1..], false, [']'] + rest);
    assert items[0] in j.items;
    ReadsBack(items[0], tail);
    assert items == [items[0]] + items[1..];
    if items[1..] == [] {
      assert tail == [']'] + rest && items == [items[0]];
      OneItem(Put(items[0], tail), items[0], rest);
    } else {
      ItemsReadBack(j, items[1..], rest);
      assert tail == [','] + Items(items[1..], true, [']'] + rest);
      MoreItems(Put(items[0], tail), items[0], Items(items[1..], true, [']'] + rest), items[1..], rest);
    }
  }

  lemma OneItem(s: string, item: Json, rest: string)
    requires ReadValue(s) == Some(Read(item, [']'] + rest))
    ensures ReadItems(s) == Some(Read([item], rest))
  {
    assert ([']'] + rest)[1..] == rest;
  }

  lemma MoreItems(s: string, item: Json, more: string, items: seq<Json>, rest: string)
    requires ReadValue(s) == Some(Read(item, [','] + more)) && ReadItems(more) == Some(Read(items, rest))
    ensures ReadItems(s) == Some(Read([item] + items, rest))
  {
    assert ([','] + more)[1..] == more;
  }

  lemma {:induction false} ObjectReadsBack(j: Json, rest: string)
    requires j.Obj?
    ensures ReadValue(Put(j, rest)) == Some(Read(j, rest))
    decreases j, 1, 0
  {
    var keys := SortedKeys(j.fields.Keys);
    var inside := Members(j, keys, true, ['}'] + rest);
    if keys == [] {
      NoMember(rest);
      assert j.fields == map[];
    } else {
      MembersReadBack(j, keys, rest);
      SomeMembers(inside, FieldsOf(j, keys), rest);
      assert j.fields == FieldsOf(j, keys);
    }
  }

  lemma NoMember(rest: string)
    ensures ReadValue(['{'] + (['}'] + rest)) == Some(Read(Obj(map[]), rest))
  {
    var s := ['{'] + (['}'] + rest);
    assert s[2..] == rest;
  }

  lemma SomeMembers(inside: string, fields: map<string, Json>, rest: string)
    requires inside != [] && inside[0] == '"' && ReadMembers(inside) == Some(Read(fields, rest))
    ensures ReadValue(['{'] + inside) == Some(Read(Obj(fields), rest))
  {
    assert (['{'] + inside)[1..] == inside;
  }

  /** The fields of these keys. */
  function FieldsOf(j: Json, keys: seq<string>): map<string, Json>
    requires j.Obj? && forall k :: k in keys ==> k in j.fields
  {
    map k | k in keys :: j.fields[k]
  }

  lemma {:induction false} MembersReadBack(j: Json, keys: seq<string>, rest: string)
    requires j.Obj? && keys != [] && forall k :: k in keys ==> k in j.fields
    ensures ReadMembers(Members(j, keys, true, ['}'] + rest)) == Some(Read(FieldsOf(j, keys), rest))
    ensures Members(j, keys, true, ['}'] + rest)[0] == '"'
    decreases j, 0, |keys|
  {
    var key, tail := keys[0], Members(j, keys[1..], false, ['}'] + rest);
    var member := j.fields[key];
    CharsReadBack(key, [':'] + Put(member, tail));
    ReadsBack(member, tail);
    assert Members(j, keys, true, ['}'] + rest) == Quoted(key, [':'] + Put(member, tail));
    if keys[1..] == [] {
      assert tail == ['}'] + rest;
      OneMember(key, member, Put(member, tail), rest);
      FieldsGrow(j, keys);
      assert FieldsOf(j, keys[1..]) == map[] && FieldsOf(j, keys) == map[key := member];
    } else {
      MembersReadBack(j, keys[1..], rest);
      assert tail == [','] + Members(j, keys[1..], true, ['}'] + rest);
      MoreMembers(key, member, Put(member, tail), Members(j, keys[1..], true, ['}'] + rest), FieldsOf(j, keys[1..]),
                  rest);
      FieldsGrow(j, keys);
    }
  }

  lemma FieldsGrow(j: Json, keys: seq<string>)
    requires j.Obj? && keys != [] && forall k :: k in keys ==> k in j.fields
    ensures FieldsOf(j, keys) == map[keys[0] := j.fields[keys[0]]] + FieldsOf(j, keys[1..])
  {
    assert forall k :: k in keys <==> k == keys[0] || k in keys[1..];
  }

  lemma OneMember(key: string, member: Json, value: string, rest: string)
    requires ReadChars(Escaped(key, [':'] + value)) == Some(Read(key, [':'] + value))
    requires ReadValue(value) == Some(Read(member, ['}'] + rest))
    ensures ReadMembers(Quoted(key, [':'] + value)) == Some(Read(map[key := member], rest))
  {
    var s := Quoted(key, [':'] + value);
    assert s[1..] == Escaped(key, [':'] + value) && ([':'] + value)[1..] == value && (['}'] + rest)[1..] == rest;
  }

  lemma MoreMembers(key: string, member: Json, value: string, more: string, fields: map<string, Json>, rest: string)
    requires ReadChars(Escaped(key, [':'] + value)) == Some(Read(key, [':'] + value))
    requires ReadValue(value) == Some(Read(member, [','] + more)) && ReadMembers(more) == Some(Read(fields, rest))
    ensures ReadMembers(Quoted(key, [':'] + value)) == Some(Read(map[key := member] + fields, rest))
  {
    var s := Quoted(key, [':'] + value);
    assert s[1..] == Escaped(key, [':'] + value) && ([':'] + value)[1..] == value && ([','] + more)[1..] == more;
  }

  /** The stable text of a tree stands for that tree. */
  lemma TextReadsBack(j: Json)
    ensures ReadValue(Text(j)) == Some(Read(j, []))
  {
    ReadsBack(j, []);
  }

  /** So a value's text determines the value and where it ends, whatever follows. */
  lemma PutIsPrefixFree(a: Json, b: Json, s: string, t: string)
    requires Ends(s) && Ends(t) && Put(a, s) == Put(b, t)
    ensures a == b && s == t
  {
    ReadsBack(a, s);
    ReadsBack(b, t);
  }

  /** Equal stable texts come from equal trees. */
  lemma StableTextIdentifiesTree(a: Json, b: Json)
    ensures Text(a) == Text(b) <==> a == b
  {
    if Text(a) == Text(b) {
      PutIsPrefixFree(a, b, [], []);
    }
  }

  // ---------------------------------------------------------------- the writer

  lemma {:induction false} EscapedAppends(s: string, r: string, t: string)
    ensures Escaped(s, r) + t == Escaped(s, r + t)
  {
    if s == [] {
      Assoc(['"'], r, t);
    } else {
      EscapedAppends(s[1..], r, t);
      Assoc(Escape(s[0]), Escaped(s[1..], r), t);
    }
  }

  lemma QuotedAppends(s: string, r: string, t: string)
    ensures Quoted(s, r) + t == Quoted(s, r + t)
  {
    EscapedAppends(s, r, t);
    Assoc(['"'], Escaped(s, r), t);
  }

  lemma CommaAppends(first: bool, r: string, t: string)
    ensures Comma(first, r) + t == Comma(first, r + t)
  {
    Assoc([','], r, t);
  }

  lemma DecimalAppends(n: int, r: string, t: string)
    ensures Decimal(n, r) + t == Decimal(n, r + t)
  {
    var digits := Digits(if n < 0 then -n else n);
    Assoc(digits, r, t);
    Assoc(['-'], digits + r, t);
  }

  /** Writing in front of `r` and then appending is writing in front of the longer rest. */
  lemma {:induction false} PutAppends(j: Json, r: string, t: string)
    ensures Put(j, r) + t == Put(j, r + t)
    decreases j
  {
    match j {
      case Null => Assoc("null", r, t);
      case Bool(b) => Assoc(if b then "true" else "false", r, t);
      case Int(n) => DecimalAppends(n, r, t);
      case Str(s) => QuotedAppends(s, r, t);
      case Arr(items) =>
        ItemsAppend(items, true, [']'] + r, t);
        Assoc(['['], Items(items, true, [']'] + r), t);
        Assoc([']'], r, t);
      case Obj(fields) =>
        var keys := SortedKeys(fields.Keys);
        MembersAppend(j, keys, true, ['}'] + r, t);
        Assoc(['{'], Members(j, keys, true, ['}'] + r), t);
        Assoc(['}'], r, t);
    }
  }

  lemma {:induction false} ItemsAppend(items: seq<Json>, first: bool, r: string, t: string)
    ensures Items(items, first, r) + t == Items(items, first, r + t)
    decreases items
  {
    if items != [] {
      ItemsAppend(items[1..], false, r, t);
      PutAppends(items[0], Items(items[1..], false, r), t);
      CommaAppends(first, Put(items[0], Items(items[1..], false, r)), t);
    }
  }

  lemma {:induction false} MembersAppend(o: Json, keys: seq<string>, first: bool, r: string, t: string)
    requires o.Obj? && forall k :: k in keys ==> k in o.fields
    ensures Members(o, keys, first, r) + t == Members(o, keys, first, r + t)
    decreases o, |keys|
  {
    if keys != [] {
      var tail, value := Members(o, keys[1..], false, r), o.fields[keys[0]];
      MembersAppend(o, keys[1..], false, r, t);
      PutAppends(value, tail, t);
      Assoc([':'], Put(value, tail), t);
      QuotedAppends(keys[0], [':'] + Put(value, tail), t);
      CommaAppends(first, Quoted(keys[0], [':'] + Put(value, tail)), t);
    }
  }

  /** `writeStable`: keys come out of the map in any order and are sorted before they are written. */
  method WriteStable(builder: string, value: Json) returns (out: string)
    ensures out == builder + Text(value)
    decreases value
  {
    match value {
      case Null => out := builder + ("null" + []);
      case Bool(b) => out := builder + ((if b then "true" else "false") + []);
      case Int(n) => out := builder + Decimal(n, []);
      case Str(s) => out := builder + Quoted(s, []);
      case Arr(items) => out := WriteItems(builder, value);
      case Obj(fields) => out := WriteMembers(builder, value);
    }
  }

  /** One turn of the array loop. */
  lemma ItemWritten(items: seq<Json>, i: nat, before: string)
    requires i < |items|
    ensures before + Comma(i == 0, []) + Text(items[i]) + Items(items[i + 1..], false, []) ==
            before + Items(items[i..], i == 0, [])
  {
    var tail := Items(items[i + 1..], false, []);
    assert items[i..][0] == items[i] && items[i..][1..] == items[i + 1..];
    PutAppends(items[i], [], tail);
    assert [] + tail == tail;
    CommaAppends(i == 0, [], Put(items[i], tail));
    Assoc(before + Comma(i == 0, []), Text(items[i]), tail);
    Assoc(before, Comma(i == 0, []), Put(items[i], tail));
    assert [] + Put(items[i], tail) == Put(items[i], tail);
  }

  method WriteItems(builder: string, value: Json) returns (out: string)
    requires value.Arr?
    ensures out == builder + Text(value)
    decreases value, 0
  {
    var items := value.items;
    out := builder + ['['];
    ghost var start := out;
    var i := 0;
    assert items[0..] == items;
    while i < |items|
      invariant 0 <= i <= |items|
      invariant out + Items(items[i..], i == 0, []) == start + Items(items, true, [])
    {
      ItemWritten(items, i, out);
      out := out + Comma(i == 0, []);
      out := WriteStable(out, items[i]);
      i := i + 1;
    }
    assert items[i..] == [];
    assert out == start + Items(items, true, []);
    out := out + [']'];
    Assoc(start, Items(items, true, []), [']']);
    ItemsAppend(items, true, [], [']']);
    assert [] + [']'] == [']'] && [']'] + [] == [']'];
    Assoc(builder, ['['], Items(items, true, [']'] + []));
    assert Text(value) == ['['] + Items(items, true, [']']);
  }

  /** One turn of the object loop. */
  lemma MemberWritten(o: Json, keys: seq<string>, i: nat, before: string)
    requires o.Obj? && i < |keys| && forall k :: k in keys ==> k in o.fields
    ensures keys[i] in keys &&
            before + Comma(i == 0, []) + Quoted(keys[i], [':']) + Text(o.fields[keys[i]]) +
            Members(o, keys[i + 1..], false, []) == before + Members(o, keys[i..], i == 0, [])
  {
    var tail, value := Members(o, keys[i + 1..], false, []), o.fields[keys[i]];
    var head := before + Comma(i == 0, []);
    assert keys[i..][0] == keys[i] && keys[i..][1..] == keys[i + 1..];
    PutAppends(value, [], tail);
    assert [] + tail == tail;
    QuotedAppends(keys[i], [':'], Put(value, tail));
    CommaAppends(i == 0, [], Quoted(keys[i], [':'] + Put(value, tail)));
    Assoc(head + Quoted(keys[i], [':']), Text(value), tail);
    Assoc(head, Quoted(keys[i], [':']), Put(value, tail));
    Assoc(before, Comma(i == 0, []), Quoted(keys[i], [':'] + Put(value, tail)));
    assert [] + Quoted(keys[i], [':'] + Put(value, tail)) == Quoted(keys[i], [':'] + Put(value, tail));
  }

  method WriteMembers(builder: string, value: Json) returns (out: string)
    requires value.Obj?
    ensures out == builder + Text(value)
    decreases value, 0
  {
    var fields := value.fields;
    var keys := SortKeys(fields.Keys);
    AscendingIsUnique(keys, SortedKeys(fields.Keys));
    out := builder + ['{'];
    ghost var start := out;
    var i := 0;
    assert keys[0..] == keys;
    while i < |keys|
      invariant 0 <= i <= |keys|
      invariant out + Members(value, keys[i..], i == 0, []) == start + Members(value, keys, true, [])
    {
      MemberWritten(value, keys, i, out);
      out := out + Comma(i == 0, []);
      out := out + Quoted(keys[i], [':']);
      out := WriteStable(out, fields[keys[i]]);
      i := i + 1;
    }
    assert keys[i..] == [];
    assert out == start + Members(value, keys, true, []);
    out := out + ['}'];
    Assoc(start, Members(value, keys, true, []), ['}']);
    MembersAppend(value, keys, true, [], ['}']);
    assert [] + ['}'] == ['}'] && ['}'] + [] == ['}'];
    Assoc(builder, ['{'], Members(value, keys, true, ['}'] + []));
    assert Text(value) == ['{'] + Members(value, keys, true, ['}']);
  }

  method SortKeys(keys: set<string>) returns (sorted: seq<string>)
    ensures Ascending(sorted) && forall k :: k in sorted <==> k in keys
  {
    sorted := [];
    var rest := keys;
    while rest != {}
      invariant rest <= keys && Ascending(sorted)
      invariant forall k :: k in sorted <==> k in keys - rest
      decreases rest
    {
      var key :| key in rest;
      InsertKeepsOrder(key, sorted);
      sorted := Insert(key, sorted, Less);
      rest := rest - {key};
    }
  }
}
