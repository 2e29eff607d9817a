/**
 * A reader of JSON texts without white space (RFC 8259), for integers only: what a text stands for, whoever wrote it.
 * It reads a value at the front and says what is left.
 */
module JsonReader {
  import opened Options

  datatype Json =
    | Null
    | Bool(value: bool)
    | Int(number: int)
    | Str(text: string)
    | Arr(items: seq<Json>)
    | Obj(fields: map<string, Json>)

  datatype Read<T> = Read(got: T, rest: string)

  // ---------------------------------------------------------------- strings (section 7)

  /** The escapes of one character. */
  function Unescaped(c: char): Option<char> {
    if c == '"' || c == '\\' || c == '/' then Some(c)
    else if c == 'b' then Some('\U{8}') else if c == 'f' then Some('\U{C}') else if c == 'n' then Some('\n')
    else if c == 'r' then Some('\r') else if c == 't' then Some('\t') else None
  }

  function HexValue(c: char): Option<nat> {
    if '0' <= c <= '9' then Some(c as int - '0' as int)
    else if 'a' <= c <= 'f' then Some(c as int - 'a' as int + 10)
    else if 'A' <= c <= 'F' then Some(c as int - 'A' as int + 10) else None
  }

  /** The code point of four hexadecimal digits, unless it is half of a surrogate pair. */
  function FourHex(s: string): Option<char>
    requires |s| == 4
  {
    if HexValue(s[0]).None? || HexValue(s[1]).None? || HexValue(s[2]).None? || HexValue(s[3]).None? then None
    else
      var n := 0x1000 * HexValue(s[0]).value + 0x100 * HexValue(s[1]).value + 0x10 * HexValue(s[2]).value +
               HexValue(s[3]).value;
      if 0xD800 <= n < 0xE000 then None else Some(n as char)
  }

  /** The characters up to the closing quote. */
  function ReadChars(s: string): (r: Option<Read<string>>)
    ensures r.Some? ==> |r.value.rest| < |s|
    decreases |s|
  {
    if s == [] || s[0] < ' ' then None
    else if s[0] == '"' then Some(Read([], s[1..]))
    else if s[0] != '\\' then InFront(s[0], ReadChars(s[1..]))
    else if |s| >= 2 && Unescaped(s[1]).Some? then InFront(Unescaped(s[1]).value, ReadChars(s[2..]))
    else if |s| >= 6 && s[1] == 'u' && FourHex(s[2..6]).Some? then InFront(FourHex(s[2..6]).value, ReadChars(s[6..]))
    else None
  }

  function InFront(c: char, r: Option<Read<string>>): (q: Option<Read<string>>)
    ensures q.Some? <==> r.Some?
    ensures q.Some? ==> q.value == Read([c] + r.value.got, r.value.rest)
  {
    if r.None? then None else Some(Read([c] + r.value.got, r.value.rest))
  }

  // ---------------------------------------------------------------- numbers (section 6)

  predicate Decimal(c: char) {
    '0' <= c <= '9'
  }

  function DigitRun(s: string): (r: string)
    ensures |r| <= |s| && r == s[..|r|] && forall i :: 0 <= i < |r| ==> Decimal(r[i])
  {
    if s == [] || !Decimal(s[0]) then [] else [s[0]] + DigitRun(s[1..])
  }

  function DecimalValue(s: string): nat
    requires forall i :: 0 <= i < |s| ==> Decimal(s[i])
  {
    if s == [] then 0
    else
      assert Decimal(s[|s| - 1]);
      10 * DecimalValue(s[..|s| - 1]) + (s[|s| - 1] as int - '0' as int)
  }

  /** An integer has no superfluous zero in front, and neither a fraction nor an exponent behind it. */
  function ReadNat(s: string): (r: Option<Read<nat>>)
    ensures r.Some? ==> |r.value.rest| < |s|
  {
    var digits := DigitRun(s);
    var rest := s[|digits|..];
    if digits == [] || (|digits| > 1 && digits[0] == '0') ||
       (rest != [] && (rest[0] == '.' || rest[0] == 'e' || rest[0] == 'E'))
    then None else Some(Read(DecimalValue(digits), rest))
  }

  function ReadInt(s: string): (r: Option<Read<Json>>)
    requires s != []
    ensures r.Some? ==> |r.value.rest| < |s|
  {
    if s[0] == '-' then
      match ReadNat(s[1..])
      case None => None
      case Some(n) => Some(Read(Int(-1 * n.got), n.rest))
    else
      match ReadNat(s)
      case None => None
      case Some(n) => Some(Read(Int(n.got), n.rest))
  }

  // ---------------------------------------------------------------- values (sections 3 to 5)

  function ReadWord(s: string, word: string, j: Json): (r: Option<Read<Json>>)
    requires word != []
    ensures r.Some? ==> |r.value.rest| < |s|
  {
    if |word| <= |s| && s[..|word|] == word then Some(Read(j, s[|word|..])) else None
  }

  function ReadValue(s: string): (r: Option<Read<Json>>)
    ensures r.Some? ==> |r.value.rest| < |s|
    decreases |s|, 0
  {
    if s == [] then None
    else if s[0] == 'n' then ReadWord(s, "null", Null)
    else if s[0] == 't' then ReadWord(s, "true", Bool(true))
    else if s[0] == 'f' then ReadWord(s, "false", Bool(false))
    else if s[0] == '"' then
      match ReadChars(s[1..])
      case None => None
      case Some(chars) => Some(Read(Str(chars.got), chars.rest))
    else if s[0] == '[' then
      if |s| > 1 && s[1] == ']' then Some(Read(Arr([]), s[2..]))
      else match ReadItems(s[1..])
        case None => None
        case Some(items) => Some(Read(Arr(items.got), items.rest))
    else if s[0] == '{' then
      if |s| > 1 && s[1] == '}' then Some(Read(Obj(map[]), s[2..]))
      else match ReadMembers(s[1..])
        case None => None
        case Some(members) => Some(Read(Obj(members.got), members.rest))
    else ReadInt(s)
  }

  /** The items of an array behind its opening bracket or a comma, with the closing bracket. */
  function ReadItems(s: string): (r: Option<Read<seq<Json>>>)
    ensures r.Some? ==> |r.value.rest| < |s|
    decreases |s|, 1
  {
    match ReadValue(s)
    case None => None
    case Some(item) =>
      if item.rest == [] then None
      else if item.rest[0] == ']' then Some(Read([item.got], item.rest[1..]))
      else if item.rest[0] != ',' then None
      else match ReadItems(item.rest[1..])
        case None => None
        case Some(more) => Some(Read([item.got] + more.got, more.rest))
  }

  /** The members of an object behind its opening brace or a comma, with the closing brace. */
  function ReadMembers(s: string): (r: Option<Read<map<string, Json>>>)
    ensures r.Some? ==> |r.value.rest| < |s|
    decreases |s|, 1
  {
    if s == [] || s[0] != '"' then None
    else match ReadChars(s[1..])
      case None => None
      case Some(key) =>
        if key.rest == [] || key.rest[0] != ':' then None
        else match ReadValue(key.rest[1..])
          case None => None
          case Some(member) =>
            if member.rest == [] then None
            else if member.rest[0] == '}' then Some(Read(map[key.got := member.got], member.rest[1..]))
            else if member.rest[0] != ',' then None
            else match ReadMembers(member.rest[1..])
              case None => None
              case Some(more) => Some(Read(map[key.got := member.got] + more.got, more.rest))
  }
}
