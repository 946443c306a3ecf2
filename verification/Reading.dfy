/** A reader of JSON texts (RFC 8259) of the form that json.dumps writes: a comma and a blank
    between elements, a colon and a blank after a key, keys in ascending order. */
module Reading {
  import opened Wrappers
  import opened Json
  import opened Sorting

  /** What follows `p`, if the text begins with it. */
  function After(p: string, t: string): (rest: Option<string>)
    requires p != ""
    ensures rest.Some? <==> p <= t
    ensures rest.Some? ==> t == p + rest.value && |rest.value| < |t|
  {
    if p <= t then Some(t[|p|..]) else None
  }

  // Strings (section 7).

  function HexValue(c: char): (n: Option<nat>)
    ensures n.Some? ==> n.value < 0x10
  {
    if '0' <= c <= '9' then Some((c - '0') as nat)
    else if 'a' <= c <= 'f' then Some((c - 'a') as nat + 10)
    else if 'A' <= c <= 'F' then Some((c - 'A') as nat + 10)
    else None
  }

  function ReadHex2(t: string): (n: Option<nat>)
    requires |t| >= 2
    ensures n.Some? ==> n.value < 0x100
  {
    match (HexValue(t[0]), HexValue(t[1]))
    case (Some(a), Some(b)) => Some(a * 0x10 + b)
    case (_, _) => None
  }

  /** The number that four hexadecimal digits stand for. */
  function ReadHex(t: string): (n: Option<nat>)
    ensures n.Some? ==> |t| >= 4 && n.value < 0x1_0000
  {
    if |t| < 4 then None
    else
      match (ReadHex2(t), ReadHex2(t[2..]))
      case (Some(a), Some(b)) => Some(a * 0x100 + b)
      case (_, _) => None
  }

  /** A character that is not the closing quote. */
  function ReadChar(t: string): (r: Option<(char, string)>)
    ensures r.Some? ==> |r.value.1| < |t|
  {
    if t == "" || t[0] == '"' then None
    else if t[0] != '\\' then if t[0] < ' ' then None else Some((t[0], t[1..]))
    else if |t| < 2 then None
    else if t[1] == 'u' then ReadUnits(t[2..])
    else
      var escaped := Escaped(t[1]);
      if escaped.None? then None else Some((escaped.value, t[2..]))
  }

  function Escaped(c: char): Option<char> {
    if c == '"' || c == '\\' || c == '/' then Some(c)
    else if c == 'b' then Some('\U{8}')
    else if c == 'f' then Some('\U{C}')
    else if c == 'n' then Some('\n')
    else if c == 'r' then Some('\r')
    else if c == 't' then Some('\t')
    else None
  }

  /** The rest of a `\u` escape: one unit of UTF-16, or two that stand for one character. */
  function ReadUnits(t: string): (r: Option<(char, string)>)
    ensures r.Some? ==> |r.value.1| < |t|
  {
    var high := ReadHex(t);
    if high.None? then None
    else if high.value < 0xD800 || 0xE000 <= high.value then Some((high.value as char, t[4..]))
    else
      var second := After("\\u", t[4..]);
      var low := if second.None? then None else ReadHex(second.value);
      if low.None? || 0xDC00 <= high.value || !(0xDC00 <= low.value < 0xE000) then None
      else
        Some(((0x1_0000 + (high.value - 0xD800) * 0x400 + (low.value - 0xDC00)) as char, second.value[4..]))
  }

  /** The rest of a string, after the opening quote. */
  function ReadString(t: string): (r: Option<(string, string)>)
    ensures r.Some? ==> |r.value.1| < |t|
    decreases |t|
  {
    if t != "" && t[0] == '"' then Some(("", t[1..]))
    else
      match ReadChar(t)
      case None => None
      case Some((c, rest)) =>
        match ReadString(rest)
        case None => None
        case Some((s, rest')) => Some(([c] + s, rest'))
  }

  // Scalars (sections 3 and 6).

  /** The longest stretch of characters that a number can be made of. */
  function NumeralLength(t: string): (n: nat)
    ensures n <= |t| && forall i :: 0 <= i < n ==> NumeralChar(t[i])
    ensures n < |t| ==> !NumeralChar(t[n])
  {
    if t == "" || !NumeralChar(t[0]) then 0 else 1 + NumeralLength(t[1..])
  }

  function ReadScalar(t: string): (r: Option<(Scalar, string)>)
    ensures r.Some? ==> |r.value.1| < |t|
  {
    var n := NumeralLength(t);
    if After("null", t).Some? then Some((Null, After("null", t).value))
    else if After("true", t).Some? then Some((Bool(true), After("true", t).value))
    else if After("false", t).Some? then Some((Bool(false), After("false", t).value))
    else if After("\"", t).Some? then
      match ReadString(After("\"", t).value)
      case None => None
      case Some((s, rest)) => Some((Str(s), rest))
    else if n == 0 then None
    else
      assert forall i :: 0 <= i < n ==> t[..n][i] == t[i];
      Some((Number(t[..n]), t[n..]))
  }

  // Values (sections 3 to 5).

  ghost function ReadValue(t: string): (r: Option<(Json, string)>)
    ensures r.Some? ==> |r.value.1| < |t|
    decreases |t|, 0
  {
    if After("[]", t).Some? then Some((Arr([]), After("[]", t).value))
    else if After("{}", t).Some? then Some((Obj(map[]), After("{}", t).value))
    else if After("[", t).Some? then
      match ReadItems(After("[", t).value)
      case None => None
      case Some((s, rest)) => Some((Arr(s), rest))
    else if After("{", t).Some? then
      match ReadMembers(After("{", t).value, None)
      case None => None
      case Some((m, rest)) => Some((Obj(m), rest))
    else
      match ReadScalar(t)
      case None => None
      case Some((s, rest)) => Some((Leaf(s), rest))
  }

  /** One or more elements and the closing bracket. */
  ghost function ReadItems(t: string): (r: Option<(seq<Json>, string)>)
    ensures r.Some? ==> |r.value.1| < |t|
    decreases |t|, 1
  {
    match ReadValue(t)
    case None => None
    case Some((j, rest)) =>
      if After("]", rest).Some? then Some(([j], After("]", rest).value))
      else if After(", ", rest).None? then None
      else
        match ReadItems(After(", ", rest).value)
        case None => None
        case Some((s, rest')) => Some(([j] + s, rest'))
  }

  /** A key follows the one before it in ascending order. */
  ghost predicate Ascends(before: Option<string>, k: string) {
    before.Some? ==> before.value != k && TextInOrder(before.value, k)
  }

  /** One or more members and the closing brace; `before` is the key of the last member. */
  ghost function ReadMembers(t: string, before: Option<string>): (r: Option<(map<string, Json>, string)>)
    ensures r.Some? ==> |r.value.1| < |t|
    decreases |t|, 1
  {
    match ReadMember(t)
    case None => None
    case Some((k, j, rest)) =>
      if !Ascends(before, k) then None
      else if After("}", rest).Some? then Some((map[k := j], After("}", rest).value))
      else if After(", ", rest).None? then None
      else
        match ReadMembers(After(", ", rest).value, Some(k))
        case None => None
        case Some((m, rest')) => Some((m[k := j], rest'))
  }

  ghost function ReadMember(t: string): (r: Option<(string, Json, string)>)
    ensures r.Some? ==> |r.value.2| < |t|
    decreases |t|, 0
  {
    if After("\"", t).None? then None
    else
      match ReadString(After("\"", t).value)
      case None => None
      case Some((k, rest)) =>
        if After(": ", rest).None? then None
        else
          match ReadValue(After(": ", rest).value)
          case None => None
          case Some((j, rest')) => Some((k, j, rest'))
  }
}
