/** How json.dumps spells scalars: numbers as they are written, strings in quotes with
    everything outside printable ASCII escaped (RFC 8259, section 7). */
module Spelling {
  import opened Json

  function HexDigit(n: nat): char
    requires n < 16
  {
    "0123456789abcdef"[n]
  }

  function Hex2(n: nat): (s: string)
    requires n < 0x100
    ensures |s| == 2
  {
    [HexDigit(n / 0x10), HexDigit(n % 0x10)]
  }

  function Hex4(n: nat): (s: string)
    requires n < 0x1_0000
    ensures |s| == 4
  {
    Hex2(n / 0x100) + Hex2(n % 0x100)
  }

  function Unit(n: nat): string
    requires n < 0x1_0000
  {
    "\\u" + Hex4(n)
  }

  // Characters beyond the first 0x1_0000 are spelled as a surrogate pair.

  function High(n: nat): (h: nat)
    requires 0x1_0000 <= n < 0x11_0000
    ensures 0xD800 <= h < 0xDC00
  {
    0xD800 + (n - 0x1_0000) / 0x400
  }

  function Low(n: nat): (l: nat)
    requires 0x1_0000 <= n < 0x11_0000
    ensures 0xDC00 <= l < 0xE000
  {
    0xDC00 + (n - 0x1_0000) % 0x400
  }

  /** The letter of a two-character escape, for the characters that have one. */
  function ShortEscape(c: char): (e: char)
    ensures e in ['"', '\\', 'b', 'f', 'n', 'r', 't', '-']
  {
    if c == '"' || c == '\\' then c
    else if c as int == 8 then 'b'
    else if c as int == 12 then 'f'
    else if c == '\n' then 'n'
    else if c == '\r' then 'r'
    else if c == '\t' then 't'
    else '-'
  }

  function Escape(c: char): (e: string)
    ensures e != ""
  {
    var n := c as int;
    if ShortEscape(c) != '-' then ['\\', ShortEscape(c)]
    else if 0x20 <= n <= 0x7e then [c]
    else if n < 0x1_0000 then Unit(n)
    else Unit(High(n)) + Unit(Low(n))
  }

  function Quoted(s: string): (q: string)
    ensures q != ""
  {
    if s == "" then "\"" else Escape(s[0]) + Quoted(s[1..])
  }

  function Spell(s: Scalar): string {
    match s
    case Null => "null"
    case Bool(b) => if b then "true" else "false"
    case Number(text) => text
    case Str(s) => "\"" + Quoted(s)
  }
}
