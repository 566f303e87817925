/**
 JSON values and the compact text the server's writers produce for them.

 A `char` stands for one byte of the C++ buffers; nothing here depends on
 values above 255.
 */
module JsonText {

  /** Scalars (numbers, true, false, null) are kept as opaque text. */
  datatype Json =
    | Scalar(text: string)
    | Str(text: string)
    | Arr(items: Items)
    | Obj(members: Members)

  datatype Items = NoItems | Item(value: Json, rest: Items)

  datatype Members = NoMembers | Member(key: string, value: Json, rest: Members)

  datatype Option<+T> = None | Some(value: T)

  function HexDigit(n: nat): (c: char)
    requires n < 16
  {
    if n < 10 then '0' + n as char else 'a' + (n - 10) as char
  }

  /** What `append_quoted` writes for one byte. */
  function EscapeChar(c: char): (s: string)
    ensures s != ""
  {
    if c == '"' then "\\\""
    else if c == '\\' then "\\\\"
    else if c == 8 as char then "\\b"
    else if c == 12 as char then "\\f"
    else if c == '\n' then "\\n"
    else if c == '\r' then "\\r"
    else if c == '\t' then "\\t"
    else if c as int < 0x20 then "\\u00" + [HexDigit(c as int / 16), HexDigit(c as int % 16)]
    else [c]
  }

  /** The bytes between the quotes; C text ends at its first NUL. */
  function Escape(text: string): string {
    if text == "" || text[0] == '\0' then ""
    else EscapeChar(text[0]) + Escape(text[1..])
  }

  function Quote(text: string): string {
    "\"" + Escape(text) + "\""
  }

  function Print(j: Json): string {
    match j
    case Scalar(text) => text
    case Str(text) => Quote(text)
    case Arr(items) => "[" + PrintItems(items, true) + "]"
    case Obj(members) => "{" + PrintMembers(members, true) + "}"
  }

  function Comma(first: bool): string {
    if first then "" else ","
  }

  function PrintItems(items: Items, first: bool): string {
    match items
    case NoItems => ""
    case Item(value, rest) => Comma(first) + Print(value) + PrintItems(rest, false)
  }

  function PrintMembers(members: Members, first: bool): string {
    match members
    case NoMembers => ""
    case Member(key, value, rest) =>
      Comma(first) + Quote(key) + ":" + Print(value) + PrintMembers(rest, false)
  }

  // ----- Reading a string back (section 7 of RFC 8259) -----

  function HexValue(c: char): (v: Option<nat>)
    ensures v.Some? ==> v.value < 16
  {
    if '0' <= c <= '9' then Some((c - '0') as nat)
    else if 'a' <= c <= 'f' then Some(10 + (c - 'a') as nat)
    else if 'A' <= c <= 'F' then Some(10 + (c - 'A') as nat)
    else None
  }

  /** One decoded character and the number of input characters it took. */
  function ReadChar(s: string): (r: Option<(char, nat)>)
    requires s != "" && s[0] != '"'
    ensures r.Some? ==> 0 < r.value.1 <= |s|
  {
    if s[0] as int < 0x20 then None
    else if s[0] != '\\' then Some((s[0], 1))
    else if |s| < 2 then None
    else if s[1] == '"' || s[1] == '\\' || s[1] == '/' then Some((s[1], 2))
    else if s[1] == 'b' then Some((8 as char, 2))
    else if s[1] == 'f' then Some((12 as char, 2))
    else if s[1] == 'n' then Some(('\n', 2))
    else if s[1] == 'r' then Some(('\r', 2))
    else if s[1] == 't' then Some(('\t', 2))
    else if s[1] == 'u' && |s| >= 6 && s[2] == '0' && s[3] == '0' then
      var hi, lo := HexValue(s[4]), HexValue(s[5]);
      if hi.Some? && lo.Some? then Some(((hi.value * 16 + lo.value) as char, 6)) else None
    else None
  }

  /** Decodes string contents up to the closing quote; also returns what follows it. */
  function ReadString(s: string): (r: Option<(string, string)>)
    decreases |s|
  {
    if s == "" then None
    else if s[0] == '"' then Some(("", s[1..]))
    else match ReadChar(s)
      case None => None
      case Some((c, n)) =>
        match ReadString(s[n..])
        case None => None
        case Some((text, rest)) => Some(([c] + text, rest))
  }

  /** The C text held in a buffer: everything before the first NUL. */
  function CText(text: string): string {
    if text == "" || text[0] == '\0' then "" else [text[0]] + CText(text[1..])
  }

  lemma ReadEscapedChar(c: char, rest: string)
    ensures (EscapeChar(c) + rest)[0] != '"'
    ensures ReadChar(EscapeChar(c) + rest) == Some((c, |EscapeChar(c)|))
  {
    var s := EscapeChar(c) + rest;
    if c as int < 0x20 && |EscapeChar(c)| == 6 {
      assert s[4] == HexDigit(c as int / 16) && s[5] == HexDigit(c as int % 16);
    }
  }

  /** `append_quoted` is lossless: a JSON reader gets the text back and stops at its quote. */
  lemma {:induction false} QuoteRoundTrip(text: string, rest: string)
    ensures ReadString(Escape(text) + "\"" + rest) == Some((CText(text), rest))
  {
    var s := Escape(text) + "\"" + rest;
    if text != "" && text[0] != '\0' {
      var c := EscapeChar(text[0]);
      var tail := Escape(text[1..]) + "\"" + rest;
      assert s == c + tail;
      ReadEscapedChar(text[0], tail);
      assert s[|c|..] == tail;
      QuoteRoundTrip(text[1..], rest);
    } else {
      assert s[1..] == rest;
    }
  }
}
