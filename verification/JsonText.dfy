/** String literals as a JSON encoder writes them: different texts never look alike, whatever follows them. */
module JsonText {
  import opened Basics

  function HexDigit(n: nat): char
    requires n < 16
  {
    "0123456789abcdef"[n]
  }

  /** One character inside a literal. */
  function Escape(c: char): (s: string)
    ensures s != "" && s[0] != '"'
  {
    match c
    case '"' => "\\\""
    case '\\' => "\\\\"
    case '\n' => "\\n"
    case '\r' => "\\r"
    case '\t' => "\\t"
    case '\U{0008}' => "\\b"
    case '\U{000C}' => "\\f"
    case _ => if c < ' ' then "\\u00" + [HexDigit(c as nat / 16), HexDigit(c as nat % 16)] else [c]
  }

  function Escaped(s: string): string { if s == "" then "" else Escape(s[0]) + Escaped(s[1..]) }

  function Quote(s: string): string { "\"" + Escaped(s) + "\"" }

  // ---- Reading a literal back (section 7 of RFC 8259) ----

  function HexValue(c: char): Option<nat> {
    if '0' <= c <= '9' then Some(c as nat - '0' as nat)
    else if 'a' <= c <= 'f' then Some(c as nat - 'a' as nat + 10)
    else None
  }

  /** The character after a backslash, if two characters are the whole escape. */
  function Short(c: char): Option<char> {
    match c
    case '"' => Some('"')
    case '\\' => Some('\\')
    case '/' => Some('/')
    case 'b' => Some('\U{0008}')
    case 'f' => Some('\U{000C}')
    case 'n' => Some('\n')
    case 'r' => Some('\r')
    case 't' => Some('\t')
    case _ => None
  }

  /** One character of a literal, and what comes after it. Of the escapes by code, those below 256 are read. */
  function ReadChar(t: string): Option<(char, string)> {
    if t == "" || t[0] == '"' || t[0] < ' ' then None
    else if t[0] != '\\' then Some((t[0], t[1..]))
    else if |t| < 2 then None
    else if t[1] != 'u' then
      var c := Short(t[1]);
      if c.Some? then Some((c.value, t[2..])) else None
    else if |t| < 6 || t[2] != '0' || t[3] != '0' then None
    else
      var high, low := HexValue(t[4]), HexValue(t[5]);
      if high.Some? && low.Some? then Some(((16 * high.value + low.value) as char, t[6..])) else None
  }

  /** What stands between the opening quote and the closing one, and what comes after it. */
  function ReadRest(t: string): Option<(string, string)>
    decreases |t|
  {
    if t != "" && t[0] == '"' then Some(("", t[1..]))
    else
      var one := ReadChar(t);
      if one.None? || |one.value.1| >= |t| then None
      else
        var rest := ReadRest(one.value.1);
        if rest.Some? then Some(([one.value.0] + rest.value.0, rest.value.1)) else None
  }

  /** A text that begins with a literal: what the literal says, and what comes after it. */
  function ReadLiteral(t: string): Option<(string, string)> {
    if t != "" && t[0] == '"' then ReadRest(t[1..]) else None
  }

  lemma HexBack(n: nat)
    requires n < 16
    ensures HexValue(HexDigit(n)) == Some(n)
  {}

  lemma CharBack(c: char, x: string)
    ensures ReadChar(Escape(c) + x) == Some((c, x)) && (Escape(c) + x)[0] != '"'
  {
    var t := Escape(c) + x;
    assert t[|Escape(c)|..] == x;
    if c < ' ' && c !in "\n\r\t\U{0008}\U{000C}" {
      HexBack(c as nat / 16);
      HexBack(c as nat % 16);
      assert |Escape(c)| == 6 && t[4] == HexDigit(c as nat / 16) && t[5] == HexDigit(c as nat % 16);
      assert (16 * (c as nat / 16) + c as nat % 16) as char == c;
    }
  }

  /** A written literal is read back as it was, whatever follows it. */
  lemma LiteralBack(s: string, rest: string)
    ensures ReadLiteral(Quote(s) + rest) == Some((s, rest))
  {
    assert (Quote(s) + rest)[1..] == Escaped(s) + ("\"" + rest);
    RestBack(s, rest);
  }

  lemma {:induction false} RestBack(s: string, rest: string)
    ensures ReadRest(Escaped(s) + ("\"" + rest)) == Some((s, rest))
  {
    hide ReadChar, Escape;
    var end := "\"" + rest;
    if s == "" {
      assert Escaped(s) + end == end && end[1..] == rest;
    } else {
      var more := Escaped(s[1..]) + end;
      assert Escaped(s) + end == Escape(s[0]) + more;
      CharBack(s[0], more);
      RestBack(s[1..], rest);
      assert [s[0]] + s[1..] == s;
    }
  }

  /** So different texts never look alike. */
  lemma QuoteInjective(s: string, x: string, t: string, y: string)
    requires Quote(s) + x == Quote(t) + y
    ensures s == t && x == y
  {
    LiteralBack(s, x);
    LiteralBack(t, y);
  }
}
