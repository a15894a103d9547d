/** The string layer of the JSON codec the chaincode relies on (Go's
    encoding/json): how a string is quoted when a record is marshalled, and
    how a quoted string is read back when a record is unmarshalled. */
module JsonText {
  import opened Results

  /** The digits Go's encoder writes in a \u escape (lower case). */
  const HexDigits: string := "0123456789abcdef"

  const Backspace: char := '\U{8}'
  const FormFeed: char := '\U{C}'
  const Replacement: char := '\U{FFFD}'

  /** JSON insignificant whitespace. */
  predicate IsSpace(c: char) {
    c == ' ' || c == '\t' || c == '\n' || c == '\r'
  }

  /** A character the encoder never writes unescaped: the JSON control
      characters, the two string delimiters, and the HTML-sensitive
      characters that Go escapes by default. */
  predicate NeedsEscape(c: char) {
    c < ' ' || c == '"' || c == '\\' || c == '<' || c == '>' || c == '&'
    || c == '\U{2028}' || c == '\U{2029}'
  }

  /** Go's escaping of one character inside a JSON string. */
  function EscapeChar(c: char): (e: string)
    ensures forall i :: 0 <= i < |e| ==> e[i] >= ' ' && e[i] != '<' && e[i] != '>' && e[i] != '&'
    ensures |e| > 0 && (NeedsEscape(c) <==> e[0] == '\\')
  {
    if c == '"' || c == '\\' then ['\\', c]
    else if c == Backspace then "\\b"
    else if c == FormFeed then "\\f"
    else if c == '\n' then "\\n"
    else if c == '\r' then "\\r"
    else if c == '\t' then "\\t"
    else if c < ' ' || c == '<' || c == '>' || c == '&' then
      "\\u00" + [HexDigits[c as int / 16], HexDigits[c as int % 16]]
    else if c == '\U{2028}' || c == '\U{2029}' then
      "\\u202" + [HexDigits[c as int % 16]]
    else [c]
  }

  /** The escaped body of a JSON string (without its quotes). */
  function Escape(s: string): string {
    if s == [] then [] else EscapeChar(s[0]) + Escape(s[1..])
  }

  /** A string as Go's marshaller writes it. */
  function Quote(s: string): string {
    "\"" + Escape(s) + "\""
  }

  function HexValue(c: char): int {
    if '0' <= c <= '9' then c as int - '0' as int
    else if 'a' <= c <= 'f' then c as int - 'a' as int + 10
    else if 'A' <= c <= 'F' then c as int - 'A' as int + 10
    else -1
  }

  /** Go's getu4: the code unit of a \uXXXX escape at the head of s, or -1. */
  function GetU4(s: string): (r: int)
    ensures r < 0x10000
    ensures r >= 0 ==> |s| >= 6 && s[0] == '\\' && s[1] == 'u'
  {
    if |s| < 6 || s[0] != '\\' || s[1] != 'u' then -1
    else
      var a, b, c, d := HexValue(s[2]), HexValue(s[3]), HexValue(s[4]), HexValue(s[5]);
      if a < 0 || b < 0 || c < 0 || d < 0 then -1
      else a * 0x1000 + b * 0x100 + c * 0x10 + d
  }

  /** Puts c in front of a parsed string body. */
  function Cons(c: char, r: Option<(string, string)>): Option<(string, string)> {
    match r
    case None => None
    case Some((v, rest)) => Some(([c] + v, rest))
  }

  /** Reads one escape sequence at the head of s (which starts with a
      backslash). Only the escapes Go's scanner admits are read: \" \\ \/
      \b \f \n \r \t and \u with four hex digits; any other one (\' among
      them) is a syntax error. As in Go's unquote, a lone or mismatched
      surrogate becomes U+FFFD. The result is the character and what follows. */
  function Unescape(s: string): (r: Option<(char, string)>)
    ensures r.Some? ==> |r.value.1| < |s|
  {
    if |s| < 2 || s[0] != '\\' then None
    else if s[1] == '"' || s[1] == '\\' || s[1] == '/' then Some((s[1], s[2..]))
    else if s[1] == 'b' then Some((Backspace, s[2..]))
    else if s[1] == 'f' then Some((FormFeed, s[2..]))
    else if s[1] == 'n' then Some(('\n', s[2..]))
    else if s[1] == 'r' then Some(('\r', s[2..]))
    else if s[1] == 't' then Some(('\t', s[2..]))
    else if s[1] == 'u' then
      var rr := GetU4(s);
      if rr < 0 then None
      else if 0xD800 <= rr < 0xE000 then
        var rr1 := GetU4(s[6..]);
        if rr < 0xDC00 && 0xDC00 <= rr1 < 0xE000 then
          Some((((rr - 0xD800) * 0x400 + (rr1 - 0xDC00) + 0x10000) as char, s[12..]))
        else
          Some((Replacement, s[6..]))
      else Some((rr as char, s[6..]))
    else None
  }

  /** Reads the body of a JSON string up to and including its closing quote;
      a raw control character is a syntax error. The result is the
      unescaped text and what follows the quote. */
  function ParseChars(s: string): (r: Option<(string, string)>)
    ensures r.Some? ==> |r.value.1| < |s|
    decreases |s|
  {
    if |s| == 0 then None
    else if s[0] == '"' then Some(([], s[1..]))
    else if s[0] == '\\' then
      match Unescape(s)
      case None => None
      case Some((c, rest)) => Cons(c, ParseChars(rest))
    else if s[0] < ' ' then None
    else Cons(s[0], ParseChars(s[1..]))
  }

  /** Reads a JSON string at the head of s. */
  function ParseString(s: string): (r: Option<(string, string)>)
    ensures r.Some? ==> |r.value.1| < |s|
  {
    if |s| > 0 && s[0] == '"' then ParseChars(s[1..]) else None
  }

  /** Drops leading whitespace. */
  function SkipSpace(s: string): (r: string)
    ensures |r| <= |s|
    ensures |r| > 0 ==> !IsSpace(r[0])
  {
    if |s| > 0 && IsSpace(s[0]) then SkipSpace(s[1..]) else s
  }

  lemma Assoc(a: string, b: string, c: string)
    ensures a + b + c == a + (b + c)
  {
  }

  lemma SkipSpaceNone(s: string)
    requires |s| > 0 && !IsSpace(s[0])
    ensures SkipSpace(s) == s
  {
  }

  /** The escaped text is HTML-safe and free of control characters, as Go
      promises for its default encoder. */
  lemma {:induction false} EscapeIsSafe(s: string)
    ensures forall i :: 0 <= i < |Escape(s)| ==> Escape(s)[i] >= ' ' && Escape(s)[i] != '<' && Escape(s)[i] != '>' && Escape(s)[i] != '&'
  {
    if s != [] {
      EscapeIsSafe(s[1..]);
      var e, r := EscapeChar(s[0]), Escape(s[1..]);
      assert Escape(s) == e + r;
      forall i | 0 <= i < |e + r|
        ensures (e + r)[i] >= ' ' && (e + r)[i] != '<' && (e + r)[i] != '>' && (e + r)[i] != '&'
      {
        if i >= |e| { assert (e + r)[i] == r[i - |e|]; }
      }
    }
  }

  lemma HexValueOfDigit(k: int)
    requires 0 <= k < 16
    ensures HexValue(HexDigits[k]) == k
  {
  }

  /** A backslash followed by anything but u is read exactly when it is one
      of the eight short escapes Go's scanner admits. */
  lemma ShortEscapes(c: char, t: string)
    requires c != 'u'
    ensures Unescape(['\\', c] + t).Some? <==> c in "\"\\/bfnrt"
  {
    var s := ['\\', c] + t;
    assert s[0] == '\\' && s[1] == c;
  }

  lemma UnescapeShort(c: char, t: string)
    requires c == '"' || c == '\\' || c == Backspace || c == FormFeed || c == '\n' || c == '\r' || c == '\t'
    ensures Unescape(EscapeChar(c) + t) == Some((c, t))
  {
    assert (EscapeChar(c) + t)[2..] == t;
  }

  lemma UnescapeAscii(c: char, t: string)
    requires c < ' ' || c == '<' || c == '>' || c == '&'
    requires !(c == '"' || c == '\\' || c == Backspace || c == FormFeed || c == '\n' || c == '\r' || c == '\t')
    ensures Unescape(EscapeChar(c) + t) == Some((c, t))
  {
    var u := EscapeChar(c) + t;
    var hi, lo := c as int / 16, c as int % 16;
    HexValueOfDigit(hi);
    HexValueOfDigit(lo);
    assert u[..6] == "\\u00" + [HexDigits[hi], HexDigits[lo]];
    assert GetU4(u) == hi * 16 + lo == c as int;
    assert u[6..] == t;
  }

  lemma UnescapeSeparator(c: char, t: string)
    requires c == '\U{2028}' || c == '\U{2029}'
    ensures Unescape(EscapeChar(c) + t) == Some((c, t))
  {
    var u := EscapeChar(c) + t;
    var lo := c as int % 16;
    HexValueOfDigit(lo);
    assert u[..6] == "\\u202" + [HexDigits[lo]];
    assert GetU4(u) == 0x2020 + lo == c as int;
    assert u[6..] == t;
  }

  /** The parser reads back one escaped character and nothing more. */
  lemma ParseEscapedChar(c: char, t: string)
    ensures ParseChars(EscapeChar(c) + t) == Cons(c, ParseChars(t))
  {
    var u := EscapeChar(c) + t;
    if c == '"' || c == '\\' || c == Backspace || c == FormFeed || c == '\n' || c == '\r' || c == '\t' {
      UnescapeShort(c, t);
    } else if c < ' ' || c == '<' || c == '>' || c == '&' {
      UnescapeAscii(c, t);
    } else if c == '\U{2028}' || c == '\U{2029}' {
      UnescapeSeparator(c, t);
    } else {
      assert u[1..] == t;
    }
  }

  /** Reading back an escaped body stops exactly at its closing quote. */
  lemma {:induction false} ParseEscaped(s: string, rest: string)
    ensures ParseChars(Escape(s) + "\"" + rest) == Some((s, rest))
  {
    if s == [] {
      assert Escape(s) + "\"" + rest == "\"" + rest;
    } else {
      var t := Escape(s[1..]) + "\"" + rest;
      assert Escape(s) + "\"" + rest == EscapeChar(s[0]) + t;
      ParseEscaped(s[1..], rest);
      ParseEscapedChar(s[0], t);
      assert [s[0]] + s[1..] == s;
    }
  }

  /** Quoting and parsing are inverse: a quoted string reads back as itself,
      whatever follows it. */
  lemma ParseQuoted(s: string, rest: string)
    ensures ParseString(Quote(s) + rest) == Some((s, rest))
  {
    assert (Quote(s) + rest)[1..] == Escape(s) + "\"" + rest;
    ParseEscaped(s, rest);
  }
}
