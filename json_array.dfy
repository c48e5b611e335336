/**
 * The JSON text of a list of strings, as `json.Marshal` writes a `[]string`
 * and as `types.JSONArray[string]` reads it back when a dump row is scanned.
 *
 * The writer follows Go's escaping: quote and backslash, the short escapes for
 * backspace, form feed, newline, carriage return and tab, `\u00XX` for the
 * other control characters and for `<`, `>` and `&`, and `\u2028`/`\u2029`
 * for the line and paragraph separators; every other character is written as
 * itself. The reader accepts that form (no whitespace between tokens), every
 * JSON escape outside the surrogate range, `null` and the empty text.
 */
module JsonArray {
  import opened Wrappers

  function HexChar(n: int): (c: char)
    requires 0 <= n < 16
  {
    if n < 10 then ('0' as int + n) as char else ('a' as int + n - 10) as char
  }

  /** The value of a hexadecimal digit of either case. */
  function HexValue(c: char): (v: Option<int>)
    ensures v.Some? ==> 0 <= v.value < 16
    ensures forall n :: 0 <= n < 16 && c == HexChar(n) ==> v == Some(n)
  {
    if '0' <= c <= '9' then Some(c as int - '0' as int)
    else if 'a' <= c <= 'f' then Some(c as int - 'a' as int + 10)
    else if 'A' <= c <= 'F' then Some(c as int - 'A' as int + 10)
    else None
  }

  /** The character as it appears inside a JSON string literal. */
  function EscapeChar(c: char): string {
    if c == '"' then "\\\""
    else if c == '\\' then "\\\\"
    else if c == '\n' then "\\n"
    else if c == '\r' then "\\r"
    else if c == '\t' then "\\t"
    else if c == '\U{8}' then "\\b"
    else if c == '\U{C}' then "\\f"
    else if c < ' ' || c == '<' || c == '>' || c == '&' then
      "\\u00" + [HexChar(c as int / 16), HexChar(c as int % 16)]
    else if c == '\U{2028}' then "\\u2028"
    else if c == '\U{2029}' then "\\u2029"
    else [c]
  }

  function EscapeAll(s: string): string {
    if s == [] then "" else EscapeChar(s[0]) + EscapeAll(s[1..])
  }

  /** A string literal. */
  function Quote(s: string): string {
    "\"" + EscapeAll(s) + "\""
  }

  function Elements(xs: seq<string>): string
    requires xs != []
  {
    if |xs| == 1 then Quote(xs[0]) else Quote(xs[0]) + "," + Elements(xs[1..])
  }

  /** `json.Marshal(xs)` for a non-nil slice. */
  function Marshal(xs: seq<string>): string {
    if xs == [] then "[]" else "[" + Elements(xs) + "]"
  }

  /** The four hexadecimal digits of a `\u` escape. */
  function Hex4(s: string): (v: Option<int>)
    requires |s| == 4
    ensures v.Some? ==> 0 <= v.value < 0x10000
  {
    match (HexValue(s[0]), HexValue(s[1]), HexValue(s[2]), HexValue(s[3]))
    case (Some(a), Some(b), Some(c), Some(d)) => Some(((a * 16 + b) * 16 + c) * 16 + d)
    case _ => None
  }

  /** The character an escape (the text after the backslash) stands for, and the rest. */
  function ParseEscape(s: string): (r: Option<(char, string)>)
    ensures r.Some? ==> |r.value.1| < |s|
  {
    if s == [] then None
    else if s[0] == '"' then Some(('"', s[1..]))
    else if s[0] == '\\' then Some(('\\', s[1..]))
    else if s[0] == '/' then Some(('/', s[1..]))
    else if s[0] == 'b' then Some(('\U{8}', s[1..]))
    else if s[0] == 'f' then Some(('\U{C}', s[1..]))
    else if s[0] == 'n' then Some(('\n', s[1..]))
    else if s[0] == 'r' then Some(('\r', s[1..]))
    else if s[0] == 't' then Some(('\t', s[1..]))
    else if s[0] == 'u' && |s| >= 5 then
      match Hex4(s[1..5])
      case Some(v) => if 0xD800 <= v < 0xE000 then None else Some((v as char, s[5..]))
      case None => None
    else None
  }

  /** `c` put in front of a parsed string. */
  function Cons(c: char, r: Option<(string, string)>): Option<(string, string)> {
    if r.None? then None else Some(([c] + r.value.0, r.value.1))
  }

  /** The characters of a string literal up to its closing quote, and the text after it. */
  function ParseChars(s: string): (r: Option<(string, string)>)
    ensures r.Some? ==> |r.value.1| < |s|
    decreases |s|
  {
    if s == [] then None
    else if s[0] == '"' then Some(("", s[1..]))
    else if s[0] == '\\' then
      match ParseEscape(s[1..])
      case Some((c, rest)) => Cons(c, ParseChars(rest))
      case None => None
    else if s[0] < ' ' then None
    else Cons(s[0], ParseChars(s[1..]))
  }

  /** The elements of a non-empty array, from the first element's quote to the closing bracket. */
  function ParseElements(s: string): Option<seq<string>>
    decreases |s|
  {
    if s == [] || s[0] != '"' then None
    else
      match ParseChars(s[1..])
      case None => None
      case Some((x, rest)) =>
        if rest == "]" then Some([x])
        else if rest != [] && rest[0] == ',' then
          match ParseElements(rest[1..])
          case Some(xs) => Some([x] + xs)
          case None => None
        else None
  }

  /** Scanning a `JSONArray[string]` column: empty text and `null` read as the empty list. */
  function Unmarshal(s: string): Option<seq<string>> {
    if s == "" || s == "null" || s == "[]" then Some([])
    else if |s| >= 2 && s[0] == '[' then ParseElements(s[1..])
    else None
  }

  lemma ParseEscapeHex(c: char, rest: string)
    requires c < ' ' || c == '<' || c == '>' || c == '&'
    ensures ParseEscape("u00" + [HexChar(c as int / 16), HexChar(c as int % 16)] + rest) == Some((c, rest))
  {
    var s := "u00" + [HexChar(c as int / 16), HexChar(c as int % 16)] + rest;
    assert s[1..5] == ['0', '0', HexChar(c as int / 16), HexChar(c as int % 16)];
    assert HexValue('0') == Some(0);
    assert Hex4(s[1..5]) == Some(c as int);
    assert s[5..] == rest;
  }

  /** One encoded character reads back as itself. */
  lemma ParseEscapedChar(c: char, rest: string)
    ensures ParseChars(EscapeChar(c) + rest) == Cons(c, ParseChars(rest))
  {
    if c == '"' || c == '\\' || c == '\n' || c == '\r' || c == '\t' || c == '\U{8}' || c == '\U{C}' {
      ParseShortEscape(c, rest);
      ParseBackslash(c, rest);
    } else if c < ' ' || c == '<' || c == '>' || c == '&' {
      assert EscapeChar(c)[1..] == "u00" + [HexChar(c as int / 16), HexChar(c as int % 16)];
      ParseEscapeHex(c, rest);
      ParseBackslash(c, rest);
    } else if c == '\U{2028}' || c == '\U{2029}' {
      ParseSeparatorEscape(c, rest);
      ParseBackslash(c, rest);
    } else {
      var s := EscapeChar(c) + rest;
      assert s[0] == c && s[1..] == rest;
    }
  }

  /** An escaped character: the backslash, then an escape that reads back as the character. */
  lemma ParseBackslash(c: char, rest: string)
    requires |EscapeChar(c)| >= 2 && EscapeChar(c)[0] == '\\'
    requires ParseEscape(EscapeChar(c)[1..] + rest) == Some((c, rest))
    ensures ParseChars(EscapeChar(c) + rest) == Cons(c, ParseChars(rest))
  {
    var s := EscapeChar(c) + rest;
    assert s[0] == '\\' && s[1..] == EscapeChar(c)[1..] + rest;
  }

  /** The two-character escapes read back. */
  lemma ParseShortEscape(c: char, rest: string)
    requires c == '"' || c == '\\' || c == '\n' || c == '\r' || c == '\t' || c == '\U{8}' || c == '\U{C}'
    ensures |EscapeChar(c)| == 2 && EscapeChar(c)[0] == '\\'
    ensures ParseEscape(EscapeChar(c)[1..] + rest) == Some((c, rest))
  {
    var e := EscapeChar(c)[1..] + rest;
    assert e[0] == EscapeChar(c)[1] && e[1..] == rest;
  }

  /** The line and paragraph separators read back from their `\u` escapes. */
  lemma ParseSeparatorEscape(c: char, rest: string)
    requires c == '\U{2028}' || c == '\U{2029}'
    ensures |EscapeChar(c)| == 6 && EscapeChar(c)[0] == '\\'
    ensures ParseEscape(EscapeChar(c)[1..] + rest) == Some((c, rest))
  {
    var e := EscapeChar(c)[1..] + rest;
    assert e[0] == 'u' && e[1..5] == EscapeChar(c)[2..6];
    assert HexValue('2') == Some(2) && HexValue('0') == Some(0) && HexValue('8') == Some(8) && HexValue('9') == Some(9);
    assert e[5..] == rest;
  }

  /** An escaped string followed by its closing quote reads back as the string. */
  lemma {:induction false} ParseEscapedString(x: string, rest: string)
    ensures ParseChars(EscapeAll(x) + "\"" + rest) == Some((x, rest))
    decreases |x|
  {
    if x == [] {
      assert EscapeAll(x) + "\"" + rest == "\"" + rest;
    } else {
      assert EscapeAll(x) + "\"" + rest == EscapeChar(x[0]) + (EscapeAll(x[1..]) + "\"" + rest);
      ParseEscapedChar(x[0], EscapeAll(x[1..]) + "\"" + rest);
      ParseEscapedString(x[1..], rest);
      assert [x[0]] + x[1..] == x;
    }
  }

  /** The first element of an array body is read, then the text after it decides. */
  lemma ParseElementsHead(x: string, rest: string)
    ensures ParseElements(Quote(x) + rest) ==
              if rest == "]" then Some([x])
              else if rest != [] && rest[0] == ',' then
                match ParseElements(rest[1..])
                case Some(xs) => Some([x] + xs)
                case None => None
              else None
  {
    var s := Quote(x) + rest;
    assert s[0] == '"' && s[1..] == EscapeAll(x) + "\"" + rest;
    ParseEscapedString(x, rest);
  }

  lemma {:induction false} ParseMarshalledElements(xs: seq<string>)
    requires xs != []
    ensures ParseElements(Elements(xs) + "]") == Some(xs)
    decreases |xs|
  {
    if |xs| == 1 {
      ParseElementsHead(xs[0], "]");
      assert [xs[0]] == xs;
    } else {
      ParseMarshalledElements(xs[1..]);
      ParseElementsNext(xs[0], xs[1..]);
      assert Elements(xs) == Quote(xs[0]) + "," + Elements(xs[1..]);
      assert [xs[0]] + xs[1..] == xs;
    }
  }

  /** An element followed by a comma and a body that reads back reads back as one more element. */
  lemma ParseElementsNext(x: string, more: seq<string>)
    requires more != [] && ParseElements(Elements(more) + "]") == Some(more)
    ensures ParseElements(Quote(x) + "," + Elements(more) + "]") == Some([x] + more)
  {
    var tail := "," + (Elements(more) + "]");
    assert Quote(x) + "," + Elements(more) + "]" == Quote(x) + tail;
    assert tail != "]" && tail[0] == ',' && tail[1..] == Elements(more) + "]";
    ParseElementsHead(x, tail);
  }

  /** Scanning the text `json.Marshal` wrote gives back the same list, in order. */
  lemma UnmarshalMarshal(xs: seq<string>)
    ensures Unmarshal(Marshal(xs)) == Some(xs)
  {
    if xs != [] {
      var s := Marshal(xs);
      assert s[1..] == Elements(xs) + "]";
      assert s != "" && s != "null" && s != "[]" by {
        assert s[1] == '"';
      }
      ParseMarshalledElements(xs);
    }
  }
}
