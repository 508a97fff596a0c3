/** The JSON side of the dual encoding of ingredients and instructions.
    `JSON.stringify` of a list of strings is modelled exactly (with a decoder
    proved to invert it); `JSON.parse` of arbitrary stored text is not: its
    outcome is an input to the functions that consume it, described only by
    the shape the application's code distinguishes. */
module Json {
  import opened Wrappers

  /** What the application's code observes of a parsed JSON value. */
  datatype JsonValue =
    | StringArray(items: seq<string>)  // an array whose elements are all strings
    | OtherArray                       // an array holding at least one non-string element
    | NonArray                         // any other JSON value (number, string, object, null, ...)

  /** The outcome of `JSON.parse(raw)`: a thrown SyntaxError or a value. */
  datatype JsonParse = ParseFailed | Parsed(value: JsonValue)

  function HexDigit(d: nat): char
    requires d < 16
  {
    "0123456789abcdef"[d]
  }

  predicate IsHexDigit(c: char)
  {
    '0' <= c <= '9' || 'a' <= c <= 'f'
  }

  function HexValue(c: char): (d: nat)
    requires IsHexDigit(c)
    ensures d < 16
  {
    if '0' <= c <= '9' then c as int - '0' as int else c as int - 'a' as int + 10
  }

  /** How `JSON.stringify` writes one character inside a string literal. */
  function EscapeChar(c: char): string
  {
    if c == '"' then "\\\""
    else if c == '\\' then "\\\\"
    else if c == '\U{8}' then "\\b"
    else if c == '\U{C}' then "\\f"
    else if c == '\n' then "\\n"
    else if c == '\r' then "\\r"
    else if c == '\t' then "\\t"
    else if c < ' ' then "\\u00" + [HexDigit(c as int / 16), HexDigit(c as int % 16)]
    else [c]
  }

  function Escape(s: string): string
    decreases |s|
  {
    if s == [] then [] else EscapeChar(s[0]) + Escape(s[1..])
  }

  function Quote(s: string): string
  {
    "\"" + Escape(s) + "\""
  }

  function QuotedList(items: seq<string>): string
    decreases |items|
  {
    if items == [] then ""
    else if |items| == 1 then Quote(items[0])
    else Quote(items[0]) + "," + QuotedList(items[1..])
  }

  /** `JSON.stringify(items)` for an array of strings. */
  function Stringify(items: seq<string>): (r: string)
    ensures |r| >= 2 && r[0] == '[' && r[|r| - 1] == ']'
    ensures items == [] <==> r == "[]"
  {
    "[" + QuotedList(items) + "]"
  }

  // ---------------------------------------------------------------- decoding

  /** The character a short escape (`\"`, `\\`, `\b`, `\f`, `\n`, `\r`, `\t`) stands for. */
  function ShortEscape(c: char): Option<char>
  {
    if c == '"' then Some('"')
    else if c == '\\' then Some('\\')
    else if c == 'b' then Some('\U{8}')
    else if c == 'f' then Some('\U{C}')
    else if c == 'n' then Some('\n')
    else if c == 'r' then Some('\r')
    else if c == 't' then Some('\t')
    else None
  }

  /** Reads the body of a string literal up to and including its closing quote:
      the decoded string and the text after the quote. */
  function ReadStringBody(s: string): (r: Option<(string, string)>)
    ensures r.Some? ==> |r.value.1| < |s|
    decreases |s|
  {
    if s == [] then None
    else if s[0] == '"' then Some(("", s[1..]))
    else if s[0] == '\\' then
      if |s| >= 2 && ShortEscape(s[1]).Some? then
        match ReadStringBody(s[2..])
        case Some((body, rest)) => Some(([ShortEscape(s[1]).value] + body, rest))
        case None => None
      else if |s| >= 6 && s[1] == 'u' && s[2] == '0' && s[3] == '0' && IsHexDigit(s[4]) && IsHexDigit(s[5]) then
        var code := 16 * HexValue(s[4]) + HexValue(s[5]);
        match ReadStringBody(s[6..])
        case Some((body, rest)) => Some(([code as char] + body, rest))
        case None => None
      else None
    else
      match ReadStringBody(s[1..])
      case Some((body, rest)) => Some(([s[0]] + body, rest))
      case None => None
  }

  /** Reads `"a","b",..."z"]`: one or more string literals separated by
      commas and closed by a bracket. */
  function ReadElements(s: string): Option<seq<string>>
    decreases |s|
  {
    if s == [] || s[0] != '"' then None
    else
      match ReadStringBody(s[1..])
      case None => None
      case Some((item, rest)) =>
        if rest == "]" then Some([item])
        else if rest != [] && rest[0] == ',' then
          match ReadElements(rest[1..])
          case Some(more) => Some([item] + more)
          case None => None
        else None
  }

  /** Decodes the text `Stringify` produces back into the list of strings. */
  function DecodeStringArray(s: string): Option<seq<string>>
  {
    if s == "[]" then Some([])
    else if s != [] && s[0] == '[' then ReadElements(s[1..])
    else None
  }

  /** `JSON.parse` agrees with the decoder on every text the decoder accepts:
      such a text parses to the array of exactly those strings. */
  predicate ParseAgrees(raw: string, parsed: JsonParse)
  {
    match DecodeStringArray(raw)
    case Some(items) => parsed == Parsed(StringArray(items))
    case None => true
  }

  lemma HexDigitRoundTrip(d: nat)
    requires d < 16
    ensures IsHexDigit(HexDigit(d)) && HexValue(HexDigit(d)) == d
  {
  }

  /** A character written as a two-character escape reads back. */
  lemma ShortEscapeRoundTrip(c: char, tail: string)
    requires c == '"' || c == '\\' || c == '\U{8}' || c == '\U{C}' || c == '\n' || c == '\r' || c == '\t'
    ensures |EscapeChar(c) + tail| >= 2
    ensures (EscapeChar(c) + tail)[0] == '\\' && ShortEscape((EscapeChar(c) + tail)[1]) == Some(c)
    ensures (EscapeChar(c) + tail)[2..] == tail
  {
  }

  /** A control character written as `\u00XX` reads back. */
  lemma UnicodeEscapeRoundTrip(c: char, tail: string)
    requires c < ' ' && !(c == '\U{8}' || c == '\U{C}' || c == '\n' || c == '\r' || c == '\t')
    ensures var s := EscapeChar(c) + tail;
      && |s| >= 6 && s[0] == '\\' && ShortEscape(s[1]).None? && s[1] == 'u' && s[2] == '0' && s[3] == '0'
      && IsHexDigit(s[4]) && IsHexDigit(s[5]) && (16 * HexValue(s[4]) + HexValue(s[5])) as char == c
      && s[6..] == tail
  {
    var h, l := c as int / 16, c as int % 16;
    HexDigitRoundTrip(h);
    HexDigitRoundTrip(l);
    var s := EscapeChar(c) + tail;
    assert s[4] == HexDigit(h) && s[5] == HexDigit(l);
  }

  lemma EscapeCharRoundTrip(c: char, tail: string)
    ensures ReadStringBody(EscapeChar(c) + tail) ==
      match ReadStringBody(tail)
      case Some((body, rest)) => Some(([c] + body, rest))
      case None => None
  {
    var s := EscapeChar(c) + tail;
    if c == '"' || c == '\\' || c == '\U{8}' || c == '\U{C}' || c == '\n' || c == '\r' || c == '\t' {
      ShortEscapeRoundTrip(c, tail);
    } else if c < ' ' {
      UnicodeEscapeRoundTrip(c, tail);
    } else {
      assert s[0] == c && s[1..] == tail;
    }
  }

  /** A written string literal body reads back as the original string. */
  lemma {:induction false} EscapeRoundTrip(x: string, rest: string)
    ensures ReadStringBody(Escape(x) + "\"" + rest) == Some((x, rest))
    decreases |x|
  {
    if x == [] {
      assert Escape(x) + "\"" + rest == "\"" + rest;
    } else {
      var tail := Escape(x[1..]) + "\"" + rest;
      assert Escape(x) + "\"" + rest == EscapeChar(x[0]) + tail;
      EscapeRoundTrip(x[1..], rest);
      EscapeCharRoundTrip(x[0], tail);
      assert [x[0]] + x[1..] == x;
    }
  }

  /** The last literal of a list, followed by the closing bracket. */
  lemma ReadLastElement(x: string)
    ensures ReadElements(Quote(x) + "]") == Some([x])
  {
    var s := Quote(x) + "]";
    EscapeRoundTrip(x, "]");
    assert s[1..] == Escape(x) + "\"" + "]";
  }

  /** One literal, a comma and the remaining literals. */
  lemma ReadNextElement(x: string, more: string, rest: seq<string>)
    requires ReadElements(more) == Some(rest)
    ensures ReadElements(Quote(x) + ("," + more)) == Some([x] + rest)
  {
    var after := "," + more;
    var body := Escape(x) + "\"" + after;
    var s := Quote(x) + after;
    assert s == "\"" + body;
    EscapeRoundTrip(x, after);
    AfterComma(more);
    assert ReadElements(s) == Some([x] + rest) by {
      assert s[0] == '"' && s[1..] == body;
    }
  }

  lemma AfterComma(more: string)
    ensures "," + more != "]" && ("," + more) != [] && ("," + more)[0] == ',' && ("," + more)[1..] == more
  {
    assert ("," + more)[0] == ',';
  }

  lemma {:induction false} QuotedListRoundTrip(items: seq<string>)
    requires items != []
    ensures ReadElements(QuotedList(items) + "]") == Some(items)
    decreases |items|
  {
    var x := items[0];
    if |items| == 1 {
      ReadLastElement(x);
      assert [x] == items;
    } else {
      var tail := QuotedList(items[1..]);
      assert QuotedList(items) == Quote(x) + "," + tail;
      assert QuotedList(items) + "]" == Quote(x) + ("," + (tail + "]"));
      QuotedListRoundTrip(items[1..]);
      ReadNextElement(x, tail + "]", items[1..]);
      assert [x] + items[1..] == items;
    }
  }

  /** Decoding what `JSON.stringify` wrote gives back the same list. */
  lemma StringifyRoundTrip(items: seq<string>)
    ensures DecodeStringArray(Stringify(items)) == Some(items)
  {
    var s := Stringify(items);
    if items != [] {
      QuotedListRoundTrip(items);
      assert QuotedList(items)[0] == '"';
      assert s[1] == '"';
      assert s != "[]";
      assert s[1..] == QuotedList(items) + "]";
    }
  }
}
