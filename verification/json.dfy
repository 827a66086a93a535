/**
 * The JSON text the hospital registration form stores in the
 * `operating_hours` column: `JSON.stringify({ hours: s })`, an object whose
 * only member is "hours" (RFC 8259, section 4) and whose value is `s` as a
 * JSON string (RFC 8259, section 7), escaped as ECMAScript's QuoteJSONString
 * escapes it. A reader for that object proves the text gives `s` back.
 */
module Json {
  import opened Seqs

  const Backspace: char := '\U{0008}'
  const FormFeed: char := '\U{000C}'

  /** Lower-case hexadecimal digit for `n`, as QuoteJSONString writes it. */
  function HexDigit(n: nat): (c: char)
    requires n < 16
    ensures '0' <= c <= '9' || 'a' <= c <= 'f'
    ensures HexValue(c) == Some(n)
  {
    if n < 10 then ('0' as int + n) as char else ('a' as int + n - 10) as char
  }

  /** Value of a hexadecimal digit in either case (RFC 8259, section 7). */
  function HexValue(c: char): Option<nat> {
    if '0' <= c <= '9' then Some(c as int - '0' as int)
    else if 'a' <= c <= 'f' then Some(c as int - 'a' as int + 10)
    else if 'A' <= c <= 'F' then Some(c as int - 'A' as int + 10)
    else None
  }

  /** The escaped form of one code point inside a JSON string: the two-character
      escapes for quote, backslash, backspace, form feed, line feed, carriage
      return and tab, `\u00XX` for the other control characters, the code
      point itself for everything else. */
  function EscapeChar(c: char): (e: string)
    ensures e != [] && e[0] != '"'
    ensures forall i :: 0 <= i < |e| ==> e[i] >= ' '
  {
    if c == '"' then ['\\', '"']
    else if c == '\\' then ['\\', '\\']
    else if c == Backspace then ['\\', 'b']
    else if c == FormFeed then ['\\', 'f']
    else if c == '\n' then ['\\', 'n']
    else if c == '\r' then ['\\', 'r']
    else if c == '\t' then ['\\', 't']
    else if c < ' ' then ['\\', 'u', '0', '0', HexDigit(c as int / 16), HexDigit(c as int % 16)]
    else [c]
  }

  function EscapeAll(s: string): string {
    if s == [] then [] else EscapeChar(s[0]) + EscapeAll(s[1..])
  }

  /** `JSON.stringify(s)` for a string `s`. */
  function Quote(s: string): (q: string)
    ensures |q| >= 2 && q[0] == '"' && q[|q| - 1] == '"'
  {
    ['"'] + EscapeAll(s) + ['"']
  }

  /** The member name "hours" as `JSON.stringify` writes it: no character of
      it needs escaping (lemma `HoursKeyQuoted`). */
  const QuotedHours: string := ['"', 'h', 'o', 'u', 'r', 's', '"']

  /** `JSON.stringify({ hours: s })`. */
  function StringifyHours(s: string): string {
    ['{'] + QuotedHours + [':'] + Quote(s) + ['}']
  }

  /** Insignificant whitespace (RFC 8259, section 2). */
  predicate IsJsonSpace(c: char) {
    c == ' ' || c == '\t' || c == '\n' || c == '\r'
  }

  function SkipSpace(s: string): (r: string)
    ensures |r| <= |s|
    ensures r == [] || !IsJsonSpace(r[0])
  {
    if s != [] && IsJsonSpace(s[0]) then SkipSpace(s[1..]) else s
  }

  /** Four hexadecimal digits at the start of `s`, as a number. */
  function Hex4(s: string): Option<nat> {
    if |s| < 4 then None
    else match (HexValue(s[0]), HexValue(s[1]), HexValue(s[2]), HexValue(s[3]))
      case (Some(a), Some(b), Some(c), Some(d)) => Some(((a * 16 + b) * 16 + c) * 16 + d)
      case _ => None
  }

  predicate IsScalar(n: int) {
    0 <= n < 0xD800 || 0xE000 <= n < 0x11_0000
  }

  /** Decodes the escape sequence after a backslash: `e` is what follows it.
      A `\u` escape of a high surrogate must be followed by a `\u` escape of
      a low surrogate; the pair stands for one code point. */
  function Unescape(e: string): (r: Option<(char, string)>)
    ensures r.Some? ==> |r.value.1| < |e|
  {
    if e == [] then None
    else if e[0] == '"' then Some(('"', e[1..]))
    else if e[0] == '\\' then Some(('\\', e[1..]))
    else if e[0] == '/' then Some(('/', e[1..]))
    else if e[0] == 'b' then Some((Backspace, e[1..]))
    else if e[0] == 'f' then Some((FormFeed, e[1..]))
    else if e[0] == 'n' then Some(('\n', e[1..]))
    else if e[0] == 'r' then Some(('\r', e[1..]))
    else if e[0] == 't' then Some(('\t', e[1..]))
    else if e[0] == 'u' then
      match Hex4(e[1..])
      case None => None
      case Some(n) =>
        if IsScalar(n) then Some((n as char, e[5..]))
        else if 0xD800 <= n < 0xDC00 && |e| >= 7 && e[5] == '\\' && e[6] == 'u' then
          match Hex4(e[7..])
          case Some(m) =>
            if 0xDC00 <= m < 0xE000 then
              Some(((0x1_0000 + (n - 0xD800) * 0x400 + (m - 0xDC00)) as char, e[11..]))
            else None
          case None => None
        else None
    else None
  }

  /** The characters of a JSON string up to its closing quote: the decoded
      contents and the text after the quote. Unescaped control characters
      are refused. */
  function ParseChars(s: string): Option<(string, string)>
    decreases |s|
  {
    if s == [] then None
    else if s[0] == '"' then Some(([], s[1..]))
    else if s[0] < ' ' then None
    else
      var next := if s[0] == '\\' then Unescape(s[1..]) else Some((s[0], s[1..]));
      match next
      case None => None
      case Some((c, t)) =>
        match ParseChars(t)
        case None => None
        case Some((body, rest)) => Some(([c] + body, rest))
  }

  /** A JSON string at the start of `s` (after whitespace), and what follows. */
  function ParseString(s: string): Option<(string, string)> {
    var t := SkipSpace(s);
    if t != [] && t[0] == '"' then ParseChars(t[1..]) else None
  }

  /** Reads the stored `operating_hours` column: an object whose one member
      is named "hours" and holds a string. Anything else is refused. */
  function ParseHours(json: string): Option<string> {
    var a := SkipSpace(json);
    if a == [] || a[0] != '{' then None
    else match ParseString(a[1..])
      case None => None
      case Some((key, b)) =>
        var c := SkipSpace(b);
        if key != "hours" || c == [] || c[0] != ':' then None
        else match ParseString(c[1..])
          case None => None
          case Some((value, d)) =>
            var e := SkipSpace(d);
            if e != [] && e[0] == '}' && SkipSpace(e[1..]) == [] then Some(value) else None
  }

  /** The escaped form of one code point is decoded back to it. */
  lemma EscapeCharDecodes(c: char, t: string)
    ensures var e := EscapeChar(c) + t;
      e[0] != '"' && e[0] >= ' '
      && (if e[0] == '\\' then Unescape(e[1..]) else Some((e[0], e[1..]))) == Some((c, t))
  {
    var e := EscapeChar(c) + t;
    if c < ' ' && c != Backspace && c != FormFeed && c != '\n' && c != '\r' && c != '\t' {
      var hi, lo := c as int / 16, c as int % 16;
      var u := e[1..];
      assert u == ['u', '0', '0', HexDigit(hi), HexDigit(lo)] + t;
      assert u[1..][..4] == ['0', '0', HexDigit(hi), HexDigit(lo)];
      assert Hex4(u[1..]) == Some(((0 * 16 + 0) * 16 + hi) * 16 + lo);
      assert u[5..] == t;
    }
  }

  /** The escaped string followed by a closing quote is read back exactly. */
  lemma {:induction false} ParseEscaped(s: string, rest: string)
    ensures ParseChars(EscapeAll(s) + ['"'] + rest) == Some((s, rest))
  {
    if s == [] {
      assert EscapeAll(s) + ['"'] + rest == ['"'] + rest;
    } else {
      var t := EscapeAll(s[1..]) + ['"'] + rest;
      ParseEscaped(s[1..], rest);
      EscapeCharDecodes(s[0], t);
      assert EscapeAll(s) + ['"'] + rest == EscapeChar(s[0]) + t;
      assert [s[0]] + s[1..] == s;
    }
  }

  /** The quoted form holds no raw control character, as section 7 of
      RFC 8259 requires. */
  lemma {:induction false} EscapeAllPrintable(s: string)
    ensures forall i :: 0 <= i < |EscapeAll(s)| ==> EscapeAll(s)[i] >= ' '
  {
    if s != [] {
      EscapeAllPrintable(s[1..]);
      var e := EscapeChar(s[0]);
      var r := EscapeAll(s[1..]);
      assert forall i :: 0 <= i < |e + r| ==> (e + r)[i] == (if i < |e| then e[i] else r[i - |e|]);
    }
  }

  /** A quoted string, followed by anything, is read back exactly. */
  lemma ParseQuoted(s: string, rest: string)
    ensures ParseString(Quote(s) + rest) == Some((s, rest))
  {
    var q := Quote(s) + rest;
    assert q[0] == '"';
    assert q[1..] == EscapeAll(s) + ['"'] + rest;
    ParseEscaped(s, rest);
  }

  /** Text with no control character, quote or backslash is written as is. */
  lemma {:induction false} EscapeAllPlain(s: string)
    requires forall i :: 0 <= i < |s| ==> s[i] >= ' ' && s[i] != '"' && s[i] != '\\'
    ensures EscapeAll(s) == s
  {
    if s != [] {
      EscapeAllPlain(s[1..]);
      assert [s[0]] + s[1..] == s;
    }
  }

  lemma HoursKeyQuoted()
    ensures Quote("hours") == QuotedHours
  {
    var key := "hours";
    EscapeAllPlain(key);
  }

  /** Reading the stored `operating_hours` text gives back the entered string. */
  lemma HoursRoundTrip(s: string)
    ensures ParseHours(StringifyHours(s)) == Some(s)
  {
    var json := StringifyHours(s);
    var tail := [':'] + Quote(s) + ['}'];
    assert SkipSpace(json) == json by {
      assert json[0] == '{';
    }
    assert ParseString(json[1..]) == Some(("hours", tail)) by {
      assert json == ['{'] + (QuotedHours + tail);
      assert json[1..] == QuotedHours + tail;
      HoursKeyQuoted();
      ParseQuoted("hours", tail);
    }
    assert SkipSpace(tail) == tail by {
      assert tail[0] == ':';
    }
    assert ParseString(tail[1..]) == Some((s, ['}'])) by {
      assert tail[1..] == Quote(s) + ['}'];
      ParseQuoted(s, ['}']);
    }
    assert ['}'][1..] == [];
  }
}
