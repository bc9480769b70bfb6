/** The two quoting conventions a manifest passes through: it is written with the debug
    quoting of the language and read with JSON quoting. */
module JsonString {
  import opened JsonValue

  // ----- Writing: debug quoting -----

  predicate IsAscii(c: char) { (c as int) < 128 }

  function HexDigit(n: int): char
    requires 0 <= n < 16
  {
    if n < 10 then '0' + n as char else 'a' + (n - 10) as char
  }

  function Hex(n: nat): string {
    if n < 16 then [HexDigit(n)] else Hex(n / 16) + [HexDigit(n % 16)]
  }

  /** How one character is written. `shown` tells which characters beyond ASCII the Unicode
      tables of the language call printable: those are written as they are. */
  function EscapeDebug(shown: char -> bool, c: char): string {
    if c == '\0' then "\\0"
    else if c == '\t' then "\\t"
    else if c == '\n' then "\\n"
    else if c == '\r' then "\\r"
    else if c == '\"' then "\\\""
    else if c == '\\' then "\\\\"
    else if c < ' ' || c == 127 as char || (!IsAscii(c) && !shown(c)) then "\\u{" + Hex(c as int) + "}"
    else [c]
  }

  function EscapeAll(shown: char -> bool, s: string): string {
    if s == "" then "" else EscapeDebug(shown, s[0]) + EscapeAll(shown, s[1..])
  }

  function DebugQuote(shown: char -> bool, s: string): string { "\"" + (EscapeAll(shown, s) + "\"") }

  // ----- Reading: JSON strings -----

  predicate IsJsonSpace(c: char) { c == ' ' || c == '\t' || c == '\n' || c == '\r' }

  function HexValue(c: char): (v: Option<nat>)
    ensures v.Some? ==> v.value < 16
  {
    if '0' <= c <= '9' then Some((c - '0') as int)
    else if 'a' <= c <= 'f' then Some((c - 'a') as int + 10)
    else if 'A' <= c <= 'F' then Some((c - 'A') as int + 10)
    else None
  }

  function Hex4(s: string): (v: Option<nat>)
    ensures v.Some? ==> v.value < 0x10000 && |s| >= 4
  {
    if |s| < 4 then None
    else
      var a, b, c, d := HexValue(s[0]), HexValue(s[1]), HexValue(s[2]), HexValue(s[3]);
      if a.None? || b.None? || c.None? || d.None? then None
      else Some(((a.value * 16 + b.value) * 16 + c.value) * 16 + d.value)
  }

  /** The character of a `\u` escape and the number of characters it took after `\u`. */
  function UnicodeEscape(s: string): (r: Option<(char, nat)>)
    ensures r.Some? ==> 4 <= r.value.1 <= |s|
  {
    match Hex4(s)
    case None => None
    case Some(v) =>
      if v < 0xD800 || 0xE000 <= v then Some((v as char, 4))
      else if 0xDC00 <= v || |s| < 10 || s[4] != '\\' || s[5] != 'u' then None
      else match Hex4(s[6..])
        case Some(low) =>
          if 0xDC00 <= low < 0xE000 then Some(((0x10000 + (v - 0xD800) * 0x400 + (low - 0xDC00)) as char, 10)) else None
        case None => None
  }

  function SimpleEscape(c: char): Option<char> {
    if c == '\"' then Some('\"') else if c == '\\' then Some('\\') else if c == '/' then Some('/')
    else if c == 'b' then Some(8 as char) else if c == 'f' then Some(12 as char) else if c == 'n' then Some('\n')
    else if c == 'r' then Some('\r') else if c == 't' then Some('\t') else None
  }

  function Cons(c: char, rest: Option<(string, string)>): Option<(string, string)> {
    if rest.Some? then Some(([c] + rest.value.0, rest.value.1)) else None
  }

  /** The text up to the closing quote, and what follows it. */
  function Unescape(s: string): Option<(string, string)>
    decreases |s|
  {
    if s == "" then None
    else if s[0] == '\"' then Some(("", s[1..]))
    else if s[0] == '\\' then
      if |s| == 1 then None
      else if s[1] == 'u' then
        match UnicodeEscape(s[2..])
        case Some((c, n)) => Cons(c, Unescape(s[2 + n..]))
        case None => None
      else
        match SimpleEscape(s[1])
        case Some(c) => Cons(c, Unescape(s[2..]))
        case None => None
    else if s[0] < ' ' then None
    else Cons(s[0], Unescape(s[1..]))
  }

  function SkipSpace(s: string): string {
    if s != "" && IsJsonSpace(s[0]) then SkipSpace(s[1..]) else s
  }

  function ParseJsonString(raw: string): Option<string> {
    var s := SkipSpace(raw);
    if s == "" || s[0] != '\"' then None
    else match Unescape(s[1..])
      case Some((text, rest)) => if SkipSpace(rest) == "" then Some(text) else None
      case None => None
  }

  // ----- Where the two agree -----

  /** Printable, or one of the three control characters both conventions write alike. */
  predicate Portable(shown: char -> bool, c: char) {
    ' ' <= c < 127 as char || c == '\t' || c == '\n' || c == '\r' || (!IsAscii(c) && shown(c))
  }

  predicate AllPortable(shown: char -> bool, s: string) { forall i :: 0 <= i < |s| ==> Portable(shown, s[i]) }

  lemma {:induction false} UnescapeOne(shown: char -> bool, c: char, rest: string)
    ensures Unescape(EscapeDebug(shown, c) + rest) == if Portable(shown, c) then Cons(c, Unescape(rest)) else None
  {
    var e := EscapeDebug(shown, c);
    var s := e + rest;
    if |e| == 1 {
      assert s[1..] == rest;
    } else if !Portable(shown, c) && c != '\0' {
      assert s[0] == '\\' && s[1] == 'u' && s[2] == '{';
      assert s[2..][0] == '{';
      assert HexValue('{').None?;
      assert Hex4(s[2..]).None?;
    } else {
      assert s[0] == '\\' && s[1] == e[1] && s[2..] == rest;
    }
  }

  /** Unescaping what was escaped, exactly for portable text. */
  lemma {:induction false} UnescapeAll(shown: char -> bool, s: string, rest: string)
    ensures Unescape(EscapeAll(shown, s) + ("\"" + rest)) == if AllPortable(shown, s) then Some((s, rest)) else None
  {
    var tail := "\"" + rest;
    if s == "" {
      assert EscapeAll(shown, s) + tail == tail && tail[1..] == rest;
    } else {
      UnescapeAll(shown, s[1..], rest);
      UnescapeOne(shown, s[0], EscapeAll(shown, s[1..]) + tail);
      assert EscapeAll(shown, s) + tail == EscapeDebug(shown, s[0]) + (EscapeAll(shown, s[1..]) + tail);
      assert s == [s[0]] + s[1..];
      PortableHead(shown, s);
    }
  }

  lemma {:induction false} PortableHead(shown: char -> bool, s: string)
    requires s != ""
    ensures AllPortable(shown, s) <==> Portable(shown, s[0]) && AllPortable(shown, s[1..])
  {
    assert forall i :: 0 < i < |s| ==> s[i] == s[1..][i - 1];
    assert forall i :: 0 <= i < |s| - 1 ==> s[1..][i] == s[i + 1];
  }

  /** JSON reads the debug quoting of a text back if and only if the text is portable, and
      otherwise rejects it: it never reads another text. */
  lemma {:induction false} QuotingAgrees(shown: char -> bool, s: string)
    ensures ParseJsonString(DebugQuote(shown, s)) == if AllPortable(shown, s) then Some(s) else None
  {
    UnescapeAll(shown, s, "");
    var q := DebugQuote(shown, s);
    assert "\"" + "" == "\"";
    assert q[1..] == EscapeAll(shown, s) + ("\"" + "");
  }
}
