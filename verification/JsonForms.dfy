/** The JSON string reader against the string grammar, section 7 of RFC 8259. */
module JsonForms {
  import opened JsonValue
  import opened JsonString
  import opened Sequences

  // ----- The grammar -----

  ghost predicate HexDigitIs(c: char, v: nat) {
    v < 16 && if v < 10 then c == '0' + v as char else c == 'a' + (v - 10) as char || c == 'A' + (v - 10) as char
  }

  /** Four hexadecimal digits, in either case, that spell `n`. */
  ghost predicate Spells(d: string, n: nat) {
    |d| == 4 && exists a: nat, b: nat, c: nat, e: nat ::
      && HexDigitIs(d[0], a) && HexDigitIs(d[1], b) && HexDigitIs(d[2], c) && HexDigitIs(d[3], e)
      && n == ((a * 16 + b) * 16 + c) * 16 + e
  }

  ghost predicate ShortIs(letter: char, c: char) {
    || (letter == '\"' && c == '\"') || (letter == '\\' && c == '\\') || (letter == '/' && c == '/')
    || (letter == 'b' && c as int == 8) || (letter == 'f' && c as int == 12) || (letter == 'n' && c as int == 10)
    || (letter == 'r' && c as int == 13) || (letter == 't' && c as int == 9)
  }

  /** The ways to write one character: as itself, with a short escape, with one `\u` escape, or
      beyond 0xFFFF with the two of a surrogate pair. */
  ghost predicate Writes(w: string, c: char) {
    || (w == [c] && c as int >= 32 && c != '\"' && c != '\\')
    || (|w| == 2 && w[0] == '\\' && ShortIs(w[1], c))
    || (|w| == 6 && w[0] == '\\' && w[1] == 'u' && Spells(w[2..], c as int))
    || PairWrites(w, c)
  }

  ghost predicate PairWrites(w: string, c: char) {
    && |w| == 12 && c as int >= 0x1_0000 && w[0] == '\\' && w[1] == 'u' && w[6] == '\\' && w[7] == 'u'
    && Spells(w[2..6], 0xD800 + (c as int - 0x1_0000) / 0x400) && Spells(w[8..12], 0xDC00 + (c as int - 0x1_0000) % 0x400)
  }

  /** The text between the quotes writes `s`, character by character. */
  ghost predicate WritesAll(w: string, s: string)
    decreases |s|
  {
    if s == "" then w == "" else exists k: nat :: k <= |w| && Writes(w[..k], s[0]) && WritesAll(w[k..], s[1..])
  }

  ghost predicate Blank(s: string) {
    forall i :: 0 <= i < |s| ==> s[i] as int == 32 || s[i] as int == 9 || s[i] as int == 10 || s[i] as int == 13
  }

  /** A JSON text that is one string, with blanks around it. */
  ghost predicate IsText(raw: string, s: string) {
    exists before: string, body: string, after: string ::
      Framed(raw, before, body, after) && Blank(before) && Blank(after) && WritesAll(body, s)
  }

  ghost predicate Framed(raw: string, before: string, body: string, after: string) {
    raw == before + ("\"" + (body + ("\"" + after)))
  }

  // ----- Escapes -----

  lemma {:induction false} HexValueMeans(c: char, v: nat)
    ensures HexValue(c) == Some(v) <==> HexDigitIs(c, v)
  {
  }

  lemma {:induction false} Hex4Means(s: string, n: nat)
    ensures Hex4(s) == Some(n) <==> |s| >= 4 && Spells(s[..4], n)
  {
    if |s| >= 4 {
      assert s[..4][0] == s[0] && s[..4][1] == s[1] && s[..4][2] == s[2] && s[..4][3] == s[3];
      if Hex4(s) == Some(n) {
        HexValueMeans(s[0], HexValue(s[0]).value);
        HexValueMeans(s[1], HexValue(s[1]).value);
        HexValueMeans(s[2], HexValue(s[2]).value);
        HexValueMeans(s[3], HexValue(s[3]).value);
      }
      if Spells(s[..4], n) {
        var a: nat, b: nat, c: nat, e: nat :|
          HexDigitIs(s[..4][0], a) && HexDigitIs(s[..4][1], b) && HexDigitIs(s[..4][2], c) && HexDigitIs(s[..4][3], e) &&
          n == ((a * 16 + b) * 16 + c) * 16 + e;
        HexValueMeans(s[0], a);
        HexValueMeans(s[1], b);
        HexValueMeans(s[2], c);
        HexValueMeans(s[3], e);
      }
    }
  }

  lemma {:induction false} ShortMeans(letter: char, c: char)
    ensures SimpleEscape(letter) == Some(c) <==> ShortIs(letter, c)
  {
  }

  // ----- Reading what is written -----

  lemma {:induction false} WrittenReads(w: string, c: char, rest: string)
    requires Writes(w, c)
    ensures Unescape(w + rest) == Cons(c, Unescape(rest))
  {
    var t := w + rest;
    if w == [c] && c as int >= 32 && c != '\"' && c != '\\' {
      assert t[0] == c && t[1..] == rest;
    } else if |w| == 2 && w[0] == '\\' && ShortIs(w[1], c) {
      ShortMeans(w[1], c);
      assert t[0] == w[0] && t[1] == w[1] && t[2..] == rest;
    } else if |w| == 6 && w[0] == '\\' && w[1] == 'u' && Spells(w[2..], c as int) {
      assert t[0] == w[0] && t[1] == w[1] && t[2..] == w[2..] + rest && t[6..] == rest && t[2..][..4] == w[2..];
      Hex4Means(t[2..], c as int);
      assert UnicodeEscape(t[2..]) == Some((c, 4));
      assert t[2 + 4..] == rest;
    } else {
      PairReads(w, c, rest);
    }
  }

  lemma {:induction false} PairReads(w: string, c: char, rest: string)
    requires PairWrites(w, c)
    ensures Unescape(w + rest) == Cons(c, Unescape(rest))
  {
    var t := w + rest;
    var high, low := 0xD800 + (c as int - 0x1_0000) / 0x400, 0xDC00 + (c as int - 0x1_0000) % 0x400;
    assert t[0] == w[0] && t[1] == w[1] && t[12..] == rest;
    assert t[2..][..4] == w[2..6] && t[2..][4] == w[6] && t[2..][5] == w[7] && t[2..][6..][..4] == w[8..12];
    Hex4Means(t[2..], high);
    Hex4Means(t[2..][6..], low);
    assert (high - 0xD800) * 0x400 + (low - 0xDC00) == c as int - 0x1_0000;
    assert UnicodeEscape(t[2..]) == Some((c, 10));
    assert t[2 + 10..] == rest;
  }

  lemma {:induction false} AllWrittenReads(w: string, s: string, rest: string)
    requires WritesAll(w, s)
    ensures Unescape(w + ("\"" + rest)) == Some((s, rest))
    decreases |s|
  {
    var tail := "\"" + rest;
    if s == "" {
      assert w + tail == tail && tail[1..] == rest;
    } else {
      var first, more := FirstWritten(w, s);
      AllWrittenReads(more, s[1..], rest);
      OneMoreReads(first, more, s[0], s[1..], rest);
      assert s == [s[0]] + s[1..];
    }
  }

  lemma {:induction false} FirstWritten(w: string, s: string) returns (first: string, more: string)
    requires WritesAll(w, s) && s != ""
    ensures w == first + more && Writes(first, s[0]) && WritesAll(more, s[1..])
  {
    var k: nat :| k <= |w| && Writes(w[..k], s[0]) && WritesAll(w[k..], s[1..]);
    first, more := w[..k], w[k..];
  }

  lemma {:induction false} OneMoreReads(first: string, more: string, c: char, s: string, rest: string)
    requires Writes(first, c) && Unescape(more + ("\"" + rest)) == Some((s, rest))
    ensures Unescape((first + more) + ("\"" + rest)) == Some(([c] + s, rest))
  {
    WrittenReads(first, c, more + ("\"" + rest));
    SeqAssociative(first, more, "\"" + rest);
  }

  lemma {:induction false} OneMoreWritten(first: string, more: string, c: char, s: string)
    requires Writes(first, c) && WritesAll(more, s)
    ensures WritesAll(first + more, [c] + s)
  {
    var w, k := first + more, |first|;
    assert w[..k] == first && w[k..] == more && ([c] + s)[1..] == s;
  }

  // ----- Only that is read -----

  /** What the reader takes first is a way to write the first character. */
  lemma {:induction false} FirstIsWritten(t: string) returns (k: nat)
    requires Unescape(t).Some? && Unescape(t).value.0 != ""
    ensures 0 < k <= |t| && Writes(t[..k], Unescape(t).value.0[0])
            && Unescape(t[k..]) == Some((Unescape(t).value.0[1..], Unescape(t).value.1))
  {
    if t[0] != '\\' {
      k := 1;
      assert t[..1] == [t[0]];
    } else if t[1] != 'u' {
      k := 2;
      ShortMeans(t[1], SimpleEscape(t[1]).value);
    } else {
      var escape := UnicodeEscape(t[2..]).value;
      k := 2 + escape.1;
      EscapeIsWritten(t, escape.0, escape.1);
    }
  }

  lemma {:induction false} EscapeIsWritten(t: string, c: char, n: nat)
    requires |t| >= 2 && t[0] == '\\' && t[1] == 'u' && UnicodeEscape(t[2..]) == Some((c, n))
    ensures 2 + n <= |t| && Writes(t[..2 + n], c)
  {
    var s := t[2..];
    var v := Hex4(s).value;
    Hex4Means(s, v);
    if n == 4 {
      assert t[..6][2..] == s[..4];
    } else {
      var low := Hex4(s[6..]).value;
      Hex4Means(s[6..], low);
      var w := t[..12];
      assert w[2..6] == s[..4] && w[8..12] == s[6..][..4] && w[6] == s[4] && w[7] == s[5];
      var m := (v - 0xD800) * 0x400 + (low - 0xDC00);
      assert m / 0x400 == v - 0xD800 && m % 0x400 == low - 0xDC00 && c as int == 0x1_0000 + m;
      assert PairWrites(w, c);
    }
  }

  lemma {:induction false} ReadIsWritten(t: string) returns (body: string)
    requires Unescape(t).Some?
    ensures t == body + ("\"" + Unescape(t).value.1) && WritesAll(body, Unescape(t).value.0)
    decreases |t|
  {
    var (s, rest) := Unescape(t).value;
    if s == "" {
      body := "";
      EmptyIsQuote(t);
      assert t == "\"" + rest && body + ("\"" + rest) == "\"" + rest;
    } else {
      var k := FirstIsWritten(t);
      var more := ReadIsWritten(t[k..]);
      body := t[..k] + more;
      OneMoreWritten(t[..k], more, s[0], s[1..]);
      assert s == [s[0]] + s[1..];
      PutTogether(t, k, more, rest);
    }
  }

  lemma {:induction false} PutTogether(t: string, k: nat, more: string, rest: string)
    requires k <= |t| && t[k..] == more + ("\"" + rest)
    ensures t == (t[..k] + more) + ("\"" + rest)
  {
    assert t == t[..k] + t[k..];
  }

  lemma {:induction false} EmptyIsQuote(t: string)
    requires Unescape(t).Some? && Unescape(t).value.0 == ""
    ensures t != "" && t[0] == '\"' && Unescape(t).value.1 == t[1..]
  {
  }

  // ----- Whole texts -----

  lemma {:induction false} SkipMeans(s: string) returns (before: string)
    ensures s == before + SkipSpace(s) && Blank(before)
    ensures SkipSpace(s) != "" ==> !IsJsonSpace(SkipSpace(s)[0])
  {
    if s != "" && IsJsonSpace(s[0]) {
      var more := SkipMeans(s[1..]);
      before := [s[0]] + more;
      assert s == [s[0]] + s[1..];
    } else {
      before := "";
    }
  }

  lemma {:induction false} SkipBlank(before: string, rest: string)
    requires Blank(before)
    ensures SkipSpace(before + rest) == SkipSpace(rest)
  {
    if before == "" {
      assert before + rest == rest;
    } else {
      assert (before + rest)[1..] == before[1..] + rest;
      SkipBlank(before[1..], rest);
    }
  }

  /** The reader accepts a text if and only if it is one JSON string with blanks around it, and
      returns what that string writes. */
  lemma {:induction false} StringsMean(raw: string, s: string)
    ensures ParseJsonString(raw) == Some(s) <==> IsText(raw, s)
  {
    if ParseJsonString(raw) == Some(s) { ReadIsText(raw, s); }
    if IsText(raw, s) {
      var before: string, body: string, after: string :|
        Framed(raw, before, body, after) && Blank(before) && Blank(after) && WritesAll(body, s);
      TextReads(before, body, after, s);
    }
  }

  lemma {:induction false} ReadIsText(raw: string, s: string)
    requires ParseJsonString(raw) == Some(s)
    ensures IsText(raw, s)
  {
    var before := SkipMeans(raw);
    var t := SkipSpace(raw);
    var body := ReadIsWritten(t[1..]);
    var after := Unescape(t[1..]).value.1;
    OnlyBlank(after);
    FramedBy(raw, before, t, body, after);
  }

  lemma {:induction false} FramedBy(raw: string, before: string, t: string, body: string, after: string)
    requires raw == before + t && t != "" && t[0] == '\"' && t[1..] == body + ("\"" + after)
    ensures Framed(raw, before, body, after)
  {
    assert t == "\"" + t[1..];
  }

  lemma {:induction false} OnlyBlank(after: string)
    requires SkipSpace(after) == ""
    ensures Blank(after)
  {
    var before := SkipMeans(after);
    assert after == before;
  }

  lemma {:induction false} TextReads(before: string, body: string, after: string, s: string)
    requires Blank(before) && Blank(after) && WritesAll(body, s)
    ensures ParseJsonString(before + ("\"" + (body + ("\"" + after)))) == Some(s)
  {
    var t := "\"" + (body + ("\"" + after));
    SkipBlank(before, t);
    assert t[0] == '\"' && t[1..] == body + ("\"" + after);
    AllWrittenReads(body, s, after);
    SkipBlank(after, "");
    assert after + "" == after;
  }

  // ----- Debug quoting, character by character -----

  ghost function HexNumber(digits: string): int {
    if digits == "" then 0
    else HexNumber(digits[..|digits| - 1]) * 16 + LowerDigit(digits[|digits| - 1])
  }

  ghost function LowerDigit(c: char): int { if c <= '9' then c as int - 48 else c as int - 87 }

  /** The number in lower-case hexadecimal, without leading zeros. */
  ghost predicate Hexadecimal(digits: string, n: nat) {
    && digits != "" && HexNumber(digits) == n && (n > 0 ==> digits[0] != '0')
    && forall i :: 0 <= i < |digits| ==> 48 <= digits[i] as int <= 57 || 97 <= digits[i] as int <= 102
  }

  lemma {:induction false} HexMeans(n: nat)
    ensures Hexadecimal(Hex(n), n)
  {
    var digits := Hex(n);
    var k := |digits| - 1;
    if n < 16 {
      assert digits[..k] == "";
    } else {
      HexMeans(n / 16);
      assert digits[..k] == Hex(n / 16) && digits[k] == HexDigit(n % 16);
    }
  }

  /** Debug quoting writes a character as itself, with one letter, or by its number. */
  lemma {:induction false} EscapeMeans(shown: char -> bool, c: char) returns (digits: string)
    ensures var n, w := c as int, EscapeDebug(shown, c);
            if n in {0, 9, 10, 13, 34, 92}
            then |w| == 2 && w[0] == '\\'
                 && w[1] as int == map[0 := 48, 9 := 116, 10 := 110, 13 := 114, 34 := 34, 92 := 92][n]
            else if n < 32 || n == 127 || (n > 127 && !shown(c))
            then w == "\\u{" + digits + "}" && Hexadecimal(digits, n)
            else w == [c]
  {
    digits := Hex(c as int);
    HexMeans(c as int);
  }
}
