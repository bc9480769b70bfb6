/** The line format of a manifest: comments, assignments and `[[source]]` headers. */
module ManifestText {
  import opened JsonValue

  type Table = map<string, string>

  datatype ManifestError =
    | UnsupportedSection(line: nat)
    | InvalidAssignment(line: nat)
    | DuplicateKey(key: string)
    | NoSource
    | SourceCount(found: nat)
    | MissingKey(key: string)
    | NotAString(key: string)
    | NotANumber(key: string)
    | UnknownKeys

  datatype Result<+T> = Ok(value: T) | Err(error: ManifestError) {
    predicate IsFailure() { Err? }
    function PropagateFailure<U>(): Result<U> requires Err? { Err(error) }
    function Extract(): T requires Ok? { value }
  }

  // ----- Characters and trimming -----

  predicate IsWhite(c: char) {
    || 9 as char <= c <= 13 as char || c == ' ' || c == 0x85 as char || c == 0xA0 as char || c == 0x1680 as char
    || 0x2000 as char <= c <= 0x200A as char || c == 0x2028 as char || c == 0x2029 as char
    || c == 0x202F as char || c == 0x205F as char || c == 0x3000 as char
  }

  function TrimStart(s: string): string {
    if s != "" && IsWhite(s[0]) then TrimStart(s[1..]) else s
  }

  function TrimEnd(s: string): string {
    if s != "" && IsWhite(s[|s| - 1]) then TrimEnd(s[..|s| - 1]) else s
  }

  function Trim(s: string): string { TrimEnd(TrimStart(s)) }

  /** The position of the first `c`, or the length. */
  function Find(s: string, c: char): (i: nat)
    ensures i <= |s| && c !in s[..i] && (i < |s| ==> s[i] == c)
  {
    if s == "" || s[0] == c then 0
    else
      var r := Find(s[1..], c);
      assert s[..1 + r] == [s[0]] + s[1..][..r];
      1 + r
  }

  // ----- Lines -----

  function StripCr(s: string): string { if s != "" && s[|s| - 1] == '\r' then s[..|s| - 1] else s }

  function Lines(text: string): seq<string>
    decreases |text|
  {
    var i := Find(text, '\n');
    if i < |text| then [StripCr(text[..i])] + Lines(text[i + 1..])
    else if text == "" then [] else [text]
  }

  function Unlines(lines: seq<string>): string {
    if lines == [] then "" else lines[0] + ("\n" + Unlines(lines[1..]))
  }

  /** Lines without a line feed that do not end in a carriage return survive. */
  ghost predicate PlainLine(s: string) { '\n' !in s && (s == "" || s[|s| - 1] != '\r') }

  lemma {:induction false} FindAt(a: string, c: char, b: string)
    requires c !in a
    ensures Find(a + ([c] + b), c) == |a|
  {
    var s := a + ([c] + b);
    var i := Find(s, c);
    assert s[|a|] == c && forall j :: 0 <= j < |a| ==> s[j] == a[j];
  }

  lemma {:induction false} LinesUnlines(lines: seq<string>)
    requires forall i :: 0 <= i < |lines| ==> PlainLine(lines[i])
    ensures Lines(Unlines(lines)) == lines
  {
    if lines != [] {
      LinesUnlines(lines[1..]);
      LinesCons(lines[0], Unlines(lines[1..]));
    }
  }

  lemma {:induction false} LinesCons(line: string, rest: string)
    requires PlainLine(line)
    ensures Lines(line + ("\n" + rest)) == [line] + Lines(rest)
  {
    var text := line + ("\n" + rest);
    FindAt(line, '\n', rest);
    assert text[..|line|] == line && text[|line| + 1..] == rest;
  }

  lemma {:induction false} UnlinesConcat(a: seq<string>, b: seq<string>)
    ensures Unlines(a + b) == Unlines(a) + Unlines(b)
  {
    if a == [] {
      assert a + b == b;
    } else {
      UnlinesConcat(a[1..], b);
      assert (a + b)[1..] == a[1..] + b;
    }
  }

  // ----- Tables -----

  datatype Tables = Tables(top: Table, sources: seq<Table>, current: Option<Table>)

  const NO_TABLES := Tables(map[], [], None)

  /** What one line does; `number` is its line number. */
  function ReadLine(t: Tables, raw: string, number: nat): Result<Tables> {
    var line := Trim(raw);
    if line == "" || line[0] == '#' then Ok(t)
    else if line == "[[source]]" then
      Ok(Tables(t.top, if t.current.Some? then t.sources + [t.current.value] else t.sources, Some(map[])))
    else if line[0] == '[' then Err(UnsupportedSection(number))
    else
      var i := Find(line, '=');
      if i == |line| then Err(InvalidAssignment(number))
      else Assign(t, Trim(line[..i]), Trim(line[i + 1..]))
  }

  function Assign(t: Tables, key: string, value: string): Result<Tables> {
    var table := if t.current.Some? then t.current.value else t.top;
    if key in table then Err(DuplicateKey(key))
    else if t.current.Some? then Ok(t.(current := Some(table[key := value])))
    else Ok(t.(top := table[key := value]))
  }

  /** All lines, in order, until one fails. `before` lines precede them. */
  function Fold(step: (Tables, string, nat) -> Result<Tables>, t: Tables, lines: seq<string>, before: nat): Result<Tables> {
    if lines == [] then Ok(t)
    else
      var sofar := Fold(step, t, lines[..|lines| - 1], before);
      if sofar.Err? then sofar else step(sofar.value, lines[|lines| - 1], before + |lines|)
  }

  function ReadLines(t: Tables, lines: seq<string>, before: nat): Result<Tables> {
    Fold(ReadLine, t, lines, before)
  }

  lemma {:induction false} FoldConcat(step: (Tables, string, nat) -> Result<Tables>, t: Tables, a: seq<string>,
                                      b: seq<string>, before: nat)
    ensures var first := Fold(step, t, a, before);
            Fold(step, t, a + b, before) == if first.Err? then first else Fold(step, first.value, b, before + |a|)
  {
    if b == [] {
      assert a + b == a;
    } else {
      FoldConcat(step, t, a, b[..|b| - 1], before);
      assert (a + b)[..|a + b| - 1] == a + b[..|b| - 1];
    }
  }

  /** One more line of a reading: its effect, and that its failure is the reading's. */
  lemma {:induction false} FoldNext(step: (Tables, string, nat) -> Result<Tables>, t: Tables, lines: seq<string>,
                                    n: nat, sofar: Tables)
    requires n < |lines| && Fold(step, t, lines[..n], 0) == Ok(sofar)
    ensures Fold(step, t, lines[..n + 1], 0) == step(sofar, lines[n], n + 1)
    ensures step(sofar, lines[n], n + 1).Err? ==> Fold(step, t, lines, 0) == step(sofar, lines[n], n + 1)
  {
    assert lines[..n + 1][..n] == lines[..n];
    FoldConcat(step, t, lines[..n + 1], lines[n + 1..], 0);
    assert lines[..n + 1] + lines[n + 1..] == lines;
  }

  /** The reading loop of the manifest parser. */
  method ReadTables(lines: seq<string>) returns (r: Result<Tables>)
    ensures r == ReadLines(NO_TABLES, lines, 0)
  {
    var top: Table, sources: seq<Table>, current: Option<Table> := map[], [], None;
    for n := 0 to |lines|
      invariant ReadLines(NO_TABLES, lines[..n], 0) == Ok(Tables(top, sources, current))
    {
      FoldNext(ReadLine, NO_TABLES, lines, n, Tables(top, sources, current));
      var line := Trim(lines[n]);
      if line == "" || line[0] == '#' {
        continue;
      }
      if line == "[[source]]" {
        if current.Some? {
          sources := sources + [current.value];
        }
        current := Some(map[]);
        continue;
      }
      if line[0] == '[' {
        return Err(UnsupportedSection(n + 1));
      }
      var i := Find(line, '=');
      if i == |line| {
        return Err(InvalidAssignment(n + 1));
      }
      var key, value := Trim(line[..i]), Trim(line[i + 1..]);
      var values := if current.Some? then current.value else top;
      if key in values {
        return Err(DuplicateKey(key));
      }
      if current.Some? {
        current := Some(values[key := value]);
      } else {
        top := values[key := value];
      }
    }
    assert lines[..|lines|] == lines;
    r := Ok(Tables(top, sources, current));
  }

  // ----- Printed assignments -----

  datatype Entry = Entry(key: string, raw: string)

  function Printed(e: Entry): string { e.key + (" = " + e.raw) }

  /** A bare key: no `=`, no space at its ends, and it does not look like a comment or section. */
  ghost predicate BareKey(k: string) {
    k != "" && !IsWhite(k[0]) && !IsWhite(k[|k| - 1]) && k[0] != '#' && k[0] != '[' && '=' !in k
  }

  /** A value with no space at its ends. */
  ghost predicate Trimmed(v: string) { v != "" && !IsWhite(v[0]) && !IsWhite(v[|v| - 1]) }

  lemma {:induction false} TrimKeeps(s: string)
    requires Trimmed(s)
    ensures Trim(s) == s && Trim(" " + s) == s && Trim(s + " ") == s
  {
    assert (" " + s)[1..] == s;
    assert TrimStart(" " + s) == TrimStart(s);
    assert (s + " ")[..|s|] == s;
    assert TrimEnd(s + " ") == TrimEnd(s);
  }

  /** A printed assignment reads back as its key and value. */
  lemma {:induction false} ReadPrinted(t: Tables, e: Entry, number: nat)
    requires BareKey(e.key) && Trimmed(e.raw)
    ensures ReadLine(t, Printed(e), number) == Assign(t, e.key, e.raw)
  {
    PrintedSplits(e);
  }

  lemma {:induction false} PrintedSplits(e: Entry)
    requires BareKey(e.key) && Trimmed(e.raw)
    ensures var line := Printed(e);
            && Trim(line) == line && line[0] == e.key[0] && Find(line, '=') == |e.key| + 1
            && Trim(line[..|e.key| + 1]) == e.key && Trim(line[|e.key| + 2..]) == e.raw
  {
    var line, before, after := Printed(e), e.key + " ", " " + e.raw;
    assert line[|line| - 1] == e.raw[|e.raw| - 1] && line[0] == e.key[0];
    TrimKeeps(line);
    assert line == before + (['='] + after) && '=' !in before;
    SplitAtEquals(line, before, after);
    TrimKeeps(e.key);
    TrimKeeps(e.raw);
  }

  lemma {:induction false} SplitAtEquals(line: string, before: string, after: string)
    requires line == before + (['='] + after) && '=' !in before
    ensures Find(line, '=') == |before| && line[..|before|] == before && line[|before| + 1..] == after
  {
    FindAt(before, '=', after);
  }

  ghost predicate GoodEntries(entries: seq<Entry>) {
    && (forall i :: 0 <= i < |entries| ==> BareKey(entries[i].key) && Trimmed(entries[i].raw))
    && (forall i, j :: 0 <= i < j < |entries| ==> entries[i].key != entries[j].key)
  }

  function PrintedAll(entries: seq<Entry>): (lines: seq<string>)
    ensures |lines| == |entries|
  {
    seq(|entries|, i requires 0 <= i < |entries| => Printed(entries[i]))
  }

  function TableOf(entries: seq<Entry>): Table {
    if entries == [] then map[] else TableOf(entries[..|entries| - 1])[entries[|entries| - 1].key := entries[|entries| - 1].raw]
  }

  lemma {:induction false} TableLookup(entries: seq<Entry>)
    requires forall i, j :: 0 <= i < j < |entries| ==> entries[i].key != entries[j].key
    ensures forall i :: 0 <= i < |entries| ==>
            entries[i].key in TableOf(entries) && TableOf(entries)[entries[i].key] == entries[i].raw
    ensures forall k :: k in TableOf(entries) ==> exists i :: 0 <= i < |entries| && entries[i].key == k
  {
    if entries != [] {
      var init := entries[..|entries| - 1];
      TableLookup(init);
      forall k | k in TableOf(entries) ensures exists i :: 0 <= i < |entries| && entries[i].key == k {
        if k in TableOf(init) {
          var i :| 0 <= i < |init| && init[i].key == k;
          assert entries[i].key == k;
        } else {
          assert entries[|entries| - 1].key == k;
        }
      }
      assert forall i :: 0 <= i < |init| ==> init[i] == entries[i];
    }
  }

  /** Printed entries fill the current source table. */
  lemma {:induction false} ReadEntries(t: Tables, entries: seq<Entry>, before: nat)
    requires GoodEntries(entries) && t.current == Some(map[])
    ensures ReadLines(t, PrintedAll(entries), before) == Ok(t.(current := Some(TableOf(entries))))
  {
    if entries != [] {
      var n := |entries| - 1;
      var init, last := entries[..n], entries[n];
      GoodPrefix(entries);
      ReadEntries(t, init, before);
      var sofar := t.(current := Some(TableOf(init)));
      FoldSnoc(ReadLine, t, PrintedAll(init), Printed(last), before, sofar);
      assert PrintedAll(entries) == PrintedAll(init) + [Printed(last)];
      ReadPrinted(sofar, last, before + |entries|);
    }
  }

  lemma {:induction false} GoodPrefix(entries: seq<Entry>)
    requires GoodEntries(entries) && entries != []
    ensures var init, last := entries[..|entries| - 1], entries[|entries| - 1];
            GoodEntries(init) && BareKey(last.key) && Trimmed(last.raw) && last.key !in TableOf(init)
  {
    var init := entries[..|entries| - 1];
    assert forall i :: 0 <= i < |init| ==> init[i] == entries[i];
    TableLookup(init);
  }

  lemma {:induction false} FoldSnoc(step: (Tables, string, nat) -> Result<Tables>, t: Tables, lines: seq<string>,
                                    line: string, before: nat, sofar: Tables)
    requires Fold(step, t, lines, before) == Ok(sofar)
    ensures Fold(step, t, lines + [line], before) == step(sofar, line, before + |lines| + 1)
  {
    assert (lines + [line])[..|lines|] == lines;
  }
}
