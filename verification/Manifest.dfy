/** The provenance manifest: its printer, its parser, and its check against a snapshot. */
module Manifest {
  import opened JsonValue
  import opened JsonString
  import opened Text
  import opened ManifestText
  import opened Sequences
  import Timestamp

  datatype SourceManifest = SourceManifest(
    schemaVersion: nat, id: string, kind: string, repository: string, revision: string, url: string, path: string,
    fetchedAt: string, byteLength: nat, sha256: string, license: string, licenseUrl: string, openapiVersion: string,
    apiVersion: string, pathCount: nat, clientOperationCount: nat, webhookCount: nat, webhookOperationCount: nat,
    schemaCount: nat)

  /** The keys of a source entry, in printing order. */
  const FIELDS: seq<string> := [
    "id", "kind", "repository", "revision", "url", "path", "fetched_at", "byte_length", "sha256", "license", "license_url",
    "openapi_version", "api_version", "path_count", "client_operation_count", "webhook_count", "webhook_operation_count",
    "schema_count"]

  /** The value of one field: a text or a count. */
  datatype FieldValue = TextValue(text: string) | CountValue(count: nat)

  predicate IsCount(i: nat) { i == 7 || 13 <= i }

  /** The values of a source entry, in the order of `FIELDS`. */
  function FieldValues(m: SourceManifest): (values: seq<FieldValue>)
    ensures |values| == 18
  {
    [TextValue(m.id), TextValue(m.kind), TextValue(m.repository), TextValue(m.revision), TextValue(m.url),
     TextValue(m.path), TextValue(m.fetchedAt), CountValue(m.byteLength), TextValue(m.sha256), TextValue(m.license),
     TextValue(m.licenseUrl), TextValue(m.openapiVersion), TextValue(m.apiVersion), CountValue(m.pathCount),
     CountValue(m.clientOperationCount), CountValue(m.webhookCount), CountValue(m.webhookOperationCount),
     CountValue(m.schemaCount)]
  }

  predicate Shaped(values: seq<FieldValue>) {
    forall i :: 0 <= i < |values| ==> values[i].CountValue? == IsCount(i)
  }

  function FromValues(schemaVersion: nat, v: seq<FieldValue>): SourceManifest
    requires |v| == 18 && Shaped(v)
  {
    SourceManifest(
      schemaVersion, v[0].text, v[1].text, v[2].text, v[3].text, v[4].text, v[5].text, v[6].text, v[7].count, v[8].text,
      v[9].text, v[10].text, v[11].text, v[12].text, v[13].count, v[14].count, v[15].count, v[16].count, v[17].count)
  }

  // ----- Printing -----

  /** `shown` is the table of printable characters of `EscapeDebug`. */
  function Raw(shown: char -> bool, v: FieldValue): string {
    if v.TextValue? then DebugQuote(shown, v.text) else Decimal(v.count)
  }

  function EntriesOf(shown: char -> bool, names: seq<string>, values: seq<FieldValue>): (entries: seq<Entry>)
    requires |names| == |values|
    ensures |entries| == |names|
  {
    seq(|names|, i requires 0 <= i < |names| => Entry(names[i], Raw(shown, values[i])))
  }

  /** The lines of one source entry, after a blank line. */
  function BlockLines(entries: seq<Entry>): seq<string> { [""] + (["[[source]]"] + PrintedAll(entries)) }

  function SchemaEntry(schemaVersion: nat): Entry { Entry("schema_version", Decimal(schemaVersion)) }

  function RenderLines(shown: char -> bool, notes: seq<string>, names: seq<string>, schemaVersion: nat,
                       values: seq<FieldValue>): seq<string>
    requires |names| == |values|
  {
    notes + ([""] + ([Printed(SchemaEntry(schemaVersion))] + BlockLines(EntriesOf(shown, names, values))))
  }

  /** The printed manifest; `notes` are the comment lines it starts with. */
  function Render(shown: char -> bool, notes: seq<string>, m: SourceManifest): string {
    Unlines(RenderLines(shown, notes, FIELDS, m.schemaVersion, FieldValues(m)))
  }

  // ----- Parsing -----

  function ParseU64(raw: string): Option<nat> {
    var digits := if raw != "" && raw[0] == '+' then raw[1..] else raw;
    if digits == "" || !AllDigits(digits) || Value(digits) >= U64_LIMIT then None else Some(Value(digits))
  }

  function TakeString(values: Table, key: string): Result<string> {
    if key !in values then Err(MissingKey(key))
    else match ParseJsonString(values[key]) case Some(text) => Ok(text) case None => Err(NotAString(key))
  }

  function TakeU64(values: Table, key: string): Result<nat> {
    if key !in values then Err(MissingKey(key))
    else match ParseU64(values[key]) case Some(n) => Ok(n) case None => Err(NotANumber(key))
  }

  /** The sources with the wanted id; a source without a readable id is an error. */
  function Matching(sources: seq<Table>, sourceId: string): Result<seq<Table>> {
    if sources == [] then Ok([])
    else
      var sofar :- Matching(sources[..|sources| - 1], sourceId);
      var id :- TakeString(sources[|sources| - 1], "id");
      Ok(sofar + if id == sourceId then [sources[|sources| - 1]] else [])
  }

  function TakeField(v: Table, name: string, isCount: bool): (r: Result<FieldValue>)
    ensures r.Ok? ==> r.value.CountValue? == isCount
  {
    if isCount then
      var count :- TakeU64(v, name);
      Ok(CountValue(count))
    else
      var text :- TakeString(v, name);
      Ok(TextValue(text))
  }

  /** The named fields, in order. */
  function TakeFields(v: Table, names: seq<string>): (r: Result<seq<FieldValue>>)
    ensures r.Ok? ==> |r.value| == |names| && Shaped(r.value)
  {
    if names == [] then Ok([])
    else
      var n := |names| - 1;
      var sofar :- TakeFields(v, names[..n]);
      var last :- TakeField(v, names[n], IsCount(n));
      Ok(sofar + [last])
  }

  /** Every known key is taken from the table, and no other key may be left. */
  function Assemble(names: seq<string>, v: Table): Result<seq<FieldValue>> {
    var values :- TakeFields(v, names);
    if exists k :: k in v && k !in names then Err(UnknownKeys) else Ok(values)
  }

  function AllSources(t: Tables): seq<Table> {
    if t.current.Some? then t.sources + [t.current.value] else t.sources
  }

  /** The schema version, and the fields of the one source with the wanted id. */
  function Select(names: seq<string>, tables: Tables, sourceId: string): Result<(nat, seq<FieldValue>)> {
    if AllSources(tables) == [] then Err(NoSource)
    else
      var schemaVersion :- TakeU64(tables.top, "schema_version");
      var matching :- Matching(AllSources(tables), sourceId);
      if |matching| != 1 then Err(SourceCount(|matching|))
      else
        var values :- Assemble(names, matching[0]);
        Ok((schemaVersion, values))
  }

  function ParseFields(names: seq<string>, input: string, sourceId: string): Result<(nat, seq<FieldValue>)> {
    var tables :- ReadLines(NO_TABLES, Lines(input), 0);
    Select(names, tables, sourceId)
  }

  function Parse(input: string, sourceId: string): Result<SourceManifest> {
    match ParseFields(FIELDS, input, sourceId)
    case Err(e) => Err(e)
    case Ok((schemaVersion, values)) =>
      if |values| == 18 && Shaped(values) then Ok(FromValues(schemaVersion, values)) else Err(UnknownKeys)
  }

  /** The parser: read the lines, then select and assemble the source. */
  method ParseManifest(input: string, sourceId: string) returns (r: Result<SourceManifest>)
    ensures r == Parse(input, sourceId)
  {
    var tables := ReadTables(Lines(input));
    if tables.Err? {
      return Err(tables.error);
    }
    match Select(FIELDS, tables.value, sourceId) {
      case Err(e) => r := Err(e);
      case Ok((schemaVersion, values)) =>
        r := if |values| == 18 && Shaped(values) then Ok(FromValues(schemaVersion, values)) else Err(UnknownKeys);
    }
  }

  // ----- The printed entries -----

  lemma {:induction false} FieldsDistinct()
    ensures forall i, j :: 0 <= i < j < |FIELDS| ==> FIELDS[i] != FIELDS[j]
  {
    var lengths := [2, 4, 10, 8, 3, 4, 10, 11, 6, 7, 11, 15, 11, 10, 22, 13, 23, 12];
    assert forall i :: 0 <= i < 18 ==> |FIELDS[i]| == lengths[i];
  }

  predicate KeyChar(c: char) { 'a' <= c <= 'z' || '0' <= c <= '9' || c == '_' }

  predicate KeyText(k: string) { k != "" && forall c :: c in k ==> KeyChar(c) }

  lemma {:induction false} KeyTextIsBare(k: string)
    requires KeyText(k)
    ensures BareKey(k) && '\n' !in k
  {
    assert k[0] in k && k[|k| - 1] in k;
  }

  lemma {:induction false} FieldsAreKeys()
    ensures forall i :: 0 <= i < |FIELDS| ==> KeyText(FIELDS[i])
  {
  }

  /** A count of one machine word, or any text. */
  predicate FitsWord(v: FieldValue) { v.CountValue? ==> v.count < U64_LIMIT }

  /** A text that both quoting conventions write alike, or a count. */
  ghost predicate PortableValue(shown: char -> bool, v: FieldValue) { v.TextValue? ==> AllPortable(shown, v.text) }

  ghost predicate PortableValues(shown: char -> bool, values: seq<FieldValue>) {
    forall i :: 0 <= i < |values| ==> PortableValue(shown, values[i])
  }

  ghost predicate GoodRaw(raw: string) { Trimmed(raw) && '\n' !in raw && raw[|raw| - 1] != '\r' }

  lemma {:induction false} EscapedHasNoLineFeed(shown: char -> bool, s: string)
    ensures '\n' !in EscapeAll(shown, s)
  {
    if s != "" {
      EscapedHasNoLineFeed(shown, s[1..]);
      HexHasNoLineFeed(s[0] as int);
      assert '\n' !in EscapeDebug(shown, s[0]);
    }
  }

  lemma {:induction false} HexHasNoLineFeed(n: nat)
    ensures '\n' !in Hex(n)
  {
    if n >= 16 { HexHasNoLineFeed(n / 16); }
  }

  lemma {:induction false} QuoteIsGood(shown: char -> bool, s: string)
    ensures GoodRaw(DebugQuote(shown, s))
  {
    EscapedHasNoLineFeed(shown, s);
    var q := DebugQuote(shown, s);
    assert q[0] == '\"' && q[|q| - 1] == '\"';
  }

  lemma {:induction false} DecimalIsGood(n: nat)
    ensures GoodRaw(Decimal(n)) && (n < U64_LIMIT ==> ParseU64(Decimal(n)) == Some(n))
  {
    PaddedReadsBack(n, 0);
    DigitsAreGood(Decimal(n));
  }

  lemma {:induction false} DigitsAreGood(d: string)
    requires d != "" && AllDigits(d)
    ensures GoodRaw(d) && d[0] != '+'
  {
    assert IsDigit(d[0]) && IsDigit(d[|d| - 1]);
    assert forall c :: c in d ==> IsDigit(c);
  }

  lemma {:induction false} RawIsGood(shown: char -> bool, v: FieldValue)
    ensures GoodRaw(Raw(shown, v))
  {
    if v.TextValue? { QuoteIsGood(shown, v.text); } else { DecimalIsGood(v.count); }
  }

  /** Names that are keys, all different, each with a value of its shape. */
  ghost predicate GoodFields(names: seq<string>, values: seq<FieldValue>) {
    && |names| == |values| && Shaped(values)
    && (forall i :: 0 <= i < |names| ==> KeyText(names[i]) && FitsWord(values[i]))
    && forall i, j :: 0 <= i < j < |names| ==> names[i] != names[j]
  }

  lemma {:induction false} EntriesAreGood(shown: char -> bool, names: seq<string>, values: seq<FieldValue>)
    requires GoodFields(names, values)
    ensures GoodEntries(EntriesOf(shown, names, values))
    ensures forall i :: 0 <= i < |names| ==> PlainLine(PrintedAll(EntriesOf(shown, names, values))[i])
  {
    var entries := EntriesOf(shown, names, values);
    forall i | 0 <= i < |names|
      ensures BareKey(entries[i].key) && Trimmed(entries[i].raw) && PlainLine(PrintedAll(entries)[i])
    {
      RawIsGood(shown, values[i]);
      KeyTextIsBare(names[i]);
      PrintedIsPlain(entries[i]);
    }
  }

  lemma {:induction false} PrintedIsPlain(e: Entry)
    requires '\n' !in e.key && GoodRaw(e.raw)
    ensures PlainLine(Printed(e))
  {
    var p := Printed(e);
    assert p[|p| - 1] == e.raw[|e.raw| - 1];
  }

  /** The table holds the printed values under the given names. */
  ghost predicate Holds(shown: char -> bool, v: Table, names: seq<string>, values: seq<FieldValue>) {
    && |names| == |values| && Shaped(values) && (forall i :: 0 <= i < |values| ==> FitsWord(values[i]))
    && forall i :: 0 <= i < |names| ==> names[i] in v && v[names[i]] == Raw(shown, values[i])
  }

  /** What a field holds is taken back, or rejected, by whether it is portable. */
  lemma {:induction false} TakesOne(shown: char -> bool, v: Table, name: string, value: FieldValue)
    requires name in v && v[name] == Raw(shown, value) && FitsWord(value)
    ensures TakeField(v, name, value.CountValue?) == if PortableValue(shown, value) then Ok(value) else Err(NotAString(name))
  {
    if value.TextValue? { QuotingAgrees(shown, value.text); } else { DecimalIsGood(value.count); }
  }

  lemma {:induction false} TakesEach(shown: char -> bool, v: Table, names: seq<string>, values: seq<FieldValue>)
    requires Holds(shown, v, names, values)
    ensures forall i :: 0 <= i < |names| ==>
      var taken := TakeField(v, names[i], IsCount(i));
      if PortableValue(shown, values[i]) then taken == Ok(values[i]) else taken.Err?
  {
    forall i | 0 <= i < |names|
      ensures var taken := TakeField(v, names[i], IsCount(i));
              if PortableValue(shown, values[i]) then taken == Ok(values[i]) else taken.Err?
    {
      TakesOne(shown, v, names[i], values[i]);
    }
  }

  lemma {:induction false} TakesAll(v: Table, names: seq<string>, values: seq<FieldValue>)
    requires |names| == |values| && forall i :: 0 <= i < |names| ==> TakeField(v, names[i], IsCount(i)) == Ok(values[i])
    ensures TakeFields(v, names) == Ok(values)
  {
    if names != [] {
      var n := |names| - 1;
      TakesAll(v, names[..n], values[..n]);
      TakesNext(v, names, values[..n], values[n]);
      assert values == values[..n] + [values[n]];
    }
  }

  lemma {:induction false} TakesNext(v: Table, names: seq<string>, sofar: seq<FieldValue>, last: FieldValue)
    requires |names| == |sofar| + 1 && TakeFields(v, names[..|sofar|]) == Ok(sofar)
    requires TakeField(v, names[|sofar|], IsCount(|sofar|)) == Ok(last)
    ensures TakeFields(v, names) == Ok(sofar + [last])
  {
  }

  lemma {:induction false} OneFailureFailsAll(v: Table, names: seq<string>, i: nat)
    requires i < |names| && TakeField(v, names[i], IsCount(i)).Err?
    ensures TakeFields(v, names).Err?
  {
    var n := |names| - 1;
    if i < n { OneFailureFailsAll(v, names[..n], i); }
  }

  lemma {:induction false} TableHolds(shown: char -> bool, names: seq<string>, values: seq<FieldValue>)
    requires GoodFields(names, values)
    ensures Holds(shown, TableOf(EntriesOf(shown, names, values)), names, values)
    ensures forall k :: k in TableOf(EntriesOf(shown, names, values)) ==> k in names
  {
    var entries := EntriesOf(shown, names, values);
    var v := TableOf(entries);
    EntriesAreGood(shown, names, values);
    TableLookup(entries);
    forall i | 0 <= i < |names| ensures names[i] in v && v[names[i]] == Raw(shown, values[i]) {
      assert entries[i].key == names[i];
    }
    forall k | k in v ensures k in names {
      var i :| 0 <= i < |entries| && entries[i].key == k;
      assert names[i] == k;
    }
  }

  /** The table of the printed entries assembles to the values if and only if they are portable,
      and is rejected otherwise. */
  lemma {:induction false} AssembleBack(shown: char -> bool, names: seq<string>, values: seq<FieldValue>)
    requires GoodFields(names, values)
    ensures var back := Assemble(names, TableOf(EntriesOf(shown, names, values)));
            if PortableValues(shown, values) then back == Ok(values) else back.Err?
  {
    var v := TableOf(EntriesOf(shown, names, values));
    TableHolds(shown, names, values);
    TakesEach(shown, v, names, values);
    if PortableValues(shown, values) {
      TakesAll(v, names, values);
    } else {
      var i :| 0 <= i < |values| && !PortableValue(shown, values[i]);
      OneFailureFailsAll(v, names, i);
    }
  }

  // ----- Reading a rendered manifest -----

  ghost predicate Note(line: string) {
    PlainLine(line) && line != "" && line[0] == '#' && !IsWhite(line[|line| - 1])
  }

  lemma {:induction false} FoldOne(step: (Tables, string, nat) -> Result<Tables>, t: Tables, line: string, before: nat)
    ensures Fold(step, t, [line], before) == step(t, line, before + 1)
  {
    FoldSnoc(step, t, [], line, before, t);
    assert [] + [line] == [line];
  }

  lemma {:induction false} FoldThen(step: (Tables, string, nat) -> Result<Tables>, t: Tables, a: seq<string>, mid: Tables,
                                    b: seq<string>, end: Tables, before: nat)
    requires Fold(step, t, a, before) == Ok(mid) && Fold(step, mid, b, before + |a|) == Ok(end)
    ensures Fold(step, t, a + b, before) == Ok(end)
  {
    FoldConcat(step, t, a, b, before);
  }

  lemma {:induction false} FoldLineThen(step: (Tables, string, nat) -> Result<Tables>, t: Tables, line: string, mid: Tables,
                                        b: seq<string>, end: Tables, before: nat)
    requires step(t, line, before + 1) == Ok(mid) && Fold(step, mid, b, before + 1) == Ok(end)
    ensures Fold(step, t, [line] + b, before) == Ok(end)
  {
    FoldOne(step, t, line, before);
    FoldThen(step, t, [line], mid, b, end, before);
  }

  /** Comment lines are skipped. */
  lemma {:induction false} SkipNotes(t: Tables, notes: seq<string>, before: nat)
    requires forall i :: 0 <= i < |notes| ==> Note(notes[i])
    ensures ReadLines(t, notes, before) == Ok(t)
  {
    if notes != [] {
      var n := |notes| - 1;
      SkipNotes(t, notes[..n], before);
      FoldSnoc(ReadLine, t, notes[..n], notes[n], before, t);
      assert notes == notes[..n] + [notes[n]];
      TrimKeeps(notes[n]);
    }
  }

  lemma {:induction false} ReadHeader(t: Tables, number: nat)
    ensures ReadLine(t, "", number) == Ok(t)
    ensures ReadLine(t, "[[source]]", number) == Ok(Tables(t.top, AllSources(t), Some(map[])))
  {
    assert Trim("") == "";
    var header := "[[source]]";
    assert header[0] == '[' && header[|header| - 1] == ']';
    TrimKeeps(header);
  }

  /** One source entry adds one source table. */
  lemma {:induction false} ReadBlock(t: Tables, entries: seq<Entry>, before: nat)
    requires GoodEntries(entries)
    ensures ReadLines(t, BlockLines(entries), before) == Ok(Tables(t.top, AllSources(t), Some(TableOf(entries))))
  {
    var started := Tables(t.top, AllSources(t), Some(map[]));
    ReadEntries(started, entries, before + 2);
    var end := Tables(t.top, AllSources(t), Some(TableOf(entries)));
    ReadHeader(t, before + 2);
    FoldLineThen(ReadLine, t, "[[source]]", started, PrintedAll(entries), end, before + 1);
    ReadHeader(t, before + 1);
    FoldLineThen(ReadLine, t, "", t, ["[[source]]"] + PrintedAll(entries), end, before);
  }

  function TopOf(schemaVersion: nat): Table { map["schema_version" := Decimal(schemaVersion)] }

  lemma {:induction false} SchemaIsGood(schemaVersion: nat)
    ensures BareKey("schema_version") && GoodRaw(Decimal(schemaVersion)) && PlainLine(Printed(SchemaEntry(schemaVersion)))
  {
    assert KeyText("schema_version");
    KeyTextIsBare("schema_version");
    DecimalIsGood(schemaVersion);
    PrintedIsPlain(SchemaEntry(schemaVersion));
  }

  lemma {:induction false} ReadSchema(schemaVersion: nat, number: nat)
    ensures ReadLine(NO_TABLES, Printed(SchemaEntry(schemaVersion)), number) == Ok(Tables(TopOf(schemaVersion), [], None))
  {
    SchemaIsGood(schemaVersion);
    ReadPrinted(NO_TABLES, SchemaEntry(schemaVersion), number);
  }

  lemma {:induction false} ReadSchemaAndBlock(schemaVersion: nat, entries: seq<Entry>, before: nat)
    requires GoodEntries(entries)
    ensures ReadLines(NO_TABLES, [Printed(SchemaEntry(schemaVersion))] + BlockLines(entries), before) ==
            Ok(Tables(TopOf(schemaVersion), [], Some(TableOf(entries))))
  {
    var top, end := Tables(TopOf(schemaVersion), [], None), Tables(TopOf(schemaVersion), [], Some(TableOf(entries)));
    ReadBlock(top, entries, before + 1);
    ReadSchema(schemaVersion, before + 1);
    FoldLineThen(ReadLine, NO_TABLES, Printed(SchemaEntry(schemaVersion)), top, BlockLines(entries), end, before);
  }

  lemma {:induction false} ReadNotesThen(notes: seq<string>, rest: seq<string>, end: Tables)
    requires forall i :: 0 <= i < |notes| ==> Note(notes[i])
    requires ReadLines(NO_TABLES, rest, |notes| + 1) == Ok(end)
    ensures ReadLines(NO_TABLES, notes + ([""] + rest), 0) == Ok(end)
  {
    ReadHeader(NO_TABLES, |notes| + 1);
    SkipNotes(NO_TABLES, notes, 0);
    FoldPreamble(ReadLine, NO_TABLES, notes, "", rest, end);
  }

  lemma {:induction false} FoldPreamble(step: (Tables, string, nat) -> Result<Tables>, t: Tables, notes: seq<string>,
                                        blank: string, rest: seq<string>, end: Tables)
    requires Fold(step, t, notes, 0) == Ok(t) && step(t, blank, |notes| + 1) == Ok(t)
    requires Fold(step, t, rest, |notes| + 1) == Ok(end)
    ensures Fold(step, t, notes + ([blank] + rest), 0) == Ok(end)
  {
    FoldLineThen(step, t, blank, t, rest, end, |notes|);
    FoldThen(step, t, notes, t, [blank] + rest, end, 0);
  }

  /** Reading the lines of a rendered manifest. */
  lemma {:induction false} ReadRendered(notes: seq<string>, schemaVersion: nat, entries: seq<Entry>)
    requires (forall i :: 0 <= i < |notes| ==> Note(notes[i])) && GoodEntries(entries)
    ensures ReadLines(NO_TABLES, notes + ([""] + ([Printed(SchemaEntry(schemaVersion))] + BlockLines(entries))), 0) ==
            Ok(Tables(TopOf(schemaVersion), [], Some(TableOf(entries))))
  {
    ReadSchemaAndBlock(schemaVersion, entries, |notes| + 1);
    ReadNotesThen(notes, [Printed(SchemaEntry(schemaVersion))] + BlockLines(entries),
                  Tables(TopOf(schemaVersion), [], Some(TableOf(entries))));
  }

  // ----- Further sources -----

  function BlocksLines(blocks: seq<seq<Entry>>): seq<string> {
    if blocks == [] then [] else BlocksLines(blocks[..|blocks| - 1]) + BlockLines(blocks[|blocks| - 1])
  }

  function TablesOf(blocks: seq<seq<Entry>>): seq<Table> {
    if blocks == [] then [] else TablesOf(blocks[..|blocks| - 1]) + [TableOf(blocks[|blocks| - 1])]
  }

  /** A well-formed entry of another source: plain lines, different keys, another readable id. */
  ghost predicate OtherSource(entries: seq<Entry>, sourceId: string) {
    && GoodEntries(entries) && (forall i :: 0 <= i < |entries| ==> PlainLine(PrintedAll(entries)[i]))
    && OtherId(TableOf(entries), sourceId)
  }

  ghost predicate OtherId(v: Table, sourceId: string) {
    var id := TakeString(v, "id"); id.Ok? && id.value != sourceId
  }

  /** Reading an entry from any state adds its table to the sources. */
  ghost predicate ReadsBlocks(step: (Tables, string, nat) -> Result<Tables>) {
    forall t: Tables, entries: seq<Entry>, before: nat :: GoodEntries(entries) ==>
      Fold(step, t, BlockLines(entries), before) == Ok(Tables(t.top, AllSources(t), Some(TableOf(entries))))
  }

  /** Each further block adds one source table. */
  lemma {:induction false} FoldBlocks(step: (Tables, string, nat) -> Result<Tables>, t: Tables,
                                      blocks: seq<seq<Entry>>, before: nat)
    returns (end: Tables)
    requires ReadsBlocks(step) && forall i :: 0 <= i < |blocks| ==> GoodEntries(blocks[i])
    ensures Fold(step, t, BlocksLines(blocks), before) == Ok(end) && end.top == t.top
    ensures AllSources(end) == AllSources(t) + TablesOf(blocks)
  {
    if blocks == [] {
      end := t;
      assert AllSources(t) + [] == AllSources(t);
    } else {
      var n := |blocks| - 1;
      assert BlocksLines(blocks) == BlocksLines(blocks[..n]) + BlockLines(blocks[n]);
      assert TablesOf(blocks) == TablesOf(blocks[..n]) + [TableOf(blocks[n])];
      var sofar := FoldBlocks(step, t, blocks[..n], before);
      end := FoldBlock(step, t, BlocksLines(blocks[..n]), sofar, blocks[n], before);
      SeqAssociative(AllSources(t), TablesOf(blocks[..n]), [TableOf(blocks[n])]);
    }
  }

  lemma {:induction false} FoldBlock(step: (Tables, string, nat) -> Result<Tables>, t: Tables, lines: seq<string>, sofar: Tables,
                                     block: seq<Entry>, before: nat) returns (end: Tables)
    requires ReadsBlocks(step) && GoodEntries(block) && Fold(step, t, lines, before) == Ok(sofar)
    ensures Fold(step, t, lines + BlockLines(block), before) == Ok(end) && end.top == sofar.top
    ensures AllSources(end) == AllSources(sofar) + [TableOf(block)]
  {
    end := Tables(sofar.top, AllSources(sofar), Some(TableOf(block)));
    FoldThen(step, t, lines, sofar, BlockLines(block), end, before);
  }

  lemma {:induction false} LinesReadBlocks()
    ensures ReadsBlocks(ReadLine)
  {
    forall t: Tables, entries: seq<Entry>, before: nat | GoodEntries(entries)
      ensures Fold(ReadLine, t, BlockLines(entries), before) == Ok(Tables(t.top, AllSources(t), Some(TableOf(entries))))
    {
      ReadBlock(t, entries, before);
    }
  }

  lemma {:induction false} BlockIsPlain(entries: seq<Entry>)
    requires forall i :: 0 <= i < |entries| ==> PlainLine(PrintedAll(entries)[i])
    ensures forall i :: 0 <= i < |BlockLines(entries)| ==> PlainLine(BlockLines(entries)[i])
  {
    var header := "[[source]]";
    assert header[|header| - 1] == ']' && PlainLine(header) && PlainLine("");
  }

  lemma {:induction false} BlocksArePlain(blocks: seq<seq<Entry>>, sourceId: string)
    requires forall i :: 0 <= i < |blocks| ==> OtherSource(blocks[i], sourceId)
    ensures forall i :: 0 <= i < |BlocksLines(blocks)| ==> PlainLine(BlocksLines(blocks)[i])
  {
    if blocks != [] {
      BlocksArePlain(blocks[..|blocks| - 1], sourceId);
      BlockIsPlain(blocks[|blocks| - 1]);
    }
  }

  /** Sources with other ids are passed over. */
  lemma {:induction false} OnlyMatch(mine: Table, blocks: seq<seq<Entry>>, sourceId: string)
    requires TakeString(mine, "id") == Ok(sourceId)
    requires forall i :: 0 <= i < |blocks| ==> OtherSource(blocks[i], sourceId)
    ensures Matching([mine] + TablesOf(blocks), sourceId) == Ok([mine])
  {
    if blocks == [] {
      MatchingSnoc([], mine, sourceId, []);
      assert [] + [mine] == [mine] && [mine] + [] == [mine];
    } else {
      var n := |blocks| - 1;
      OnlyMatch(mine, blocks[..n], sourceId);
      MatchingSnoc([mine] + TablesOf(blocks[..n]), TableOf(blocks[n]), sourceId, [mine]);
      assert [mine] + TablesOf(blocks) == ([mine] + TablesOf(blocks[..n])) + [TableOf(blocks[n])];
      assert [mine] + [] == [mine];
    }
  }

  lemma {:induction false} MatchingSnoc(sources: seq<Table>, last: Table, sourceId: string, found: seq<Table>)
    requires Matching(sources, sourceId) == Ok(found) && TakeString(last, "id").Ok?
    ensures Matching(sources + [last], sourceId) == Ok(found + if TakeString(last, "id").value == sourceId then [last] else [])
  {
    assert (sources + [last])[..|sources|] == sources;
  }

  // ----- Round trips -----

  /** The fields begin with the id of the source. */
  ghost predicate Identified(names: seq<string>, values: seq<FieldValue>, sourceId: string) {
    |names| == |values| > 0 && names[0] == "id" && values[0] == TextValue(sourceId)
  }

  /** Printing any fields, followed by any other sources, and parsing gives the fields back if and
      only if every text is portable, and an error otherwise. */
  lemma {:induction false} FieldsRoundTrip(shown: char -> bool, notes: seq<string>, names: seq<string>, schemaVersion: nat,
                                           values: seq<FieldValue>, sourceId: string, blocks: seq<seq<Entry>>)
    requires forall i :: 0 <= i < |notes| ==> Note(notes[i])
    requires GoodFields(names, values) && Identified(names, values, sourceId) && schemaVersion < U64_LIMIT
    requires forall i :: 0 <= i < |blocks| ==> OtherSource(blocks[i], sourceId)
    ensures var text := Unlines(RenderLines(shown, notes, names, schemaVersion, values)) + Unlines(BlocksLines(blocks));
            var back := ParseFields(names, text, sourceId);
            if PortableValues(shown, values) then back == Ok((schemaVersion, values)) else back.Err?
  {
    EntriesAreGood(shown, names, values);
    var end := ReadBack(notes, schemaVersion, EntriesOf(shown, names, values), blocks, sourceId);
    SelectBack(shown, names, schemaVersion, values, sourceId, blocks, end);
  }

  /** Reading a printed manifest and the sources after it. */
  lemma {:induction false} ReadBack(notes: seq<string>, schemaVersion: nat, entries: seq<Entry>,
                                    blocks: seq<seq<Entry>>, sourceId: string)
    returns (end: Tables)
    requires forall i :: 0 <= i < |notes| ==> Note(notes[i])
    requires GoodEntries(entries) && forall i :: 0 <= i < |entries| ==> PlainLine(PrintedAll(entries)[i])
    requires forall i :: 0 <= i < |blocks| ==> OtherSource(blocks[i], sourceId)
    ensures var first := notes + ([""] + ([Printed(SchemaEntry(schemaVersion))] + BlockLines(entries)));
            ReadLines(NO_TABLES, Lines(Unlines(first) + Unlines(BlocksLines(blocks))), 0) == Ok(end)
    ensures end.top == TopOf(schemaVersion) && AllSources(end) == [TableOf(entries)] + TablesOf(blocks)
  {
    var first := notes + ([""] + ([Printed(SchemaEntry(schemaVersion))] + BlockLines(entries)));
    LinesBack(notes, schemaVersion, entries, blocks, sourceId);
    ReadRendered(notes, schemaVersion, entries);
    end := ReadAll(first, Tables(TopOf(schemaVersion), [], Some(TableOf(entries))), blocks, sourceId);
  }

  lemma {:induction false} ReadAll(first: seq<string>, mine: Tables, blocks: seq<seq<Entry>>, sourceId: string)
    returns (end: Tables)
    requires ReadLines(NO_TABLES, first, 0) == Ok(mine)
    requires forall i :: 0 <= i < |blocks| ==> OtherSource(blocks[i], sourceId)
    ensures ReadLines(NO_TABLES, first + BlocksLines(blocks), 0) == Ok(end)
    ensures end.top == mine.top && AllSources(end) == AllSources(mine) + TablesOf(blocks)
  {
    LinesReadBlocks();
    end := FoldAll(ReadLine, NO_TABLES, first, mine, blocks);
  }

  lemma {:induction false} FoldAll(step: (Tables, string, nat) -> Result<Tables>, t: Tables, first: seq<string>, mine: Tables,
                                   blocks: seq<seq<Entry>>) returns (end: Tables)
    requires ReadsBlocks(step) && Fold(step, t, first, 0) == Ok(mine)
    requires forall i :: 0 <= i < |blocks| ==> GoodEntries(blocks[i])
    ensures Fold(step, t, first + BlocksLines(blocks), 0) == Ok(end)
    ensures end.top == mine.top && AllSources(end) == AllSources(mine) + TablesOf(blocks)
  {
    end := FoldBlocks(step, mine, blocks, |first|);
    FoldThen(step, t, first, mine, BlocksLines(blocks), end, 0);
  }

  lemma {:induction false} LinesBack(notes: seq<string>, schemaVersion: nat, entries: seq<Entry>,
                                     blocks: seq<seq<Entry>>, sourceId: string)
    requires forall i :: 0 <= i < |notes| ==> Note(notes[i])
    requires forall i :: 0 <= i < |entries| ==> PlainLine(PrintedAll(entries)[i])
    requires forall i :: 0 <= i < |blocks| ==> OtherSource(blocks[i], sourceId)
    ensures var first := notes + ([""] + ([Printed(SchemaEntry(schemaVersion))] + BlockLines(entries)));
            Lines(Unlines(first) + Unlines(BlocksLines(blocks))) == first + BlocksLines(blocks)
  {
    var first := notes + ([""] + ([Printed(SchemaEntry(schemaVersion))] + BlockLines(entries)));
    SchemaIsGood(schemaVersion);
    BlockIsPlain(entries);
    BlocksArePlain(blocks, sourceId);
    UnlinesConcat(first, BlocksLines(blocks));
    LinesUnlines(first + BlocksLines(blocks));
  }

  lemma {:induction false} SelectBack(shown: char -> bool, names: seq<string>, schemaVersion: nat, values: seq<FieldValue>,
                                      sourceId: string, blocks: seq<seq<Entry>>, end: Tables)
    requires GoodFields(names, values) && Identified(names, values, sourceId) && schemaVersion < U64_LIMIT
    requires forall i :: 0 <= i < |blocks| ==> OtherSource(blocks[i], sourceId)
    requires end.top == TopOf(schemaVersion) && AllSources(end) == [TableOf(EntriesOf(shown, names, values))] + TablesOf(blocks)
    ensures var back := Select(names, end, sourceId);
            if PortableValues(shown, values) then back == Ok((schemaVersion, values)) else back.Err?
  {
    var mine := TableOf(EntriesOf(shown, names, values));
    DecimalIsGood(schemaVersion);
    IdBack(shown, names, values, sourceId);
    if AllPortable(shown, sourceId) {
      OnlyMatch(mine, blocks, sourceId);
      AssembleBack(shown, names, values);
    } else {
      assert !PortableValue(shown, values[0]);
      UnreadableId(AllSources(end), sourceId, 0);
    }
  }

  lemma {:induction false} IdBack(shown: char -> bool, names: seq<string>, values: seq<FieldValue>, sourceId: string)
    requires GoodFields(names, values) && Identified(names, values, sourceId)
    ensures TakeString(TableOf(EntriesOf(shown, names, values)), "id") ==
            if AllPortable(shown, sourceId) then Ok(sourceId) else Err(NotAString("id"))
  {
    TableHolds(shown, names, values);
    QuotingAgrees(shown, sourceId);
  }

  /** A source whose id cannot be read fails the selection. */
  lemma {:induction false} UnreadableId(sources: seq<Table>, sourceId: string, i: nat)
    requires i < |sources| && TakeString(sources[i], "id").Err?
    ensures Matching(sources, sourceId).Err?
  {
    var n := |sources| - 1;
    if i < n { UnreadableId(sources[..n], sourceId, i); }
  }

  /** Every number of the manifest is one machine word. */
  predicate FitsWords(m: SourceManifest) {
    && m.schemaVersion < U64_LIMIT && m.byteLength < U64_LIMIT && m.pathCount < U64_LIMIT && m.clientOperationCount < U64_LIMIT
    && m.webhookCount < U64_LIMIT && m.webhookOperationCount < U64_LIMIT && m.schemaCount < U64_LIMIT
  }

  /** Every text of the manifest is portable. */
  ghost predicate PortableManifest(shown: char -> bool, m: SourceManifest) { PortableValues(shown, FieldValues(m)) }

  /** The manifest printed and followed by any well-formed entries of other sources parses back
      to itself if and only if its texts are portable, and is rejected otherwise: it never
      parses to another manifest. */
  lemma {:induction false} ManifestRoundTrip(shown: char -> bool, notes: seq<string>, m: SourceManifest, blocks: seq<seq<Entry>>)
    requires forall i :: 0 <= i < |notes| ==> Note(notes[i])
    requires FitsWords(m) && forall i :: 0 <= i < |blocks| ==> OtherSource(blocks[i], m.id)
    ensures var back := Parse(Render(shown, notes, m) + Unlines(BlocksLines(blocks)), m.id);
            if PortableManifest(shown, m) then back == Ok(m) else back.Err?
  {
    GoodManifest(m);
    FieldsRoundTrip(shown, notes, FIELDS, m.schemaVersion, FieldValues(m), m.id, blocks);
    ValuesBack(m);
  }

  lemma {:induction false} GoodManifest(m: SourceManifest)
    requires FitsWords(m)
    ensures GoodFields(FIELDS, FieldValues(m)) && Identified(FIELDS, FieldValues(m), m.id)
  {
    FieldsDistinct();
    FieldsAreKeys();
    ShapedValues(m);
  }

  lemma {:induction false} ShapedValues(m: SourceManifest)
    requires FitsWords(m)
    ensures Shaped(FieldValues(m)) && |FIELDS| == 18 && forall i :: 0 <= i < 18 ==> FitsWord(FieldValues(m)[i])
  {
  }

  lemma {:induction false} ValuesBack(m: SourceManifest)
    ensures Shaped(FieldValues(m)) && FromValues(m.schemaVersion, FieldValues(m)) == m
  {
  }

  // ----- Fresh manifests -----

  /** What is pinned in the tool, and what a snapshot was found to hold. */
  datatype Pins = Pins(id: string, repository: string, revision: string, url: string, path: string, license: string,
                       licenseUrl: string)

  datatype Summary = Summary(byteLength: nat, sha256: string, openapiVersion: string, apiVersion: string, pathCount: nat,
                             clientOperationCount: nat, webhookCount: nat, webhookOperationCount: nat, schemaCount: nat)

  function New(pins: Pins, fetchedAt: string, s: Summary): SourceManifest {
    SourceManifest(1, pins.id, "openapi", pins.repository, pins.revision, pins.url, pins.path, fetchedAt, s.byteLength, s.sha256,
                   pins.license, pins.licenseUrl, s.openapiVersion, s.apiVersion, s.pathCount, s.clientOperationCount,
                   s.webhookCount, s.webhookOperationCount, s.schemaCount)
  }

  function Compare(what: string, same: bool): seq<string> { if same then [] else [what] }

  /** The problems with what is pinned in the tool, by label. */
  function OriginProblems(pins: Pins, m: SourceManifest): seq<string> {
    Compare("schema_version", m.schemaVersion == 1) + Compare("id", m.id == pins.id) + Compare("kind", m.kind == "openapi")
    + Compare("repository", m.repository == pins.repository) + Compare("revision", m.revision == pins.revision)
    + Compare("URL", m.url == pins.url) + Compare("path", m.path == pins.path)
  }

  function ContentProblems(pins: Pins, m: SourceManifest, s: Summary): seq<string> {
    Compare("byte length", m.byteLength == s.byteLength) + Compare("SHA-256", m.sha256 == s.sha256)
    + Compare("license", m.license == pins.license) + Compare("license URL", m.licenseUrl == pins.licenseUrl)
    + Compare("OpenAPI version", m.openapiVersion == s.openapiVersion) + Compare("API version", m.apiVersion == s.apiVersion)
  }

  function CountProblems(m: SourceManifest, s: Summary): seq<string> {
    Compare("path count", m.pathCount == s.pathCount)
    + Compare("client operation count", m.clientOperationCount == s.clientOperationCount)
    + Compare("webhook count", m.webhookCount == s.webhookCount)
    + Compare("webhook operation count", m.webhookOperationCount == s.webhookOperationCount)
    + Compare("schema count", m.schemaCount == s.schemaCount)
  }

  /** All problems the check reports, in order. */
  function Problems(pins: Pins, m: SourceManifest, s: Summary): seq<string> {
    OriginProblems(pins, m) + ContentProblems(pins, m, s) + CountProblems(m, s) + Compare("fetched_at", FetchedAtOk(m.fetchedAt))
  }

  predicate FetchedAtOk(t: string) {
    |t| == 20 && t[19] == 'Z' && forall i :: 0 <= i < |t| ==> IsAscii(t[i])
  }

  method CompareOrigin(pins: Pins, m: SourceManifest) returns (problems: seq<string>)
    ensures problems == OriginProblems(pins, m)
  {
    problems := Compare("schema_version", m.schemaVersion == 1);
    problems := problems + Compare("id", m.id == pins.id);
    problems := problems + Compare("kind", m.kind == "openapi");
    problems := problems + Compare("repository", m.repository == pins.repository);
    problems := problems + Compare("revision", m.revision == pins.revision);
    problems := problems + Compare("URL", m.url == pins.url);
    problems := problems + Compare("path", m.path == pins.path);
  }

  method CompareContent(pins: Pins, m: SourceManifest, s: Summary) returns (problems: seq<string>)
    ensures problems == ContentProblems(pins, m, s)
  {
    problems := Compare("byte length", m.byteLength == s.byteLength);
    problems := problems + Compare("SHA-256", m.sha256 == s.sha256);
    problems := problems + Compare("license", m.license == pins.license);
    problems := problems + Compare("license URL", m.licenseUrl == pins.licenseUrl);
    problems := problems + Compare("OpenAPI version", m.openapiVersion == s.openapiVersion);
    problems := problems + Compare("API version", m.apiVersion == s.apiVersion);
  }

  method CompareCounts(m: SourceManifest, s: Summary) returns (problems: seq<string>)
    ensures problems == CountProblems(m, s)
  {
    problems := Compare("path count", m.pathCount == s.pathCount);
    problems := problems + Compare("client operation count", m.clientOperationCount == s.clientOperationCount);
    problems := problems + Compare("webhook count", m.webhookCount == s.webhookCount);
    problems := problems + Compare("webhook operation count", m.webhookOperationCount == s.webhookOperationCount);
    problems := problems + Compare("schema count", m.schemaCount == s.schemaCount);
  }

  /** The check, one comparison after another. */
  method VerifyManifest(pins: Pins, m: SourceManifest, s: Summary) returns (problems: seq<string>)
    ensures problems == Problems(pins, m, s)
    ensures problems == [] <==> m == New(pins, m.fetchedAt, s) && FetchedAtOk(m.fetchedAt)
  {
    var origin := CompareOrigin(pins, m);
    var content := CompareContent(pins, m, s);
    var counts := CompareCounts(m, s);
    NoProblemsMeans(pins, m, s);
    var t := m.fetchedAt;
    var bad := |t| != 20 || t[|t| - 1] != 'Z' || exists i :: 0 <= i < |t| && !IsAscii(t[i]);
    problems := origin + content + counts + Compare("fetched_at", !bad);
  }

  lemma {:induction false} NoOriginProblems(pins: Pins, m: SourceManifest)
    ensures OriginProblems(pins, m) == [] <==>
            m.schemaVersion == 1 && m.id == pins.id && m.kind == "openapi" && m.repository == pins.repository
            && m.revision == pins.revision && m.url == pins.url && m.path == pins.path
  {
  }

  lemma {:induction false} NoContentProblems(pins: Pins, m: SourceManifest, s: Summary)
    ensures ContentProblems(pins, m, s) == [] <==>
            m.byteLength == s.byteLength && m.sha256 == s.sha256 && m.license == pins.license && m.licenseUrl == pins.licenseUrl
            && m.openapiVersion == s.openapiVersion && m.apiVersion == s.apiVersion
  {
  }

  lemma {:induction false} NoCountProblems(m: SourceManifest, s: Summary)
    ensures CountProblems(m, s) == [] <==>
            m.pathCount == s.pathCount && m.clientOperationCount == s.clientOperationCount && m.webhookCount == s.webhookCount
            && m.webhookOperationCount == s.webhookOperationCount && m.schemaCount == s.schemaCount
  {
  }

  lemma {:induction false} AllEmpty<T>(a: seq<T>, b: seq<T>, c: seq<T>, d: seq<T>)
    ensures a + b + c + d == [] <==> a == [] && b == [] && c == [] && d == []
  {
    assert |a + b + c + d| == |a| + |b| + |c| + |d|;
  }

  /** A manifest passes the check if and only if it is the fresh manifest of its summary with
      a well-shaped timestamp: no field is left unchecked. */
  lemma {:induction false} NoProblemsMeans(pins: Pins, m: SourceManifest, s: Summary)
    ensures Problems(pins, m, s) == [] <==> m == New(pins, m.fetchedAt, s) && FetchedAtOk(m.fetchedAt)
  {
    NoOriginProblems(pins, m);
    NoContentProblems(pins, m, s);
    NoCountProblems(m, s);
    AllEmpty(OriginProblems(pins, m), ContentProblems(pins, m, s), CountProblems(m, s),
             Compare("fetched_at", FetchedAtOk(m.fetchedAt)));
  }

  /** A manifest freshly made at a second of the clock, printed and parsed again, is read back if
      and only if its texts are portable, and then passes the check if and only if the second
      lies before year 10000. */
  lemma {:induction false} FreshManifestVerifies(shown: char -> bool, notes: seq<string>, pins: Pins, s: Summary, seconds: nat)
    requires forall i :: 0 <= i < |notes| ==> Note(notes[i])
    requires FitsWords(New(pins, Timestamp.FormatUtc(seconds), s))
    ensures var m := New(pins, Timestamp.FormatUtc(seconds), s); var back := Parse(Render(shown, notes, m), pins.id);
            && (back.Ok? <==> PortableManifest(shown, m))
            && (back.Ok? ==> (Problems(pins, back.value, s) == [] <==> seconds < Timestamp.YEAR_10000))
  {
    var m := New(pins, Timestamp.FormatUtc(seconds), s);
    RenderedAlone(shown, notes, m);
    NoProblemsMeans(pins, m, s);
    Timestamp.TimestampShape(seconds);
  }

  lemma {:induction false} RenderedAlone(shown: char -> bool, notes: seq<string>, m: SourceManifest)
    requires forall i :: 0 <= i < |notes| ==> Note(notes[i])
    requires FitsWords(m)
    ensures var back := Parse(Render(shown, notes, m), m.id); if PortableManifest(shown, m) then back == Ok(m) else back.Err?
  {
    ManifestRoundTrip(shown, notes, m, []);
    assert Render(shown, notes, m) + Unlines(BlocksLines([])) == Render(shown, notes, m);
  }
}
