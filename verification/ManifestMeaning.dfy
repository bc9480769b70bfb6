/** What the manifest parser accepts, and what the printer writes, line by line. */
module ManifestMeaning {
  import opened JsonValue
  import opened JsonString
  import opened JsonForms
  import opened Text
  import opened ManifestText
  import opened Manifest

  // ----- Numbers -----

  /** A number with any leading zeros, and perhaps a plus sign. */
  ghost predicate IsNumber(raw: string, n: nat) {
    n < 0x1_0000_0000_0000_0000 && exists z: nat :: raw == Zeros(z) + Decimal(n) || raw == "+" + (Zeros(z) + Decimal(n))
  }

  lemma {:induction false} ValueAfterZeros(z: nat, d: string)
    requires AllDigits(d)
    ensures AllDigits(Zeros(z) + d) && Value(Zeros(z) + d) == Value(d)
  {
    var s := Zeros(z) + d;
    if d == "" {
      ValueZeros(z);
      assert s == Zeros(z);
    } else {
      ValueAfterZeros(z, d[..|d| - 1]);
      assert s[..|s| - 1] == Zeros(z) + d[..|d| - 1];
    }
  }

  /** Every digit string is some zeros and the decimal of its value. */
  lemma {:induction false} DigitsAreDecimal(d: string) returns (z: nat)
    requires d != "" && AllDigits(d)
    ensures d == Zeros(z) + Decimal(Value(d))
  {
    var n := |d| - 1;
    var init, last := d[..n], (d[n] - '0') as int;
    assert DigitChar(last) == d[n] && d == init + [d[n]];
    if init == "" {
      z := 0;
      assert Zeros(0) + Decimal(last) == [d[n]];
    } else {
      z := DigitsAreDecimal(init);
      if Value(init) == 0 {
        assert Decimal(0) == "0" && Zeros(z) + "0" == Zeros(z + 1);
        z := z + 1;
        assert Decimal(last) == [d[n]];
      } else {
        assert Decimal(Value(d)) == Decimal(Value(init)) + [d[n]];
      }
    }
  }

  ghost predicate Reads(d: string, n: nat) { d != "" && AllDigits(d) && Value(d) == n }

  lemma {:induction false} DigitsMean(d: string, n: nat)
    ensures Reads(d, n) <==> exists z: nat :: d == Zeros(z) + Decimal(n)
  {
    if Reads(d, n) {
      var z := DigitsAreDecimal(d);
    }
    if z: nat :| d == Zeros(z) + Decimal(n) {
      PaddedReadsBack(n, 0);
      ValueAfterZeros(z, Decimal(n));
    }
  }

  lemma {:induction false} SignedOrNot(raw: string, n: nat)
    ensures ParseU64(raw) == Some(n) <==> n < U64_LIMIT && (Reads(raw, n) || (raw != "" && raw[0] == '+' && Reads(raw[1..], n)))
  {
    if raw != "" && raw[0] == '+' { assert !IsDigit(raw[0]); }
  }

  /** A number is accepted if and only if it is written in digits and fits a machine word. */
  lemma {:induction false} NumbersMean(raw: string, n: nat)
    ensures ParseU64(raw) == Some(n) <==> IsNumber(raw, n)
  {
    SignedOrNot(raw, n);
    DigitsMean(raw, n);
    if raw != "" {
      DigitsMean(raw[1..], n);
      AfterSign(raw, raw[1..], n);
    } else {
      PaddedReadsBack(n, 0);
    }
  }

  lemma {:induction false} AfterSign(raw: string, digits: string, n: nat)
    requires raw != "" && digits == raw[1..]
    ensures raw[0] == '+' && (exists z: nat :: digits == Zeros(z) + Decimal(n)) <==>
            exists z: nat :: raw == "+" + (Zeros(z) + Decimal(n))
  {
    if raw[0] == '+' { assert raw == "+" + digits; }
    if z: nat :| raw == "+" + (Zeros(z) + Decimal(n)) {
      assert digits == Zeros(z) + Decimal(n);
    }
  }

  // ----- Fields -----

  lemma {:induction false} StringFieldMeans(v: Table, key: string, text: string)
    ensures TakeString(v, key) == Ok(text) <==> key in v && IsText(v[key], text)
  {
    if key in v { StringsMean(v[key], text); }
  }

  lemma {:induction false} NumberFieldMeans(v: Table, key: string, n: nat)
    ensures TakeU64(v, key) == Ok(n) <==> key in v && IsNumber(v[key], n)
  {
    if key in v { NumbersMean(v[key], n); }
  }

  /** The key holds this value, written as a JSON string or as a number. */
  ghost predicate HoldsField(v: Table, key: string, value: FieldValue) {
    key in v && match value case TextValue(text) => IsText(v[key], text) case CountValue(n) => IsNumber(v[key], n)
  }

  lemma {:induction false} FieldMeans(v: Table, key: string, isCount: bool, value: FieldValue)
    ensures TakeField(v, key, isCount) == Ok(value) <==> value.CountValue? == isCount && HoldsField(v, key, value)
  {
    match value {
      case TextValue(text) => StringFieldMeans(v, key, text);
      case CountValue(n) => NumberFieldMeans(v, key, n);
    }
  }

  lemma {:induction false} FieldsMean(v: Table, names: seq<string>, values: seq<FieldValue>)
    ensures TakeFields(v, names) == Ok(values) <==>
            |values| == |names| && forall i :: 0 <= i < |names| ==> TakeField(v, names[i], IsCount(i)) == Ok(values[i])
  {
    if |values| == |names| && forall i :: 0 <= i < |names| ==> TakeField(v, names[i], IsCount(i)) == Ok(values[i]) {
      TakesAll(v, names, values);
    }
    if TakeFields(v, names) == Ok(values) {
      EachTaken(v, names, values);
    }
  }

  lemma {:induction false} EachTaken(v: Table, names: seq<string>, values: seq<FieldValue>)
    requires TakeFields(v, names) == Ok(values)
    ensures |values| == |names| && forall i :: 0 <= i < |names| ==> TakeField(v, names[i], IsCount(i)) == Ok(values[i])
  {
    if names != [] {
      var n := |names| - 1;
      EachTaken(v, names[..n], values[..n]);
    }
  }

  // ----- Sources -----

  ghost predicate Identifies(v: Table, id: string) { "id" in v && IsText(v["id"], id) }

  ghost predicate Readable(v: Table) { exists text :: Identifies(v, text) }

  /** Every source has a readable id, and `i` is the only one with this id. */
  ghost predicate OnlySource(sources: seq<Table>, id: string, i: nat) {
    && i < |sources| && (forall j :: 0 <= j < |sources| ==> Readable(sources[j]))
    && forall j :: 0 <= j < |sources| ==> (Identifies(sources[j], id) <==> j == i)
  }

  lemma {:induction false} IdentifiesMeans(v: Table, id: string)
    ensures TakeString(v, "id").Ok? <==> Readable(v)
    ensures TakeString(v, "id") == Ok(id) <==> Identifies(v, id)
  {
    StringFieldMeans(v, "id", id);
    if TakeString(v, "id").Ok? {
      StringFieldMeans(v, "id", TakeString(v, "id").value);
      assert Identifies(v, TakeString(v, "id").value);
    }
    if text :| Identifies(v, text) { StringFieldMeans(v, "id", text); }
  }

  ghost predicate AllReadable(sources: seq<Table>) { forall j :: 0 <= j < |sources| ==> TakeString(sources[j], "id").Ok? }

  ghost predicate HasId(sources: seq<Table>, id: string, j: nat) { j < |sources| && TakeString(sources[j], "id") == Ok(id) }

  ghost predicate NoneHas(sources: seq<Table>, id: string) { forall j: nat :: !HasId(sources, id, j) }

  ghost predicate OneHas(sources: seq<Table>, id: string, i: nat) { forall j: nat :: HasId(sources, id, j) <==> j == i }

  ghost predicate OneIs(sources: seq<Table>, id: string, v: Table) {
    exists i: nat :: i < |sources| && OneHas(sources, id, i) && sources[i] == v
  }

  lemma {:induction false} HasIdSnoc(sources: seq<Table>, id: string, n: nat)
    requires |sources| == n + 1
    ensures AllReadable(sources) <==> AllReadable(sources[..n]) && TakeString(sources[n], "id").Ok?
    ensures forall j: nat :: HasId(sources, id, j) <==> HasId(sources[..n], id, j) || (j == n && HasId(sources, id, n))
    ensures !HasId(sources[..n], id, n)
  {
  }

  lemma {:induction false} OneSnoc(sources: seq<Table>, id: string, n: nat, v: Table)
    requires |sources| == n + 1
    ensures NoneHas(sources, id) <==> NoneHas(sources[..n], id) && !HasId(sources, id, n)
    ensures OneIs(sources, id, v) <==>
            if HasId(sources, id, n) then NoneHas(sources[..n], id) && sources[n] == v else OneIs(sources[..n], id, v)
  {
    HasIdSnoc(sources, id, n);
    if HasId(sources, id, n) {
      if NoneHas(sources[..n], id) { assert OneHas(sources, id, n); }
    } else {
      assert forall i: nat :: OneHas(sources, id, i) <==> OneHas(sources[..n], id, i);
      if i: nat :| i < |sources| && OneHas(sources, id, i) && sources[i] == v {
        assert HasId(sources, id, i) && sources[..n][i] == v;
      }
    }
  }

  /** No source, or exactly one, has the id. */
  lemma {:induction false} MatchingMeans(sources: seq<Table>, id: string, v: Table)
    ensures Matching(sources, id).Ok? <==> AllReadable(sources)
    ensures Matching(sources, id) == Ok([]) <==> AllReadable(sources) && NoneHas(sources, id)
    ensures Matching(sources, id) == Ok([v]) <==> AllReadable(sources) && OneIs(sources, id, v)
  {
    if sources != [] {
      var n := |sources| - 1;
      MatchingMeans(sources[..n], id, v);
      HasIdSnoc(sources, id, n);
      OneSnoc(sources, id, n, v);
      if Matching(sources, id).Ok? {
        var sofar := Matching(sources[..n], id).value;
        if HasId(sources, id, n) {
          assert sofar == [] ==> sofar + [sources[n]] == [sources[n]];
          assert sofar + [sources[n]] == [v] ==> |sofar + [sources[n]]| == 1 && (sofar + [sources[n]])[|sofar|] == v;
        } else {
          assert sofar + [] == sofar;
        }
      }
    }
  }

  lemma {:induction false} OnlyMeans(sources: seq<Table>, id: string)
    ensures forall i: nat :: OnlySource(sources, id, i) <==> i < |sources| && AllReadable(sources) && OneHas(sources, id, i)
  {
    forall j | 0 <= j < |sources|
      ensures TakeString(sources[j], "id").Ok? <==> Readable(sources[j])
      ensures HasId(sources, id, j) <==> Identifies(sources[j], id)
    {
      IdentifiesMeans(sources[j], id);
    }
    assert AllReadable(sources) <==> forall j :: 0 <= j < |sources| ==> Readable(sources[j]);
    forall i: nat | i < |sources|
      ensures OneHas(sources, id, i) <==> forall j :: 0 <= j < |sources| ==> (Identifies(sources[j], id) <==> j == i)
    {
      if OneHas(sources, id, i) {
        forall j | 0 <= j < |sources| ensures Identifies(sources[j], id) <==> j == i {
          assert HasId(sources, id, j) <==> j == i;
        }
      }
    }
  }

  lemma {:induction false} SelectTakes(names: seq<string>, t: Tables, id: string, version: nat, values: seq<FieldValue>)
    ensures Select(names, t, id) == Ok((version, values)) <==>
            && TakeU64(t.top, "schema_version") == Ok(version)
            && exists v :: Matching(AllSources(t), id) == Ok([v]) && Assemble(names, v) == Ok(values)
  {
    if Select(names, t, id) == Ok((version, values)) {
      var found := Matching(AllSources(t), id).value;
      assert found == [found[0]];
    }
  }

  /** The selection succeeds if and only if every source has a readable id, exactly one has the
      wanted one, that one has no other keys than the known ones and holds a value of the right
      kind under each of them, and the top holds the schema version. */
  lemma {:induction false} SelectMeans(names: seq<string>, t: Tables, id: string, version: nat, values: seq<FieldValue>)
    ensures Select(names, t, id) == Ok((version, values)) <==>
            && "schema_version" in t.top && IsNumber(t.top["schema_version"], version)
            && exists i: nat :: OnlySource(AllSources(t), id, i) && Assembles(AllSources(t)[i], names, values)
  {
    SelectTakes(names, t, id, version, values);
    NumberFieldMeans(t.top, "schema_version", version);
    TakenIsOne(AllSources(t), id, names, values);
    SomeIsSome(AllSources(t), id, names, values);
    OnlyIsOne(AllSources(t), id, names, values);
  }

  lemma {:induction false} OnlyIsOne(sources: seq<Table>, id: string, names: seq<string>, values: seq<FieldValue>)
    ensures (exists i: nat :: i < |sources| && AllReadable(sources) && OneHas(sources, id, i)
                && Assembles(sources[i], names, values))
            <==> exists i: nat :: OnlySource(sources, id, i) && Assembles(sources[i], names, values)
  {
    OnlyMeans(sources, id);
  }

  lemma {:induction false} TakenIsOne(sources: seq<Table>, id: string, names: seq<string>, values: seq<FieldValue>)
    ensures (exists v :: Matching(sources, id) == Ok([v]) && Assemble(names, v) == Ok(values)) <==>
            exists v :: AllReadable(sources) && OneIs(sources, id, v) && Assembles(v, names, values)
  {
    forall v
      ensures Matching(sources, id) == Ok([v]) && Assemble(names, v) == Ok(values) <==>
              AllReadable(sources) && OneIs(sources, id, v) && Assembles(v, names, values)
    {
      MatchingMeans(sources, id, v);
      AssembleMeans(v, names, values);
    }
  }

  lemma {:induction false} SomeIsSome(sources: seq<Table>, id: string, names: seq<string>, values: seq<FieldValue>)
    ensures (exists v :: AllReadable(sources) && OneIs(sources, id, v) && Assembles(v, names, values)) <==>
            exists i: nat :: i < |sources| && AllReadable(sources) && OneHas(sources, id, i)
              && Assembles(sources[i], names, values)
  {
    if v :| AllReadable(sources) && OneIs(sources, id, v) && Assembles(v, names, values) {
      var i: nat :| i < |sources| && OneHas(sources, id, i) && sources[i] == v;
    }
    if i: nat :| i < |sources| && AllReadable(sources) && OneHas(sources, id, i) && Assembles(sources[i], names, values) {
      assert OneIs(sources, id, sources[i]);
    }
  }

  ghost predicate Assembles(v: Table, names: seq<string>, values: seq<FieldValue>) {
    && (forall k :: k in v ==> k in names) && |values| == |names|
    && forall i :: 0 <= i < |names| ==> values[i].CountValue? == IsCount(i) && HoldsField(v, names[i], values[i])
  }

  lemma {:induction false} AssembleMeans(v: Table, names: seq<string>, values: seq<FieldValue>)
    ensures Assemble(names, v) == Ok(values) <==> Assembles(v, names, values)
  {
    FieldsMean(v, names, values);
    if |values| == |names| {
      forall i | 0 <= i < |names|
        ensures TakeField(v, names[i], IsCount(i)) == Ok(values[i]) <==>
                  values[i].CountValue? == IsCount(i) && HoldsField(v, names[i], values[i])
      {
        FieldMeans(v, names[i], IsCount(i), values[i]);
      }
    }
  }

  // ----- The printed lines -----

  function KeyLine(key: string, raw: string): string { key + (" = " + raw) }

  /** The eighteen printed entries, one by one. */
  ghost predicate FirstEntries(shown: char -> bool, m: SourceManifest, lines: seq<string>) {
    && |lines| == 18
    && lines[0] == KeyLine("id", DebugQuote(shown, m.id))
    && lines[1] == KeyLine("kind", DebugQuote(shown, m.kind))
    && lines[2] == KeyLine("repository", DebugQuote(shown, m.repository))
    && lines[3] == KeyLine("revision", DebugQuote(shown, m.revision))
    && lines[4] == KeyLine("url", DebugQuote(shown, m.url))
    && lines[5] == KeyLine("path", DebugQuote(shown, m.path))
    && lines[6] == KeyLine("fetched_at", DebugQuote(shown, m.fetchedAt))
    && lines[7] == KeyLine("byte_length", Decimal(m.byteLength))
    && lines[8] == KeyLine("sha256", DebugQuote(shown, m.sha256))
  }

  ghost predicate LastEntries(shown: char -> bool, m: SourceManifest, lines: seq<string>) {
    && |lines| == 18
    && lines[9] == KeyLine("license", DebugQuote(shown, m.license))
    && lines[10] == KeyLine("license_url", DebugQuote(shown, m.licenseUrl))
    && lines[11] == KeyLine("openapi_version", DebugQuote(shown, m.openapiVersion))
    && lines[12] == KeyLine("api_version", DebugQuote(shown, m.apiVersion))
    && lines[13] == KeyLine("path_count", Decimal(m.pathCount))
    && lines[14] == KeyLine("client_operation_count", Decimal(m.clientOperationCount))
    && lines[15] == KeyLine("webhook_count", Decimal(m.webhookCount))
    && lines[16] == KeyLine("webhook_operation_count", Decimal(m.webhookOperationCount))
    && lines[17] == KeyLine("schema_count", Decimal(m.schemaCount))
  }

  lemma {:induction false} EachEntryShown(shown: char -> bool, names: seq<string>, values: seq<FieldValue>, i: nat)
    requires |names| == |values| && i < |names|
    ensures PrintedAll(EntriesOf(shown, names, values))[i] == KeyLine(names[i], Raw(shown, values[i]))
  {
  }

  ghost predicate FirstFields(m: SourceManifest, names: seq<string>, values: seq<FieldValue>) {
    && |names| == |values| == 18
    && names[0] == "id" && names[1] == "kind" && names[2] == "repository"
    && names[3] == "revision" && names[4] == "url" && names[5] == "path"
    && names[6] == "fetched_at" && names[7] == "byte_length" && names[8] == "sha256"
    && values[0] == TextValue(m.id) && values[1] == TextValue(m.kind) && values[2] == TextValue(m.repository)
    && values[3] == TextValue(m.revision) && values[4] == TextValue(m.url) && values[5] == TextValue(m.path)
    && values[6] == TextValue(m.fetchedAt) && values[7] == CountValue(m.byteLength) && values[8] == TextValue(m.sha256)
  }

  lemma {:induction false} FirstFieldsAre(m: SourceManifest)
    ensures FirstFields(m, FIELDS, FieldValues(m))
  {
  }

  lemma {:induction false} FirstShown(shown: char -> bool, m: SourceManifest, names: seq<string>, values: seq<FieldValue>,
                                     lines: seq<string>)
    requires FirstFields(m, names, values) && |lines| == 18
    requires forall i :: 0 <= i < 18 ==> lines[i] == KeyLine(names[i], Raw(shown, values[i]))
    ensures FirstEntries(shown, m, lines)
  {
  }

  ghost predicate LastFields(m: SourceManifest, names: seq<string>, values: seq<FieldValue>) {
    && |names| == |values| == 18
    && names[9] == "license" && names[10] == "license_url" && names[11] == "openapi_version"
    && names[12] == "api_version" && names[13] == "path_count" && names[14] == "client_operation_count"
    && names[15] == "webhook_count" && names[16] == "webhook_operation_count" && names[17] == "schema_count"
    && values[9] == TextValue(m.license) && values[10] == TextValue(m.licenseUrl) && values[11] == TextValue(m.openapiVersion)
    && values[12] == TextValue(m.apiVersion) && values[13] == CountValue(m.pathCount)
    && values[14] == CountValue(m.clientOperationCount)
    && values[15] == CountValue(m.webhookCount) && values[16] == CountValue(m.webhookOperationCount)
    && values[17] == CountValue(m.schemaCount)
  }

  lemma {:induction false} LastFieldsAre(m: SourceManifest)
    ensures LastFields(m, FIELDS, FieldValues(m))
  {
  }

  lemma {:induction false} LastShown(shown: char -> bool, m: SourceManifest, names: seq<string>, values: seq<FieldValue>,
                                     lines: seq<string>)
    requires LastFields(m, names, values) && |lines| == 18
    requires forall i :: 0 <= i < 18 ==> lines[i] == KeyLine(names[i], Raw(shown, values[i]))
    ensures LastEntries(shown, m, lines)
  {
  }

  /** The printed manifest: the notes, the schema version and one source with its eighteen entries. */
  lemma {:induction false} PrintedLines(shown: char -> bool, notes: seq<string>, m: SourceManifest)
    returns (entries: seq<string>)
    ensures RenderLines(shown, notes, FIELDS, m.schemaVersion, FieldValues(m)) ==
            notes + (["", KeyLine("schema_version", Decimal(m.schemaVersion)), "", "[[source]]"] + entries)
    ensures FirstEntries(shown, m, entries) && LastEntries(shown, m, entries)
  {
    entries := PrintedAll(EntriesOf(shown, FIELDS, FieldValues(m)));
    forall i | 0 <= i < 18
      ensures entries[i] == KeyLine(FIELDS[i], Raw(shown, FieldValues(m)[i]))
    {
      EachEntryShown(shown, FIELDS, FieldValues(m), i);
    }
    FirstFieldsAre(m);
    LastFieldsAre(m);
    FirstShown(shown, m, FIELDS, FieldValues(m), entries);
    LastShown(shown, m, FIELDS, FieldValues(m), entries);
    FourAndMore("", KeyLine("schema_version", Decimal(m.schemaVersion)), "", "[[source]]", entries);
  }

  lemma {:induction false} FourAndMore<T>(a: T, b: T, c: T, d: T, more: seq<T>)
    ensures [a] + ([b] + ([c] + ([d] + more))) == [a, b, c, d] + more
  {
  }

  // ----- Lines and blanks -----

  /** The characters of the Unicode property White_Space. */
  lemma {:induction false} WhiteSpaceMeans(c: char)
    ensures IsWhite(c) <==>
            (c as int) in {9, 10, 11, 12, 13, 0x20, 0x85, 0xA0, 0x1680, 0x2000, 0x2001, 0x2002, 0x2003, 0x2004, 0x2005, 0x2006,
                           0x2007, 0x2008, 0x2009, 0x200A, 0x2028, 0x2029, 0x202F, 0x205F, 0x3000}
  {
  }

  ghost predicate AllWhite(s: string) { forall i :: 0 <= i < |s| ==> IsWhite(s[i]) }

  /** Trimming takes off white space at both ends, and all of it. */
  lemma {:induction false} TrimMeans(s: string) returns (before: string, after: string)
    ensures s == before + (Trim(s) + after) && AllWhite(before) && AllWhite(after)
    ensures Trim(s) != "" ==> !IsWhite(Trim(s)[0]) && !IsWhite(Trim(s)[|Trim(s)| - 1])
  {
    var rest := TrimStart(s);
    before := StartMeans(s);
    after := EndMeans(rest);
    if Trim(s) != "" {
      assert rest[0] == Trim(s)[0];
    }
  }

  lemma {:induction false} StartMeans(s: string) returns (before: string)
    ensures s == before + TrimStart(s) && AllWhite(before)
    ensures TrimStart(s) != "" ==> !IsWhite(TrimStart(s)[0])
  {
    if s != "" && IsWhite(s[0]) {
      var more := StartMeans(s[1..]);
      before := [s[0]] + more;
      assert s == [s[0]] + s[1..];
    } else {
      before := "";
    }
  }

  lemma {:induction false} EndMeans(s: string) returns (after: string)
    ensures s == TrimEnd(s) + after && AllWhite(after)
    ensures TrimEnd(s) != "" ==> !IsWhite(TrimEnd(s)[|TrimEnd(s)| - 1])
  {
    if s != "" && IsWhite(s[|s| - 1]) {
      var n := |s| - 1;
      var more := EndMeans(s[..n]);
      after := more + [s[n]];
      assert s == s[..n] + [s[n]];
    } else {
      after := "";
    }
  }

  /** A line may end in a line feed or in a carriage return and a line feed. */
  lemma {:induction false} LineEnds(line: string, rest: string)
    requires PlainLine(line)
    ensures Lines(line + ("\n" + rest)) == [line] + Lines(rest)
    ensures Lines((line + "\r") + ("\n" + rest)) == [line] + Lines(rest)
  {
    LinesCons(line, rest);
    LineTaken(line + "\r", rest);
  }

  lemma {:induction false} LineTaken(ended: string, rest: string)
    requires '\n' !in ended
    ensures Lines(ended + ("\n" + rest)) == [StripCr(ended)] + Lines(rest)
  {
    var text := ended + ("\n" + rest);
    FindAt(ended, '\n', rest);
    assert text[..|ended|] == ended && text[|ended| + 1..] == rest;
  }
}
