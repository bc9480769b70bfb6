/** What a drift report means, and the relation of an empty report. */
module DriftLaws {
  import opened Drift

  // ----- Reference: the changes that two descriptions warrant -----

  /** Whether a change is true of the two descriptions, by kind of change. */
  ghost predicate Warranted(c: Change, a: Description, b: Description) {
    match c
    case SchemaAdded(name) => name in b.schemas && name !in a.schemas
    case SchemaSunset(name) => name in a.schemas && name !in b.schemas && SunsetSchema(name)
    case SchemaRemoved(name) => name in a.schemas && name !in b.schemas && !SunsetSchema(name)
    case OperationSunset(id, m, p) => Gone(id, m, p, a, b) && (SunsetPath(p) || a.operations[id].deprecated)
    case OperationRemoved(id, m, p) => Gone(id, m, p, a, b) && !SunsetPath(p) && !a.operations[id].deprecated
    case OperationOmitted(id, p) =>
      id in b.operations && id !in a.operations && b.operations[id].path == p && SunsetPath(p)
    case OperationAdded(id, m, p) => Gone(id, m, p, b, a) && !SunsetPath(p)
    case _ => c.id in a.operations && c.id in b.operations && Altered(c, a.operations[c.id], b.operations[c.id])
  }

  /** The operation is in the first description, with this route, and not in the second. */
  ghost predicate Gone(id: string, m: string, p: string, a: Description, b: Description) {
    id in a.operations && id !in b.operations && a.operations[id].method_ == m && a.operations[id].path == p
  }

  /** Whether a change of a kept operation is true of its two versions. */
  ghost predicate Altered(c: Change, a: OperationMeta, b: OperationMeta) {
    match c
    case RouteChanged(_, m1, p1, m2, p2) =>
      (m1, p1) == (a.method_, a.path) && (m2, p2) == (b.method_, b.path) && (m1, p1) != (m2, p2)
    case MarkedDeprecated(_, p) => p == b.path && !a.deprecated && b.deprecated
    case StatusesChanged(_, s1, s2) => s1 == a.successStatuses && s2 == b.successStatuses && s1 != s2
    case ParameterMoved(_, p, l1, l2) =>
      p in a.locations && p in b.locations && a.locations[p] == l1 && b.locations[p] == l2 && l1 != l2
    case LocationDeclared(_, p, l) => p !in a.locations && p in b.locations && b.locations[p] == l
    case RequiredAdded(_, p) => p in b.required - a.required
    case OptionalAdded(_, p) => p in b.optional - a.optional - a.required
    case _ => false
  }

  // ----- Gathering -----

  /** The loop that finds a change of this kind, counted in program order. */
  function Phase(c: Change): nat {
    match c
    case RouteChanged(_, _, _, _, _) => 0
    case MarkedDeprecated(_, _) => 1
    case StatusesChanged(_, _, _) => 2
    case ParameterMoved(_, _, _, _) => 3
    case LocationDeclared(_, _, _) => 3
    case RequiredAdded(_, _) => 4
    case OptionalAdded(_, _) => 5
    case OperationSunset(_, _, _) => 6
    case OperationRemoved(_, _, _) => 6
    case OperationOmitted(_, _) => 7
    case OperationAdded(_, _, _) => 7
    case SchemaAdded(_) => 8
    case SchemaSunset(_) => 9
    case SchemaRemoved(_) => 9
  }

  function Subject(c: Change): string { if Phase(c) >= 8 then c.schema else c.id }

  function Param(c: Change): string { if 3 <= Phase(c) <= 5 then c.param else "" }

  /** What is found for an element names that element, and is found once. */
  ghost predicate Keyed(xs: seq<string>, find: string -> seq<Change>, key: Change -> string) {
    (forall x, c :: x in xs && c in find(x) ==> key(c) == x) && forall x :: x in xs ==> Distinct(find(x))
  }

  lemma {:induction false} GatherMember(xs: seq<string>, find: string -> seq<Change>, key: Change -> string, c: Change)
    requires Keyed(xs, find, key)
    ensures c in Gather(xs, find) <==> key(c) in xs && c in find(key(c))
  {
    if xs != [] {
      var n := |xs| - 1;
      GatherMember(xs[..n], find, key, c);
      assert forall x :: x in xs <==> x in xs[..n] || x == xs[n];
    }
  }

  lemma {:induction false} DistinctConcat(s: seq<Change>, t: seq<Change>)
    requires Distinct(s) && Distinct(t) && forall c :: c in s ==> c !in t
    ensures Distinct(s + t)
  {
    forall i, j | 0 <= i < j < |s + t| ensures (s + t)[i] != (s + t)[j] {
      if i < |s| <= j {
        assert s[i] in s && t[j - |s|] in t;
      }
    }
  }

  lemma {:induction false} GatherDistinct(xs: seq<string>, find: string -> seq<Change>, key: Change -> string)
    requires Distinct(xs) && Keyed(xs, find, key)
    ensures Distinct(Gather(xs, find))
  {
    if xs != [] {
      var n := |xs| - 1;
      GatherDistinct(xs[..n], find, key);
      forall c | c in Gather(xs[..n], find) ensures c !in find(xs[n]) {
        GatherMember(xs[..n], find, key, c);
      }
      DistinctConcat(Gather(xs[..n], find), find(xs[n]));
    }
  }

  /** Finding exactly the true changes of each element finds exactly the true changes. */
  lemma {:induction false} Gathered(xs: seq<string>, find: string -> seq<Change>, key: Change -> string, truth: Change -> bool)
    requires Distinct(xs) && forall x :: x in xs ==> Distinct(find(x))
    requires forall x, c :: x in xs ==> (c in find(x) <==> key(c) == x && truth(c))
    requires forall c :: truth(c) ==> key(c) in xs
    ensures Distinct(Gather(xs, find)) && forall c :: c in Gather(xs, find) <==> truth(c)
  {
    GatherDistinct(xs, find, key);
    forall c ensures c in Gather(xs, find) <==> truth(c) {
      GatherMember(xs, find, key, c);
    }
  }

  /** The same where each element has at most one change. */
  ghost predicate Finds(xs: seq<string>, find: string -> seq<Change>, key: Change -> string, truth: Change -> bool) {
    && (forall x :: x in xs ==> |find(x)| <= 1)
    && (forall x, c :: x in xs ==> (c in find(x) <==> key(c) == x && truth(c)))
    && forall c :: truth(c) ==> key(c) in xs
  }

  lemma {:induction false} GatheredSingly(xs: seq<string>, find: string -> seq<Change>, key: Change -> string,
                                          truth: Change -> bool)
    requires Distinct(xs) && Finds(xs, find, key, truth)
    ensures Distinct(Gather(xs, find)) && forall c :: c in Gather(xs, find) <==> truth(c)
  {
    Gathered(xs, find, key, truth);
  }

  /** All changes come from loops before the `k`-th. */
  ghost predicate Before(s: seq<Change>, k: nat) { forall c :: c in s ==> Phase(c) < k }

  ghost predicate Within(s: seq<Change>, k: nat) { forall c :: c in s ==> Phase(c) == k }

  lemma {:induction false} NextPhase(s: seq<Change>, t: seq<Change>, k: nat)
    requires Distinct(s) && Distinct(t) && Before(s, k) && Within(t, k)
    ensures Distinct(s + t) && Before(s + t, k + 1)
  {
    DistinctConcat(s, t);
  }

  // ----- Changes of a kept operation -----

  ghost function LocationTruth(id: string, a: OperationMeta, b: OperationMeta): Change -> bool {
    c => Phase(c) == 3 && c.id == id && Altered(c, a, b)
  }

  lemma {:induction false} LocationMember(id: string, a: OperationMeta, b: OperationMeta, p: string)
    requires p in b.locations
    ensures |LocationChange(id, a, b, p)| <= 1
    ensures forall c :: c in LocationChange(id, a, b, p) <==> Param(c) == p && LocationTruth(id, a, b)(c)
  {
  }

  lemma {:induction false} LocationListed(id: string, a: OperationMeta, b: OperationMeta)
    ensures forall c :: LocationTruth(id, a, b)(c) ==> Param(c) in b.locations
  {
  }

  lemma {:induction false} LocationsMember(id: string, a: OperationMeta, b: OperationMeta)
    ensures var found := Gather(Names(b.locations.Keys), Locations(id, a, b));
            Distinct(found) && forall c :: c in found <==> LocationTruth(id, a, b)(c)
  {
    LocationListed(id, a, b);
    forall p | p in Names(b.locations.Keys)
      ensures |Locations(id, a, b)(p)| <= 1 &&
              forall c :: c in Locations(id, a, b)(p) <==> Param(c) == p && LocationTruth(id, a, b)(c)
    {
      LocationMember(id, a, b, p);
    }
    GatheredSingly(Names(b.locations.Keys), Locations(id, a, b), Param, LocationTruth(id, a, b));
  }

  ghost function RequiredTruth(id: string, a: OperationMeta, b: OperationMeta): Change -> bool {
    c => Phase(c) == 4 && c.id == id && Altered(c, a, b)
  }

  lemma {:induction false} RequiredMember(id: string, a: OperationMeta, b: OperationMeta, p: string)
    requires p in b.required
    ensures |RequiredChange(id, a, p)| <= 1
    ensures forall c :: c in RequiredChange(id, a, p) <==> Param(c) == p && RequiredTruth(id, a, b)(c)
  {
  }

  lemma {:induction false} RequiredListed(id: string, a: OperationMeta, b: OperationMeta)
    ensures forall c :: RequiredTruth(id, a, b)(c) ==> Param(c) in b.required
  {
  }

  lemma {:induction false} RequiredsMember(id: string, a: OperationMeta, b: OperationMeta)
    ensures var found := Gather(Names(b.required), Requireds(id, a));
            Distinct(found) && forall c :: c in found <==> RequiredTruth(id, a, b)(c)
  {
    RequiredListed(id, a, b);
    forall p | p in Names(b.required)
      ensures |Requireds(id, a)(p)| <= 1 && forall c :: c in Requireds(id, a)(p) <==> Param(c) == p && RequiredTruth(id, a, b)(c)
    {
      RequiredMember(id, a, b, p);
    }
    GatheredSingly(Names(b.required), Requireds(id, a), Param, RequiredTruth(id, a, b));
  }

  ghost function OptionalTruth(id: string, a: OperationMeta, b: OperationMeta): Change -> bool {
    c => Phase(c) == 5 && c.id == id && Altered(c, a, b)
  }

  lemma {:induction false} OptionalMember(id: string, a: OperationMeta, b: OperationMeta, p: string)
    requires p in b.optional
    ensures |OptionalChange(id, a, p)| <= 1
    ensures forall c :: c in OptionalChange(id, a, p) <==> Param(c) == p && OptionalTruth(id, a, b)(c)
  {
  }

  lemma {:induction false} OptionalListed(id: string, a: OperationMeta, b: OperationMeta)
    ensures forall c :: OptionalTruth(id, a, b)(c) ==> Param(c) in b.optional
  {
  }

  lemma {:induction false} OptionalsMember(id: string, a: OperationMeta, b: OperationMeta)
    ensures var found := Gather(Names(b.optional), Optionals(id, a));
            Distinct(found) && forall c :: c in found <==> OptionalTruth(id, a, b)(c)
  {
    OptionalListed(id, a, b);
    forall p | p in Names(b.optional)
      ensures |Optionals(id, a)(p)| <= 1 && forall c :: c in Optionals(id, a)(p) <==> Param(c) == p && OptionalTruth(id, a, b)(c)
    {
      OptionalMember(id, a, b, p);
    }
    GatheredSingly(Names(b.optional), Optionals(id, a), Param, OptionalTruth(id, a, b));
  }

  ghost function HeadTruth(id: string, a: OperationMeta, b: OperationMeta): Change -> bool {
    c => Phase(c) < 3 && c.id == id && Altered(c, a, b)
  }

  lemma {:induction false} HeadMember(id: string, a: OperationMeta, b: OperationMeta)
    ensures var found := RouteChange(id, a, b) + DeprecationChange(id, a, b) + StatusChange(id, a, b);
            Distinct(found) && forall c :: c in found <==> HeadTruth(id, a, b)(c)
  {
  }

  ghost function KeptTruth(id: string, a: OperationMeta, b: OperationMeta): Change -> bool {
    c => Phase(c) < 6 && c.id == id && Altered(c, a, b)
  }

  lemma {:induction false} KeptTruths(id: string, a: OperationMeta, b: OperationMeta)
    ensures forall c :: HeadTruth(id, a, b)(c) ==> Phase(c) < 3
    ensures forall c :: LocationTruth(id, a, b)(c) ==> Phase(c) == 3
    ensures forall c :: RequiredTruth(id, a, b)(c) ==> Phase(c) == 4
    ensures forall c :: OptionalTruth(id, a, b)(c) ==> Phase(c) == 5
    ensures forall c :: KeptTruth(id, a, b)(c) <==>
                        HeadTruth(id, a, b)(c) || LocationTruth(id, a, b)(c) ||
                        RequiredTruth(id, a, b)(c) || OptionalTruth(id, a, b)(c)
  {
  }

  lemma {:induction false} MatchedMember(id: string, a: OperationMeta, b: OperationMeta)
    ensures Distinct(MatchedChanges(id, a, b))
    ensures forall c :: c in MatchedChanges(id, a, b) <==> KeptTruth(id, a, b)(c)
  {
    HeadMember(id, a, b);
    LocationsMember(id, a, b);
    RequiredsMember(id, a, b);
    OptionalsMember(id, a, b);
    KeptTruths(id, a, b);
    JoinTruths(RouteChange(id, a, b) + DeprecationChange(id, a, b) + StatusChange(id, a, b), HeadTruth(id, a, b),
               Gather(Names(b.locations.Keys), Locations(id, a, b)), LocationTruth(id, a, b),
               Gather(Names(b.required), Requireds(id, a)), RequiredTruth(id, a, b),
               Gather(Names(b.optional), Optionals(id, a)), OptionalTruth(id, a, b), 3);
  }

  lemma {:induction false} JoinPhases(s: seq<Change>, t: seq<Change>, u: seq<Change>, v: seq<Change>, k: nat)
    requires Distinct(s) && Distinct(t) && Distinct(u) && Distinct(v)
    requires Before(s, k) && Within(t, k) && Within(u, k + 1) && Within(v, k + 2)
    ensures Distinct(s + t + u + v)
    ensures forall c :: c in s + t + u + v <==> c in s || c in t || c in u || c in v
  {
    NextPhase(s, t, k);
    NextPhase(s + t, u, k + 1);
    NextPhase(s + t + u, v, k + 2);
  }

  lemma {:induction false} JoinTruths(s: seq<Change>, sTruth: Change -> bool, t: seq<Change>, tTruth: Change -> bool,
                                      u: seq<Change>, uTruth: Change -> bool, v: seq<Change>, vTruth: Change -> bool, k: nat)
    requires Distinct(s) && Distinct(t) && Distinct(u) && Distinct(v)
    requires (forall c :: c in s <==> sTruth(c)) && (forall c :: c in t <==> tTruth(c))
    requires (forall c :: c in u <==> uTruth(c)) && (forall c :: c in v <==> vTruth(c))
    requires (forall c :: sTruth(c) ==> Phase(c) < k) && (forall c :: tTruth(c) ==> Phase(c) == k)
    requires (forall c :: uTruth(c) ==> Phase(c) == k + 1) && (forall c :: vTruth(c) ==> Phase(c) == k + 2)
    ensures Distinct(s + t + u + v)
    ensures forall c :: c in s + t + u + v <==> sTruth(c) || tTruth(c) || uTruth(c) || vTruth(c)
  {
    JoinPhases(s, t, u, v, k);
  }

  // ----- The log -----

  lemma {:induction false} KeptWarranted(a: Description, b: Description, id: string)
    requires id in a.operations && id in b.operations
    ensures forall c :: KeptTruth(id, a.operations[id], b.operations[id])(c) <==> Phase(c) < 7 && c.id == id && Warranted(c, a, b)
  {
  }

  lemma {:induction false} RemovalWarranted(a: Description, b: Description, id: string)
    requires id in a.operations && id !in b.operations
    ensures forall c :: c == Removal(id, a.operations[id]) <==> Phase(c) < 7 && c.id == id && Warranted(c, a, b)
  {
  }

  lemma {:induction false} OldOperationMember(a: Description, b: Description, id: string)
    ensures var found := OldOperation(a, b, id);
            Distinct(found) && forall c :: c in found <==> Phase(c) < 7 && c.id == id && Warranted(c, a, b)
  {
    if id in a.operations {
      if id in b.operations {
        MatchedMember(id, a.operations[id], b.operations[id]);
        KeptWarranted(a, b, id);
      } else {
        RemovalWarranted(a, b, id);
      }
    }
  }

  lemma {:induction false} OldOperationsMember(a: Description, b: Description)
    ensures var found := Gather(Names(a.operations.Keys), OldOperations(a, b));
            Distinct(found) && forall c :: c in found <==> Phase(c) < 7 && Warranted(c, a, b)
  {
    var ids, find := Names(a.operations.Keys), OldOperations(a, b);
    forall id ensures Distinct(find(id)) && forall c :: c in find(id) <==> Phase(c) < 7 && c.id == id && Warranted(c, a, b) {
      OldOperationMember(a, b, id);
    }
    GatherDistinct(ids, find, Subject);
    forall c ensures c in Gather(ids, find) <==> Phase(c) < 7 && Warranted(c, a, b) {
      GatherMember(ids, find, Subject, c);
      if Phase(c) < 7 { WarrantedIsOld(a, b, c); }
    }
  }

  lemma {:induction false} WarrantedIsOld(a: Description, b: Description, c: Change)
    requires Phase(c) < 7
    ensures Warranted(c, a, b) ==> c.id in a.operations
  {
  }

  lemma {:induction false} NewOperationMember(a: Description, b: Description, id: string)
    ensures var found := NewOperation(a, b, id);
            Distinct(found) && forall c :: c in found <==> Phase(c) == 7 && c.id == id && Warranted(c, a, b)
  {
  }

  lemma {:induction false} NewOperationsMember(a: Description, b: Description)
    ensures var found := Gather(Names(b.operations.Keys), NewOperations(a, b));
            Distinct(found) && forall c :: c in found <==> Phase(c) == 7 && Warranted(c, a, b)
  {
    var ids, find := Names(b.operations.Keys), NewOperations(a, b);
    forall id ensures Distinct(find(id)) && forall c :: c in find(id) <==> Phase(c) == 7 && c.id == id && Warranted(c, a, b) {
      NewOperationMember(a, b, id);
    }
    GatherDistinct(ids, find, Subject);
    forall c ensures c in Gather(ids, find) <==> Phase(c) == 7 && Warranted(c, a, b) {
      GatherMember(ids, find, Subject, c);
      if Phase(c) == 7 { WarrantedIsNew(a, b, c); }
    }
  }

  lemma {:induction false} WarrantedIsNew(a: Description, b: Description, c: Change)
    requires Phase(c) == 7
    ensures Warranted(c, a, b) ==> c.id in b.operations
  {
  }

  ghost function NewSchemaTruth(a: Description, b: Description): Change -> bool {
    c => Phase(c) == 8 && Warranted(c, a, b)
  }

  lemma {:induction false} NewSchemaMember(a: Description, b: Description, name: string)
    requires name in b.schemas
    ensures |NewSchema(a, name)| <= 1
    ensures forall c :: c in NewSchema(a, name) <==> Subject(c) == name && NewSchemaTruth(a, b)(c)
  {
  }

  lemma {:induction false} NewSchemaListed(a: Description, b: Description)
    ensures forall c :: NewSchemaTruth(a, b)(c) ==> Subject(c) in b.schemas
  {
  }

  lemma {:induction false} NewSchemasMember(a: Description, b: Description)
    ensures var found := Gather(Names(b.schemas), NewSchemas(a));
            Distinct(found) && forall c :: c in found <==> NewSchemaTruth(a, b)(c)
  {
    NewSchemaListed(a, b);
    forall name | name in Names(b.schemas)
      ensures |NewSchemas(a)(name)| <= 1 &&
              forall c :: c in NewSchemas(a)(name) <==> Subject(c) == name && NewSchemaTruth(a, b)(c)
    {
      NewSchemaMember(a, b, name);
    }
    GatheredSingly(Names(b.schemas), NewSchemas(a), Subject, NewSchemaTruth(a, b));
  }

  ghost function OldSchemaTruth(a: Description, b: Description): Change -> bool {
    c => Phase(c) == 9 && Warranted(c, a, b)
  }

  lemma {:induction false} OldSchemaMember(a: Description, b: Description, name: string)
    requires name in a.schemas
    ensures |OldSchema(b, name)| <= 1
    ensures forall c :: c in OldSchema(b, name) <==> Subject(c) == name && OldSchemaTruth(a, b)(c)
  {
  }

  lemma {:induction false} OldSchemaListed(a: Description, b: Description)
    ensures forall c :: OldSchemaTruth(a, b)(c) ==> Subject(c) in a.schemas
  {
  }

  lemma {:induction false} OldSchemasMember(a: Description, b: Description)
    ensures var found := Gather(Names(a.schemas), OldSchemas(b));
            Distinct(found) && forall c :: c in found <==> OldSchemaTruth(a, b)(c)
  {
    OldSchemaListed(a, b);
    forall name | name in Names(a.schemas)
      ensures |OldSchemas(b)(name)| <= 1 &&
              forall c :: c in OldSchemas(b)(name) <==> Subject(c) == name && OldSchemaTruth(a, b)(c)
    {
      OldSchemaMember(a, b, name);
    }
    GatheredSingly(Names(a.schemas), OldSchemas(b), Subject, OldSchemaTruth(a, b));
  }

  /** The log holds exactly the warranted changes, and none twice. */
  lemma {:induction false} LogMeans(a: Description, b: Description)
    ensures Distinct(Log(a, b)) && forall c :: c in Log(a, b) <==> Warranted(c, a, b)
  {
    OldOperationsMember(a, b);
    NewOperationsMember(a, b);
    NewSchemasMember(a, b);
    OldSchemasMember(a, b);
    JoinPhases(Gather(Names(a.operations.Keys), OldOperations(a, b)), Gather(Names(b.operations.Keys), NewOperations(a, b)),
               Gather(Names(b.schemas), NewSchemas(a)), Gather(Names(a.schemas), OldSchemas(b)), 7);
    forall c ensures Phase(c) < 10 { PhaseBound(c); }
  }

  lemma {:induction false} PhaseBound(c: Change)
    ensures Phase(c) < 10
  {
  }

  // ----- The report -----

  lemma {:induction false} OnlyMember(log: seq<Change>, s: Severity)
    ensures forall c :: c in Only(log, s) <==> c in log && SeverityOf(c) == s
    ensures Distinct(log) ==> Distinct(Only(log, s))
  {
    if log != [] {
      var n := |log| - 1;
      OnlyMember(log[..n], s);
      assert forall c :: c in log <==> c in log[..n] || c == log[n];
      if Distinct(log) {
        assert forall c :: c in log[..n] ==> c != log[n];
      }
    }
  }

  /** Each list of the report holds exactly the warranted changes of its severity, each once. */
  lemma {:induction false} ReportMeans(report: DriftReport, a: Description, b: Description)
    requires report.Reports(Log(a, b))
    ensures forall c :: c in report.lifecycle <==> Warranted(c, a, b) && SeverityOf(c) == Lifecycle
    ensures forall c :: c in report.breaking <==> Warranted(c, a, b) && SeverityOf(c) == Breaking
    ensures forall c :: c in report.additive <==> Warranted(c, a, b) && SeverityOf(c) == Additive
    ensures Distinct(report.lifecycle + report.breaking + report.additive)
  {
    var log := Log(a, b);
    LogMeans(a, b);
    OnlyMember(log, Lifecycle);
    OnlyMember(log, Breaking);
    OnlyMember(log, Additive);
    DistinctConcat(report.lifecycle, report.breaking);
    DistinctConcat(report.lifecycle + report.breaking, report.additive);
  }

  /** The position of the one entry that satisfies a property. */
  ghost predicate OnlyOne(entries: seq<Change>, i: nat, about: Change -> bool) {
    i < |entries| && about(entries[i]) && forall j :: 0 <= j < |entries| && about(entries[j]) ==> j == i
  }

  /** An added or removed operation yields exactly one entry across the three lists, and so
      does an added or removed schema. */
  lemma {:induction false} OneEntryEach(report: DriftReport, a: Description, b: Description, name: string)
    requires report.Reports(Log(a, b))
    ensures (name in a.operations) != (name in b.operations) ==>
              exists i :: OnlyOne(report.lifecycle + report.breaking + report.additive, i, AboutOperation(name))
    ensures (name in a.schemas) != (name in b.schemas) ==>
              exists i :: OnlyOne(report.lifecycle + report.breaking + report.additive, i, AboutSchema(name))
  {
    ReportMeans(report, a, b);
    var entries := report.lifecycle + report.breaking + report.additive;
    assert forall c :: c in entries <==> Warranted(c, a, b);
    if (name in a.operations) != (name in b.operations) {
      var only := OnlyOperationChange(a, b, name);
      var i := Locate(entries, only, AboutOperation(name));
    }
    if (name in a.schemas) != (name in b.schemas) {
      var only := OnlySchemaChange(a, b, name);
      var i := Locate(entries, only, AboutSchema(name));
    }
  }

  function AboutOperation(name: string): Change -> bool { c => Phase(c) < 8 && c.id == name }

  function AboutSchema(name: string): Change -> bool { c => Phase(c) >= 8 && c.schema == name }

  /** The one warranted change about an operation that only one side has. */
  lemma {:induction false} OnlyOperationChange(a: Description, b: Description, name: string) returns (only: Change)
    requires (name in a.operations) != (name in b.operations)
    ensures Warranted(only, a, b) && AboutOperation(name)(only)
    ensures forall c :: Warranted(c, a, b) && AboutOperation(name)(c) ==> c == only
  {
    if name in a.operations {
      only := Removal(name, a.operations[name]);
      OldOperationMember(a, b, name);
      forall c | Warranted(c, a, b) && AboutOperation(name)(c) ensures c == only {
        if Phase(c) == 7 { WarrantedIsNew(a, b, c); }
        assert c in OldOperation(a, b, name);
      }
    } else {
      only := Addition(name, b.operations[name]);
      NewOperationMember(a, b, name);
      forall c | Warranted(c, a, b) && AboutOperation(name)(c) ensures c == only {
        if Phase(c) < 7 { WarrantedIsOld(a, b, c); }
        assert c in NewOperation(a, b, name);
      }
    }
  }

  lemma {:induction false} OnlySchemaChange(a: Description, b: Description, name: string) returns (only: Change)
    requires (name in a.schemas) != (name in b.schemas)
    ensures Warranted(only, a, b) && AboutSchema(name)(only)
    ensures forall c :: Warranted(c, a, b) && AboutSchema(name)(c) ==> c == only
  {
    only := if name in a.schemas then SchemaRemoval(name) else SchemaAdded(name);
  }

  lemma {:induction false} Locate(entries: seq<Change>, only: Change, about: Change -> bool) returns (i: nat)
    requires Distinct(entries) && only in entries && about(only)
    requires forall c :: c in entries && about(c) ==> c == only
    ensures OnlyOne(entries, i, about)
  {
    i :| 0 <= i < |entries| && entries[i] == only;
  }

  // ----- The empty report -----

  /** The second version of an operation asks nothing new and moves nothing. */
  ghost predicate OperationKept(a: OperationMeta, b: OperationMeta) {
    && a.method_ == b.method_ && a.path == b.path && a.successStatuses == b.successStatuses
    && (b.deprecated ==> a.deprecated)
    && (forall p :: p in b.locations ==> p in a.locations && a.locations[p] == b.locations[p])
    && b.required <= a.required && b.optional <= a.optional + a.required
  }

  ghost predicate Kept(a: Description, b: Description) {
    && a.operations.Keys == b.operations.Keys && a.schemas == b.schemas
    && forall id :: id in a.operations && id in b.operations ==> OperationKept(a.operations[id], b.operations[id])
  }

  lemma {:induction false} NotKeptIsAltered(id: string, a: OperationMeta, b: OperationMeta) returns (c: Change)
    requires !OperationKept(a, b)
    ensures Phase(c) < 6 && c.id == id && Altered(c, a, b)
  {
    if a.method_ != b.method_ || a.path != b.path {
      c := RouteChanged(id, a.method_, a.path, b.method_, b.path);
    } else if a.successStatuses != b.successStatuses {
      c := StatusesChanged(id, a.successStatuses, b.successStatuses);
    } else if b.deprecated && !a.deprecated {
      c := MarkedDeprecated(id, b.path);
    } else if !(b.required <= a.required) {
      var p :| p in b.required && p !in a.required;
      c := RequiredAdded(id, p);
    } else if !(b.optional <= a.optional + a.required) {
      var p :| p in b.optional && p !in a.optional + a.required;
      c := OptionalAdded(id, p);
    } else {
      var p :| p in b.locations && !(p in a.locations && a.locations[p] == b.locations[p]);
      c := if p in a.locations then ParameterMoved(id, p, a.locations[p], b.locations[p])
           else LocationDeclared(id, p, b.locations[p]);
    }
  }

  lemma {:induction false} NotKeptIsWarranted(a: Description, b: Description) returns (c: Change)
    requires !Kept(a, b)
    ensures Warranted(c, a, b)
  {
    if id :| id in a.operations && id !in b.operations {
      c := Removal(id, a.operations[id]);
    } else if id :| id in b.operations && id !in a.operations {
      c := Addition(id, b.operations[id]);
    } else if name :| name in a.schemas && name !in b.schemas {
      c := SchemaRemoval(name);
    } else if name :| name in b.schemas && name !in a.schemas {
      c := SchemaAdded(name);
    } else {
      assert a.operations.Keys == b.operations.Keys && a.schemas == b.schemas;
      var id :| id in a.operations && id in b.operations && !OperationKept(a.operations[id], b.operations[id]);
      c := NotKeptIsAltered(id, a.operations[id], b.operations[id]);
    }
  }

  /** The report is empty if and only if the second description keeps the first. */
  lemma {:induction false} EmptyReportMeans(report: DriftReport, a: Description, b: Description)
    requires report.Reports(Log(a, b))
    ensures report.IsEmpty() <==> Kept(a, b)
  {
    ReportMeans(report, a, b);
    if !Kept(a, b) {
      var c := NotKeptIsWarranted(a, b);
      assert c in report.lifecycle || c in report.breaking || c in report.additive by { SeverityIsOneOfThree(c); }
    } else if !report.IsEmpty() {
      var entries := report.lifecycle + report.breaking + report.additive;
      assert entries[0] in entries;
      var c := entries[0];
      assert Warranted(c, a, b);
      KeptHasNoChange(a, b, c);
    }
  }

  lemma {:induction false} SeverityIsOneOfThree(c: Change)
    ensures SeverityOf(c) == Lifecycle || SeverityOf(c) == Breaking || SeverityOf(c) == Additive
  {
  }

  lemma {:induction false} KeptHasNoChange(a: Description, b: Description, c: Change)
    requires Kept(a, b)
    ensures !Warranted(c, a, b)
  {
    assert forall id :: id in a.operations <==> id in a.operations.Keys;
    assert forall id :: id in b.operations <==> id in b.operations.Keys;
  }

  /** Nothing drifts from a description to itself. */
  lemma {:induction false} NoDriftReflexive(report: DriftReport, a: Description)
    requires report.Reports(Log(a, a))
    ensures report.IsEmpty()
  {
    EmptyReportMeans(report, a, a);
    KeptReflexive(a);
  }

  lemma {:induction false} KeptReflexive(a: Description)
    ensures Kept(a, a)
  {
  }

  /** No drift over two steps is no drift at all. */
  lemma {:induction false} NoDriftTransitive(first: DriftReport, second: DriftReport, whole: DriftReport,
                                             a: Description, b: Description, c: Description)
    requires first.Reports(Log(a, b)) && second.Reports(Log(b, c)) && whole.Reports(Log(a, c))
    requires first.IsEmpty() && second.IsEmpty()
    ensures whole.IsEmpty()
  {
    EmptyReportMeans(first, a, b);
    EmptyReportMeans(second, b, c);
    EmptyReportMeans(whole, a, c);
    forall id | id in a.operations && id in c.operations ensures OperationKept(a.operations[id], c.operations[id]) {
      assert id in b.operations.Keys;
      KeptTransitive(a.operations[id], b.operations[id], c.operations[id]);
    }
  }

  lemma {:induction false} KeptTransitive(a: OperationMeta, b: OperationMeta, c: OperationMeta)
    requires OperationKept(a, b) && OperationKept(b, c)
    ensures OperationKept(a, c)
  {
  }

  /** Versions that differ at most in how a parameter that is already required is also listed. */
  ghost predicate SameInterface(a: OperationMeta, b: OperationMeta) {
    && a.method_ == b.method_ && a.path == b.path && a.deprecated == b.deprecated && a.successStatuses == b.successStatuses
    && a.locations == b.locations && a.required == b.required && a.optional - a.required == b.optional - b.required
  }

  /** No drift in either direction: the same operation ids and schema names, and for each
      operation the same interface. Nothing less gives it, and nothing more follows. */
  lemma {:induction false} NoDriftBothWays(there: DriftReport, back: DriftReport, a: Description, b: Description)
    requires there.Reports(Log(a, b)) && back.Reports(Log(b, a))
    ensures there.IsEmpty() && back.IsEmpty() <==>
            && a.operations.Keys == b.operations.Keys && a.schemas == b.schemas
            && forall id :: id in a.operations && id in b.operations ==> SameInterface(a.operations[id], b.operations[id])
  {
    EmptyReportMeans(there, a, b);
    EmptyReportMeans(back, b, a);
    forall id | id in a.operations && id in b.operations
      ensures SameInterface(a.operations[id], b.operations[id]) <==>
              OperationKept(a.operations[id], b.operations[id]) && OperationKept(b.operations[id], a.operations[id])
    {
      KeptBothWays(a.operations[id], b.operations[id]);
    }
  }

  lemma {:induction false} KeptBothWays(a: OperationMeta, b: OperationMeta)
    ensures SameInterface(a, b) <==> OperationKept(a, b) && OperationKept(b, a)
  {
    if OperationKept(a, b) && OperationKept(b, a) {
      assert a.locations.Keys == b.locations.Keys;
      assert a.locations == b.locations;
    }
    if SameInterface(a, b) {
      assert forall p :: p in b.optional ==> p in b.required || p in b.optional - b.required;
      assert forall p :: p in a.optional ==> p in a.required || p in a.optional - a.required;
    }
  }
}
