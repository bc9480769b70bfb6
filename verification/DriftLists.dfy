/** What each of the three lists of a drift report says about the two descriptions. */
module DriftLists {
  import opened Drift
  import opened DriftLaws

  // ----- Which changes are on which list -----

  /** Changes that break callers. */
  predicate IsBreaking(c: Change) {
    || c.RouteChanged? || c.StatusesChanged? || c.ParameterMoved? || c.RequiredAdded?
    || c.OperationRemoved? || c.SchemaRemoved?
  }

  /** Changes that announce or follow the end of a feature. */
  predicate IsLifecycle(c: Change) {
    c.MarkedDeprecated? || c.OperationSunset? || c.OperationOmitted? || c.SchemaSunset?
  }

  /** Changes that only add. */
  predicate IsAdditive(c: Change) {
    c.LocationDeclared? || c.OptionalAdded? || c.OperationAdded? || c.SchemaAdded?
  }

  /** Each list holds the true changes of its own kinds, and no others. */
  lemma {:induction false} ListsMean(report: DriftReport, a: Description, b: Description)
    requires report.Reports(Log(a, b))
    ensures forall c :: c in report.breaking <==> IsBreaking(c) && Warranted(c, a, b)
    ensures forall c :: c in report.lifecycle <==> IsLifecycle(c) && Warranted(c, a, b)
    ensures forall c :: c in report.additive <==> IsAdditive(c) && Warranted(c, a, b)
  {
    ReportMeans(report, a, b);
    forall c
      ensures SeverityOf(c) == Breaking <==> IsBreaking(c)
      ensures SeverityOf(c) == Lifecycle <==> IsLifecycle(c)
      ensures SeverityOf(c) == Additive <==> IsAdditive(c)
    {
      KindsOfSeverity(c);
    }
  }

  lemma {:induction false} KindsOfSeverity(c: Change)
    ensures SeverityOf(c) == Breaking <==> IsBreaking(c)
    ensures SeverityOf(c) == Lifecycle <==> IsLifecycle(c)
    ensures SeverityOf(c) == Additive <==> IsAdditive(c)
  {
  }

  // ----- The families that are being retired -----

  ghost predicate RetiredPath(path: string) {
    "/assistants" <= path || "/threads" <= path || "/videos" <= path || "/prompts" <= path
  }

  ghost predicate RetiredSchema(name: string) {
    "Assistant" <= name || "Thread" <= name || "Run" <= name || "Video" <= name || "Prompt" <= name
  }

  lemma {:induction false} RetiredPathIsSunset(path: string)
    ensures SunsetPath(path) <==> RetiredPath(path)
  {
  }

  lemma {:induction false} RetiredSchemaIsSunset(name: string)
    ensures SunsetSchema(name) <==> RetiredSchema(name)
  {
  }

  lemma {:induction false} FamiliesAgree()
    ensures forall path :: SunsetPath(path) <==> RetiredPath(path)
    ensures forall name :: SunsetSchema(name) <==> RetiredSchema(name)
  {
    forall path ensures SunsetPath(path) <==> RetiredPath(path) { RetiredPathIsSunset(path); }
    forall name ensures SunsetSchema(name) <==> RetiredSchema(name) { RetiredSchemaIsSunset(name); }
  }

  // ----- When each list is empty -----

  /** The second version of an operation still serves every caller of the first. */
  ghost predicate StillServes(a: OperationMeta, b: OperationMeta) {
    && a.method_ == b.method_ && a.path == b.path && a.successStatuses == b.successStatuses && b.required <= a.required
    && forall p :: p in a.locations && p in b.locations ==> a.locations[p] == b.locations[p]
  }

  /** Nothing breaks: what is gone was retired or deprecated, and what is kept still serves. */
  ghost predicate NothingBreaks(a: Description, b: Description) {
    && (forall id :: id in a.operations && id !in b.operations ==>
          RetiredPath(a.operations[id].path) || a.operations[id].deprecated)
    && (forall name :: name in a.schemas && name !in b.schemas ==> RetiredSchema(name))
    && forall id :: id in a.operations && id in b.operations ==> StillServes(a.operations[id], b.operations[id])
  }

  /** Nothing is retired, and nothing of a retired family appears. */
  ghost predicate NothingRetires(a: Description, b: Description) {
    && (forall id :: id in a.operations && id !in b.operations ==>
          !RetiredPath(a.operations[id].path) && !a.operations[id].deprecated)
    && (forall id :: id in b.operations && id !in a.operations ==> !RetiredPath(b.operations[id].path))
    && (forall name :: name in a.schemas && name !in b.schemas ==> !RetiredSchema(name))
    && forall id :: id in a.operations && id in b.operations && b.operations[id].deprecated ==> a.operations[id].deprecated
  }

  /** Nothing is added but operations of a retired family. */
  ghost predicate NothingAdds(a: Description, b: Description) {
    && (forall id :: id in b.operations && id !in a.operations ==> RetiredPath(b.operations[id].path))
    && b.schemas <= a.schemas
    && forall id :: id in a.operations && id in b.operations ==>
         && b.operations[id].locations.Keys <= a.operations[id].locations.Keys
         && b.operations[id].optional <= a.operations[id].optional + a.operations[id].required
  }

  /** The list of breaking changes is empty if and only if nothing breaks. */
  lemma {:induction false} NoBreakingMeans(report: DriftReport, a: Description, b: Description)
    requires report.Reports(Log(a, b))
    ensures report.breaking == [] <==> NothingBreaks(a, b)
  {
    ListsMean(report, a, b);
    FamiliesAgree();
    if !NothingBreaks(a, b) {
      var c := SomethingBreaks(a, b);
      assert c in report.breaking;
    } else if report.breaking != [] {
      assert report.breaking[0] in report.breaking;
      NoneBreaks(a, b, report.breaking[0]);
    }
  }

  lemma {:induction false} SomethingBreaks(a: Description, b: Description) returns (c: Change)
    requires !NothingBreaks(a, b) && forall path :: SunsetPath(path) <==> RetiredPath(path)
    requires forall name :: SunsetSchema(name) <==> RetiredSchema(name)
    ensures IsBreaking(c) && Warranted(c, a, b)
  {
    if id :| id in a.operations && id !in b.operations && !RetiredPath(a.operations[id].path) && !a.operations[id].deprecated {
      c := OperationRemoved(id, a.operations[id].method_, a.operations[id].path);
    } else if name :| name in a.schemas && name !in b.schemas && !RetiredSchema(name) {
      c := SchemaRemoved(name);
    } else {
      var id :| id in a.operations && id in b.operations && !StillServes(a.operations[id], b.operations[id]);
      c := ServesNoMore(id, a.operations[id], b.operations[id]);
    }
  }

  lemma {:induction false} ServesNoMore(id: string, a: OperationMeta, b: OperationMeta) returns (c: Change)
    requires !StillServes(a, b)
    ensures IsBreaking(c) && Phase(c) < 6 && c.id == id && Altered(c, a, b)
  {
    if a.method_ != b.method_ || a.path != b.path {
      c := RouteChanged(id, a.method_, a.path, b.method_, b.path);
    } else if a.successStatuses != b.successStatuses {
      c := StatusesChanged(id, a.successStatuses, b.successStatuses);
    } else if p :| p in b.required && p !in a.required {
      c := RequiredAdded(id, p);
    } else {
      var p :| p in a.locations && p in b.locations && a.locations[p] != b.locations[p];
      c := ParameterMoved(id, p, a.locations[p], b.locations[p]);
    }
  }

  lemma {:induction false} NoneBreaks(a: Description, b: Description, c: Change)
    requires NothingBreaks(a, b) && forall path :: SunsetPath(path) <==> RetiredPath(path)
    requires forall name :: SunsetSchema(name) <==> RetiredSchema(name)
    ensures !(IsBreaking(c) && Warranted(c, a, b))
  {
  }

  /** The list of lifecycle changes is empty if and only if nothing is retired. */
  lemma {:induction false} NoLifecycleMeans(report: DriftReport, a: Description, b: Description)
    requires report.Reports(Log(a, b))
    ensures report.lifecycle == [] <==> NothingRetires(a, b)
  {
    ListsMean(report, a, b);
    FamiliesAgree();
    if !NothingRetires(a, b) {
      var c := SomethingRetires(a, b);
      assert c in report.lifecycle;
    } else if report.lifecycle != [] {
      assert report.lifecycle[0] in report.lifecycle;
      NoneRetires(a, b, report.lifecycle[0]);
    }
  }

  lemma {:induction false} SomethingRetires(a: Description, b: Description) returns (c: Change)
    requires !NothingRetires(a, b) && forall path :: SunsetPath(path) <==> RetiredPath(path)
    requires forall name :: SunsetSchema(name) <==> RetiredSchema(name)
    ensures IsLifecycle(c) && Warranted(c, a, b)
  {
    if id :| id in a.operations && id !in b.operations && (RetiredPath(a.operations[id].path) || a.operations[id].deprecated) {
      c := OperationSunset(id, a.operations[id].method_, a.operations[id].path);
    } else if id :| id in b.operations && id !in a.operations && RetiredPath(b.operations[id].path) {
      c := OperationOmitted(id, b.operations[id].path);
    } else if name :| name in a.schemas && name !in b.schemas && RetiredSchema(name) {
      c := SchemaSunset(name);
    } else {
      var id :| id in a.operations && id in b.operations && b.operations[id].deprecated && !a.operations[id].deprecated;
      c := MarkedDeprecated(id, b.operations[id].path);
    }
  }

  lemma {:induction false} NoneRetires(a: Description, b: Description, c: Change)
    requires NothingRetires(a, b) && forall path :: SunsetPath(path) <==> RetiredPath(path)
    requires forall name :: SunsetSchema(name) <==> RetiredSchema(name)
    ensures !(IsLifecycle(c) && Warranted(c, a, b))
  {
  }

  /** The list of additive changes is empty if and only if nothing is added. */
  lemma {:induction false} NoAdditiveMeans(report: DriftReport, a: Description, b: Description)
    requires report.Reports(Log(a, b))
    ensures report.additive == [] <==> NothingAdds(a, b)
  {
    ListsMean(report, a, b);
    FamiliesAgree();
    if !NothingAdds(a, b) {
      var c := SomethingAdds(a, b);
      assert c in report.additive;
    } else if report.additive != [] {
      assert report.additive[0] in report.additive;
      NoneAdds(a, b, report.additive[0]);
    }
  }

  lemma {:induction false} SomethingAdds(a: Description, b: Description) returns (c: Change)
    requires !NothingAdds(a, b) && forall path :: SunsetPath(path) <==> RetiredPath(path)
    ensures IsAdditive(c) && Warranted(c, a, b)
  {
    if id :| id in b.operations && id !in a.operations && !RetiredPath(b.operations[id].path) {
      c := OperationAdded(id, b.operations[id].method_, b.operations[id].path);
    } else if name :| name in b.schemas && name !in a.schemas {
      c := SchemaAdded(name);
    } else {
      var id :| id in a.operations && id in b.operations &&
                !(&& b.operations[id].locations.Keys <= a.operations[id].locations.Keys
                  && b.operations[id].optional <= a.operations[id].optional + a.operations[id].required);
      var was, now := a.operations[id], b.operations[id];
      if p :| p in now.locations && p !in was.locations {
        c := LocationDeclared(id, p, now.locations[p]);
      } else {
        assert now.locations.Keys <= was.locations.Keys;
        var p :| p in now.optional && p !in was.optional + was.required;
        c := OptionalAdded(id, p);
      }
    }
  }

  lemma {:induction false} NoneAdds(a: Description, b: Description, c: Change)
    requires NothingAdds(a, b) && forall path :: SunsetPath(path) <==> RetiredPath(path)
    ensures !(IsAdditive(c) && Warranted(c, a, b))
  {
  }
}
