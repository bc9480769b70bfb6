/** The differ of two API descriptions: what it reports, and when it reports nothing. */
module Drift {
  import opened Ordering
  import opened Text

  datatype OperationMeta = OperationMeta(
    method_: string, path: string, deprecated: bool, required: set<string>, optional: set<string>,
    locations: map<string, string>, successStatuses: set<string>)

  datatype Description = Description(operations: map<string, OperationMeta>, schemas: set<string>)

  /** One line of the report, with everything the line shows. */
  datatype Change =
    | RouteChanged(id: string, fromMethod: string, fromPath: string, toMethod: string, toPath: string)
    | MarkedDeprecated(id: string, path: string)
    | StatusesChanged(id: string, fromStatuses: set<string>, toStatuses: set<string>)
    | ParameterMoved(id: string, param: string, fromLocation: string, toLocation: string)
    | LocationDeclared(id: string, param: string, location: string)
    | RequiredAdded(id: string, param: string)
    | OptionalAdded(id: string, param: string)
    | OperationSunset(id: string, method_: string, path: string)
    | OperationRemoved(id: string, method_: string, path: string)
    | OperationOmitted(id: string, path: string)
    | OperationAdded(id: string, method_: string, path: string)
    | SchemaAdded(schema: string)
    | SchemaSunset(schema: string)
    | SchemaRemoved(schema: string)

  datatype Severity = Lifecycle | Breaking | Additive

  /** The list of the report a change is pushed on. */
  function SeverityOf(c: Change): Severity {
    match c
    case MarkedDeprecated(_, _) => Lifecycle
    case OperationSunset(_, _, _) => Lifecycle
    case OperationOmitted(_, _) => Lifecycle
    case SchemaSunset(_) => Lifecycle
    case LocationDeclared(_, _, _) => Additive
    case OptionalAdded(_, _) => Additive
    case OperationAdded(_, _, _) => Additive
    case SchemaAdded(_) => Additive
    case _ => Breaking
  }

  predicate StartsWith(s: string, prefix: string) { prefix <= s }

  predicate SunsetPath(path: string) {
    StartsWith(path, "/assistants") || StartsWith(path, "/threads") || StartsWith(path, "/videos") || StartsWith(path, "/prompts")
  }

  predicate SunsetSchema(name: string) {
    || StartsWith(name, "Assistant") || StartsWith(name, "Thread") || StartsWith(name, "Run")
    || StartsWith(name, "Video") || StartsWith(name, "Prompt")
  }

  // ----- Names in ascending order -----

  lemma {:induction false} LessIsTotal()
    ensures TotalOrder(Less)
  {
    forall x: string ensures !Less(x, x) { LessIrreflexive(x); }
    forall x: string, y: string, z: string | Less(x, y) && Less(y, z) ensures Less(x, z) { LessTransitive(x, y, z); }
    forall x: string, y: string ensures x == y || Less(x, y) || Less(y, x) { LessTotal(x, y); }
  }

  ghost predicate Distinct<T>(xs: seq<T>) { forall i, j :: 0 <= i < j < |xs| ==> xs[i] != xs[j] }

  /** The members of an ordered set, as iterated. */
  function Names(s: set<string>): (xs: seq<string>)
    ensures Distinct(xs) && forall x :: x in xs <==> x in s
  {
    LessIsTotal();
    Ascending(s, Less)
  }

  // ----- The changes, in the order they are found -----

  function When(holds: bool, c: Change): seq<Change> { if holds then [c] else [] }

  function LocationChange(id: string, a: OperationMeta, b: OperationMeta, p: string): seq<Change> {
    if p !in b.locations then []
    else if p !in a.locations then [LocationDeclared(id, p, b.locations[p])]
    else When(a.locations[p] != b.locations[p], ParameterMoved(id, p, a.locations[p], b.locations[p]))
  }

  function RequiredChange(id: string, a: OperationMeta, p: string): seq<Change> {
    When(p !in a.required, RequiredAdded(id, p))
  }

  function OptionalChange(id: string, a: OperationMeta, p: string): seq<Change> {
    When(p !in a.optional && p !in a.required, OptionalAdded(id, p))
  }

  function RouteChange(id: string, a: OperationMeta, b: OperationMeta): seq<Change> {
    When(a.method_ != b.method_ || a.path != b.path, RouteChanged(id, a.method_, a.path, b.method_, b.path))
  }

  function DeprecationChange(id: string, a: OperationMeta, b: OperationMeta): seq<Change> {
    When(!a.deprecated && b.deprecated, MarkedDeprecated(id, b.path))
  }

  function StatusChange(id: string, a: OperationMeta, b: OperationMeta): seq<Change> {
    When(a.successStatuses != b.successStatuses, StatusesChanged(id, a.successStatuses, b.successStatuses))
  }

  function Removal(id: string, a: OperationMeta): Change {
    if SunsetPath(a.path) || a.deprecated then OperationSunset(id, a.method_, a.path) else OperationRemoved(id, a.method_, a.path)
  }

  function Addition(id: string, b: OperationMeta): Change {
    if SunsetPath(b.path) then OperationOmitted(id, b.path) else OperationAdded(id, b.method_, b.path)
  }

  function SchemaRemoval(name: string): Change { if SunsetSchema(name) then SchemaSunset(name) else SchemaRemoved(name) }

  /** The changes found for each element, one element after another. */
  function Gather(xs: seq<string>, find: string -> seq<Change>): seq<Change> {
    if xs == [] then [] else Gather(xs[..|xs| - 1], find) + find(xs[|xs| - 1])
  }

  function Locations(id: string, a: OperationMeta, b: OperationMeta): string -> seq<Change> { p => LocationChange(id, a, b, p) }

  function Requireds(id: string, a: OperationMeta): string -> seq<Change> { p => RequiredChange(id, a, p) }

  function Optionals(id: string, a: OperationMeta): string -> seq<Change> { p => OptionalChange(id, a, p) }

  /** The changes of an operation present on both sides. */
  function MatchedChanges(id: string, a: OperationMeta, b: OperationMeta): seq<Change> {
    RouteChange(id, a, b) + DeprecationChange(id, a, b) + StatusChange(id, a, b)
    + Gather(Names(b.locations.Keys), Locations(id, a, b)) + Gather(Names(b.required), Requireds(id, a))
    + Gather(Names(b.optional), Optionals(id, a))
  }

  function OldOperation(a: Description, b: Description, id: string): seq<Change> {
    if id !in a.operations then []
    else if id in b.operations then MatchedChanges(id, a.operations[id], b.operations[id])
    else [Removal(id, a.operations[id])]
  }

  function NewOperation(a: Description, b: Description, id: string): seq<Change> {
    if id in b.operations && id !in a.operations then [Addition(id, b.operations[id])] else []
  }

  function NewSchema(a: Description, name: string): seq<Change> { When(name !in a.schemas, SchemaAdded(name)) }

  function OldSchema(b: Description, name: string): seq<Change> { When(name !in b.schemas, SchemaRemoval(name)) }

  function OldOperations(a: Description, b: Description): string -> seq<Change> { id => OldOperation(a, b, id) }

  function NewOperations(a: Description, b: Description): string -> seq<Change> { id => NewOperation(a, b, id) }

  function NewSchemas(a: Description): string -> seq<Change> { name => NewSchema(a, name) }

  function OldSchemas(b: Description): string -> seq<Change> { name => OldSchema(b, name) }

  /** All changes, in the order of the four loops. */
  function Log(a: Description, b: Description): seq<Change> {
    Gather(Names(a.operations.Keys), OldOperations(a, b)) + Gather(Names(b.operations.Keys), NewOperations(a, b))
    + Gather(Names(b.schemas), NewSchemas(a)) + Gather(Names(a.schemas), OldSchemas(b))
  }

  // ----- The report -----

  function Only(log: seq<Change>, s: Severity): seq<Change> {
    if log == [] then []
    else Only(log[..|log| - 1], s) + if SeverityOf(log[|log| - 1]) == s then [log[|log| - 1]] else []
  }

  class DriftReport {
    var lifecycle: seq<Change>
    var breaking: seq<Change>
    var additive: seq<Change>

    /** The three lists hold the changes of `log`, each on its own list and in log order. */
    ghost predicate Reports(log: seq<Change>)
      reads this
    {
      lifecycle == Only(log, Lifecycle) && breaking == Only(log, Breaking) && additive == Only(log, Additive)
    }

    constructor ()
      ensures Reports([])
    {
      lifecycle, breaking, additive := [], [], [];
    }

    method Push(c: Change, ghost log: seq<Change>)
      requires Reports(log)
      modifies this
      ensures Reports(log + [c])
    {
      match SeverityOf(c) {
        case Lifecycle => lifecycle := lifecycle + [c];
        case Breaking => breaking := breaking + [c];
        case Additive => additive := additive + [c];
      }
      assert (log + [c])[..|log|] == log;
    }

    predicate IsEmpty()
      reads this
    {
      lifecycle == [] && breaking == [] && additive == []
    }
  }

  lemma {:induction false} GatherNext(xs: seq<string>, i: nat, find: string -> seq<Change>)
    requires i < |xs|
    ensures Gather(xs[..i + 1], find) == Gather(xs[..i], find) + find(xs[i])
  {
    assert xs[..i + 1][..i] == xs[..i];
  }

  /** One operation present on both sides, with its three parameter loops. */
  method CompareOperation(report: DriftReport, id: string, a: OperationMeta, b: OperationMeta, ghost log: seq<Change>)
    requires report.Reports(log)
    modifies report
    ensures report.Reports(log + MatchedChanges(id, a, b))
  {
    ghost var now := log;
    if a.method_ != b.method_ || a.path != b.path {
      report.Push(RouteChanged(id, a.method_, a.path, b.method_, b.path), now);
    }
    now := Step(now, RouteChange(id, a, b));
    if !a.deprecated && b.deprecated {
      report.Push(MarkedDeprecated(id, b.path), now);
    }
    now := Step(now, DeprecationChange(id, a, b));
    if a.successStatuses != b.successStatuses {
      report.Push(StatusesChanged(id, a.successStatuses, b.successStatuses), now);
    }
    now := Step(now, StatusChange(id, a, b));
    CompareLocations(report, id, a, b, now);
    now := now + Gather(Names(b.locations.Keys), Locations(id, a, b));
    CompareRequired(report, id, a, b, now);
    now := now + Gather(Names(b.required), Requireds(id, a));
    CompareOptional(report, id, a, b, now);
    JoinSix(log, RouteChange(id, a, b), DeprecationChange(id, a, b), StatusChange(id, a, b),
            Gather(Names(b.locations.Keys), Locations(id, a, b)), Gather(Names(b.required), Requireds(id, a)),
            Gather(Names(b.optional), Optionals(id, a)));
  }

  /** The log after some changes; nothing is appended when there are none. */
  ghost function Step(log: seq<Change>, more: seq<Change>): (r: seq<Change>)
    ensures r == log + more && (more == [] ==> r == log)
  {
    log + more
  }

  lemma {:induction false} JoinSix<T>(s: seq<T>, a: seq<T>, b: seq<T>, c: seq<T>, d: seq<T>, e: seq<T>, f: seq<T>)
    ensures s + a + b + c + d + e + f == s + (a + b + c + d + e + f)
  {
  }

  method CompareLocations(report: DriftReport, id: string, a: OperationMeta, b: OperationMeta, ghost log: seq<Change>)
    requires report.Reports(log)
    modifies report
    ensures report.Reports(log + Gather(Names(b.locations.Keys), Locations(id, a, b)))
  {
    var params := Names(b.locations.Keys);
    assert log + [] == log;
    for i := 0 to |params|
      invariant report.Reports(log + Gather(params[..i], Locations(id, a, b)))
    {
      var p := params[i];
      ghost var now := log + Gather(params[..i], Locations(id, a, b));
      if p in a.locations {
        if a.locations[p] != b.locations[p] {
          report.Push(ParameterMoved(id, p, a.locations[p], b.locations[p]), now);
        }
      } else {
        report.Push(LocationDeclared(id, p, b.locations[p]), now);
      }
      Advance(log, params, i, Locations(id, a, b));
    }
    assert params[..|params|] == params;
  }

  lemma {:induction false} Advance(log: seq<Change>, xs: seq<string>, i: nat, find: string -> seq<Change>)
    requires i < |xs|
    ensures log + Gather(xs[..i + 1], find) == Step(log + Gather(xs[..i], find), find(xs[i]))
  {
    GatherNext(xs, i, find);
  }

  method CompareRequired(report: DriftReport, id: string, a: OperationMeta, b: OperationMeta, ghost log: seq<Change>)
    requires report.Reports(log)
    modifies report
    ensures report.Reports(log + Gather(Names(b.required), Requireds(id, a)))
  {
    var params := Names(b.required);
    assert log + [] == log;
    for i := 0 to |params|
      invariant report.Reports(log + Gather(params[..i], Requireds(id, a)))
    {
      if params[i] !in a.required {
        report.Push(RequiredAdded(id, params[i]), log + Gather(params[..i], Requireds(id, a)));
      }
      Advance(log, params, i, Requireds(id, a));
    }
    assert params[..|params|] == params;
  }

  method CompareOptional(report: DriftReport, id: string, a: OperationMeta, b: OperationMeta, ghost log: seq<Change>)
    requires report.Reports(log)
    modifies report
    ensures report.Reports(log + Gather(Names(b.optional), Optionals(id, a)))
  {
    var params := Names(b.optional);
    assert log + [] == log;
    for i := 0 to |params|
      invariant report.Reports(log + Gather(params[..i], Optionals(id, a)))
    {
      if params[i] !in a.optional && params[i] !in a.required {
        report.Push(OptionalAdded(id, params[i]), log + Gather(params[..i], Optionals(id, a)));
      }
      Advance(log, params, i, Optionals(id, a));
    }
    assert params[..|params|] == params;
  }

  method CompareOldOperations(report: DriftReport, a: Description, b: Description, ghost log: seq<Change>)
    requires report.Reports(log)
    modifies report
    ensures report.Reports(log + Gather(Names(a.operations.Keys), OldOperations(a, b)))
  {
    var ids := Names(a.operations.Keys);
    assert log + [] == log;
    for i := 0 to |ids|
      invariant report.Reports(log + Gather(ids[..i], OldOperations(a, b)))
    {
      var id, was := ids[i], a.operations[ids[i]];
      ghost var now := log + Gather(ids[..i], OldOperations(a, b));
      if id in b.operations {
        CompareOperation(report, id, was, b.operations[id], now);
      } else if SunsetPath(was.path) || was.deprecated {
        report.Push(OperationSunset(id, was.method_, was.path), now);
      } else {
        report.Push(OperationRemoved(id, was.method_, was.path), now);
      }
      Advance(log, ids, i, OldOperations(a, b));
    }
    assert ids[..|ids|] == ids;
  }

  method CompareNewOperations(report: DriftReport, a: Description, b: Description, ghost log: seq<Change>)
    requires report.Reports(log)
    modifies report
    ensures report.Reports(log + Gather(Names(b.operations.Keys), NewOperations(a, b)))
  {
    var ids := Names(b.operations.Keys);
    assert log + [] == log;
    for i := 0 to |ids|
      invariant report.Reports(log + Gather(ids[..i], NewOperations(a, b)))
    {
      var id, added := ids[i], b.operations[ids[i]];
      ghost var now := log + Gather(ids[..i], NewOperations(a, b));
      if id !in a.operations {
        if SunsetPath(added.path) {
          report.Push(OperationOmitted(id, added.path), now);
        } else {
          report.Push(OperationAdded(id, added.method_, added.path), now);
        }
      }
      Advance(log, ids, i, NewOperations(a, b));
    }
    assert ids[..|ids|] == ids;
  }

  method CompareSchemas(report: DriftReport, a: Description, b: Description, ghost log: seq<Change>)
    requires report.Reports(log)
    modifies report
    ensures report.Reports(log + Gather(Names(b.schemas), NewSchemas(a)) + Gather(Names(a.schemas), OldSchemas(b)))
  {
    var names := Names(b.schemas);
    assert log + [] == log;
    for i := 0 to |names|
      invariant report.Reports(log + Gather(names[..i], NewSchemas(a)))
    {
      if names[i] !in a.schemas {
        report.Push(SchemaAdded(names[i]), log + Gather(names[..i], NewSchemas(a)));
      }
      Advance(log, names, i, NewSchemas(a));
    }
    assert names[..|names|] == names;
    ghost var middle := log + Gather(names, NewSchemas(a));
    assert middle + [] == middle;
    names := Names(a.schemas);
    for i := 0 to |names|
      invariant report.Reports(middle + Gather(names[..i], OldSchemas(b)))
    {
      if names[i] !in b.schemas {
        ghost var now := middle + Gather(names[..i], OldSchemas(b));
        if SunsetSchema(names[i]) {
          report.Push(SchemaSunset(names[i]), now);
        } else {
          report.Push(SchemaRemoved(names[i]), now);
        }
      }
      Advance(middle, names, i, OldSchemas(b));
    }
    assert names[..|names|] == names;
  }

  /** The differ: the report sorts the log of all changes by severity. */
  method ComputeDrift(a: Description, b: Description) returns (report: DriftReport)
    ensures fresh(report) && report.Reports(Log(a, b))
  {
    report := new DriftReport();
    CompareOldOperations(report, a, b, []);
    ghost var first := Gather(Names(a.operations.Keys), OldOperations(a, b));
    assert [] + first == first;
    CompareNewOperations(report, a, b, first);
    CompareSchemas(report, a, b, first + Gather(Names(b.operations.Keys), NewOperations(a, b)));
  }
}
