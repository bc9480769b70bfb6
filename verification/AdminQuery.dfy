/** Flattening of a query object into name and value pairs. */
module AdminQuery {
  import opened JsonValue
  import opened Ordering

  type Pair = (string, string)

  datatype Result<+T> = Ok(value: T) | NotAnObject

  predicate IsLeaf(v: Json) { !v.Arr? && !v.Obj? }

  /** A scalar that is sent: neither null nor the empty text. */
  predicate IsKept(v: Json) { IsLeaf(v) && !v.Null? && v != Str("") }

  function TextOf(v: Json, show: Number -> string): string {
    match v
    case Bool(flag) => if flag then "true" else "false"
    case Num(n) => show(n)
    case Str(text) => text
    case _ => ""
  }

  /** The values directly inside a value, in document order. */
  function Kids(v: Json): (kids: seq<Json>)
    ensures forall i :: 0 <= i < |kids| ==> kids[i] < v
  {
    match v
    case Arr(items) => items
    case Obj(fields) => Values(fields)
    case _ => []
  }

  function Values(fields: Fields): (values: seq<Json>)
    ensures |values| == |fields| && forall i :: 0 <= i < |fields| ==> values[i] == fields[i].value
  {
    seq(|fields|, i requires 0 <= i < |fields| => fields[i].value)
  }

  /** The bracketed name of the `i`-th value inside; the outermost object has no name. */
  function KidName(outer: Option<string>, v: Json, i: nat): string
    requires i < |Kids(v)|
  {
    match (outer, v)
    case (None, Obj(fields)) => fields[i].key
    case (Some(name), Obj(fields)) => name + "[" + fields[i].key + "]"
    case (None, _) => "[]"
    case (Some(name), _) => name + "[]"
  }

  function PairsOf(name: string, v: Json, show: Number -> string): seq<Pair>
    decreases v, 1
  {
    if IsLeaf(v) then if IsKept(v) then [(name, TextOf(v, show))] else []
    else KidPairs(Some(name), v, |Kids(v)|, show)
  }

  /** The pairs of the first `n` values inside. */
  function KidPairs(outer: Option<string>, v: Json, n: nat, show: Number -> string): seq<Pair>
    requires n <= |Kids(v)|
    decreases v, 0, n
  {
    if n == 0 then [] else KidPairs(outer, v, n - 1, show) + PairsOf(KidName(outer, v, n - 1), Kids(v)[n - 1], show)
  }

  lemma {:induction false} KidPairsNext(pairs: seq<Pair>, name: string, v: Json, i: nat, show: Number -> string)
    requires i < |Kids(v)|
    ensures pairs + KidPairs(Some(name), v, i + 1, show) ==
            pairs + KidPairs(Some(name), v, i, show) + PairsOf(KidName(Some(name), v, i), Kids(v)[i], show)
  {
  }

  lemma {:induction false} PairsOfKids(name: string, v: Json, show: Number -> string)
    requires v.Arr? || v.Obj?
    ensures PairsOf(name, v, show) == KidPairs(Some(name), v, |Kids(v)|, show)
  {
  }

  /** Appending the pairs of one value. */
  method AppendQueryValue(pairs: seq<Pair>, name: string, value: Json, show: Number -> string) returns (out: seq<Pair>)
    ensures out == pairs + PairsOf(name, value, show)
    decreases value, 1
  {
    out := pairs;
    assert pairs + [] == pairs;
    match value {
      case Null =>
      case Bool(flag) => out := out + [(name, if flag then "true" else "false")];
      case Num(n) => out := out + [(name, show(n))];
      case Str(text) =>
        if text != "" {
          out := out + [(name, text)];
        }
      case Arr(items) =>
        out := AppendItems(out, name, value, show);
        PairsOfKids(name, value, show);
      case Obj(fields) =>
        out := AppendFields(out, name, value, show);
        PairsOfKids(name, value, show);
    }
  }

  /** The array branch: every item under the bracketed name. */
  method AppendItems(pairs: seq<Pair>, name: string, value: Json, show: Number -> string) returns (out: seq<Pair>)
    requires value.Arr?
    ensures out == pairs + KidPairs(Some(name), value, |Kids(value)|, show)
    decreases value, 0
  {
    out := pairs;
    assert pairs + [] == pairs;
    var bracketed := name + "[]";
    for i := 0 to |value.items|
      invariant out == pairs + KidPairs(Some(name), value, i, show)
    {
      KidPairsNext(pairs, name, value, i, show);
      out := AppendQueryValue(out, bracketed, value.items[i], show);
    }
  }

  /** The object branch: every field under its nested name. */
  method AppendFields(pairs: seq<Pair>, name: string, value: Json, show: Number -> string) returns (out: seq<Pair>)
    requires value.Obj?
    ensures out == pairs + KidPairs(Some(name), value, |Kids(value)|, show)
    decreases value, 0
  {
    out := pairs;
    assert pairs + [] == pairs;
    for i := 0 to |value.fields|
      invariant out == pairs + KidPairs(Some(name), value, i, show)
    {
      var nested := name + "[" + value.fields[i].key + "]";
      KidPairsNext(pairs, name, value, i, show);
      out := AppendQueryValue(out, nested, value.fields[i].value, show);
    }
  }

  /** The pairs of a query, which must be an object. */
  method EncodeQuery(query: Json, show: Number -> string) returns (r: Result<seq<Pair>>)
    ensures r == if query.Obj? then Ok(KidPairs(None, query, |Kids(query)|, show)) else NotAnObject
  {
    if !query.Obj? {
      return NotAnObject;
    }
    var fields, pairs := query.fields, [];
    for i := 0 to |fields|
      invariant pairs == KidPairs(None, query, i, show)
    {
      assert Kids(query)[i] == fields[i].value;
      pairs := AppendQueryValue(pairs, fields[i].key, fields[i].value, show);
    }
    r := Ok(pairs);
  }

  // ----- Paths -----

  /** A place inside a value: which value inside to enter, level by level. */
  type Path = seq<nat>

  function At(v: Json, p: Path): Option<Json> {
    if p == [] then Some(v) else if p[0] < |Kids(v)| then At(Kids(v)[p[0]], p[1..]) else None
  }

  ghost predicate KeptAt(v: Json, p: Path) { At(v, p).Some? && IsKept(At(v, p).value) }

  function NameAt(outer: Option<string>, v: Json, p: Path): string
    decreases p
  {
    if p == [] then if outer.Some? then outer.value else ""
    else if p[0] < |Kids(v)| then NameAt(Some(KidName(outer, v, p[0])), Kids(v)[p[0]], p[1..])
    else ""
  }

  /** Document order of places. */
  predicate PathLess(p: Path, q: Path) {
    if q == [] then false
    else if p == [] then true
    else p[0] < q[0] || (p[0] == q[0] && PathLess(p[1..], q[1..]))
  }

  function Under(i: nat, paths: seq<Path>): (r: seq<Path>)
    ensures |r| == |paths| && forall k :: 0 <= k < |r| ==> r[k] == [i] + paths[k]
  {
    seq(|paths|, k requires 0 <= k < |paths| => [i] + paths[k])
  }

  /** The places of the kept leaves. */
  function KeptPaths(v: Json): seq<Path>
    decreases v, 1
  {
    if IsLeaf(v) then if IsKept(v) then [[]] else [] else KidPaths(v, |Kids(v)|)
  }

  function KidPaths(v: Json, n: nat): seq<Path>
    requires n <= |Kids(v)|
    decreases v, 0, n
  {
    if n == 0 then [] else KidPaths(v, n - 1) + Under(n - 1, KeptPaths(Kids(v)[n - 1]))
  }

  /** `paths` are in document order, and the pairs are the names and texts found there. */
  ghost predicate Flattens(outer: Option<string>, v: Json, paths: seq<Path>, pairs: seq<Pair>, show: Number -> string) {
    && Sorted(paths, PathLess) && |pairs| == |paths|
    && forall k :: 0 <= k < |paths| ==> IsPairAt(outer, v, paths[k], pairs[k], show)
  }

  ghost predicate IsPairAt(outer: Option<string>, v: Json, p: Path, pair: Pair, show: Number -> string) {
    KeptAt(v, p) && pair == (NameAt(outer, v, p), TextOf(At(v, p).value, show))
  }

  lemma {:induction false} DownOneLevel(outer: Option<string>, v: Json, i: nat, p: Path, pair: Pair, show: Number -> string)
    requires i < |Kids(v)|
    ensures KeptAt(v, [i] + p) <==> KeptAt(Kids(v)[i], p)
    ensures IsPairAt(outer, v, [i] + p, pair, show) <==> IsPairAt(Some(KidName(outer, v, i)), Kids(v)[i], p, pair, show)
  {
    assert ([i] + p)[1..] == p;
  }

  lemma {:induction false} UnderFlattens(outer: Option<string>, v: Json, i: nat, paths: seq<Path>, pairs: seq<Pair>,
                                         show: Number -> string)
    requires i < |Kids(v)| && Flattens(Some(KidName(outer, v, i)), Kids(v)[i], paths, pairs, show)
    ensures Flattens(outer, v, Under(i, paths), pairs, show)
  {
    var r := Under(i, paths);
    forall k | 0 <= k < |r| ensures IsPairAt(outer, v, r[k], pairs[k], show) {
      DownOneLevel(outer, v, i, paths[k], pairs[k], show);
    }
    forall j, k | 0 <= j < k < |r| ensures PathLess(r[j], r[k]) {
      assert r[j][1..] == paths[j] && r[k][1..] == paths[k];
    }
  }

  lemma {:induction false} JoinFlattens(outer: Option<string>, v: Json, p1: seq<Path>, q1: seq<Pair>, p2: seq<Path>,
                                        q2: seq<Pair>, show: Number -> string)
    requires Flattens(outer, v, p1, q1, show) && Flattens(outer, v, p2, q2, show)
    requires forall j, k :: 0 <= j < |p1| && 0 <= k < |p2| ==> PathLess(p1[j], p2[k])
    ensures Flattens(outer, v, p1 + p2, q1 + q2, show)
  {
  }

  /** All kept places of a value, in order, with their pairs. */
  ghost predicate FlattensAll(name: string, v: Json, paths: seq<Path>, pairs: seq<Pair>, show: Number -> string) {
    Flattens(Some(name), v, paths, pairs, show) && forall p :: p in paths <==> KeptAt(v, p)
  }

  lemma {:induction false} PairsFlatten(name: string, v: Json, show: Number -> string)
    ensures FlattensAll(name, v, KeptPaths(v), PairsOf(name, v, show), show)
    decreases v, 1
  {
    if IsLeaf(v) {
      LeafFlattens(name, v, show);
    } else {
      KidsFlatten(Some(name), v, |Kids(v)|, show);
      AllIsBefore(name, v, KidPaths(v, |Kids(v)|), KidPairs(Some(name), v, |Kids(v)|, show), show);
    }
  }

  lemma {:induction false} LeafFlattens(name: string, v: Json, show: Number -> string)
    requires IsLeaf(v)
    ensures FlattensAll(name, v, KeptPaths(v), PairsOf(name, v, show), show)
  {
    assert forall p: Path :: p != [] ==> At(v, p).None?;
    assert KeptPaths(v) == if IsKept(v) then [[]] else [];
  }

  lemma {:induction false} AllIsBefore(name: string, v: Json, paths: seq<Path>, pairs: seq<Pair>, show: Number -> string)
    requires !IsLeaf(v) && FlattensBefore(Some(name), v, |Kids(v)|, paths, pairs, show)
    ensures FlattensAll(name, v, paths, pairs, show)
  {
  }

  /** The kept places before the `n`-th value inside, in order, with their pairs. */
  ghost predicate FlattensBefore(outer: Option<string>, v: Json, n: nat, paths: seq<Path>, pairs: seq<Pair>,
                                 show: Number -> string) {
    Flattens(outer, v, paths, pairs, show) && forall p :: p in paths <==> p != [] && p[0] < n && KeptAt(v, p)
  }

  lemma {:induction false} KidsFlatten(outer: Option<string>, v: Json, n: nat, show: Number -> string)
    requires n <= |Kids(v)| && !IsLeaf(v)
    ensures FlattensBefore(outer, v, n, KidPaths(v, n), KidPairs(outer, v, n, show), show)
    decreases v, 0, n
  {
    if n == 0 {
      NothingBefore(outer, v, show);
    } else {
      var i := n - 1;
      KidsFlatten(outer, v, i, show);
      PairsFlatten(KidName(outer, v, i), Kids(v)[i], show);
      NextKid(outer, v, i, show);
    }
  }

  lemma {:induction false} NothingBefore(outer: Option<string>, v: Json, show: Number -> string)
    ensures FlattensBefore(outer, v, 0, [], [], show)
  {
  }

  lemma {:induction false} NextKid(outer: Option<string>, v: Json, i: nat, show: Number -> string)
    requires i < |Kids(v)| && FlattensBefore(outer, v, i, KidPaths(v, i), KidPairs(outer, v, i, show), show)
    requires var name, kid := KidName(outer, v, i), Kids(v)[i];
             FlattensAll(name, kid, KeptPaths(kid), PairsOf(name, kid, show), show)
    ensures FlattensBefore(outer, v, i + 1, KidPaths(v, i + 1), KidPairs(outer, v, i + 1, show), show)
  {
    JoinNext(outer, v, i, KidPaths(v, i), KidPairs(outer, v, i, show), PairsOf(KidName(outer, v, i), Kids(v)[i], show), show);
  }

  lemma {:induction false} JoinNext(outer: Option<string>, v: Json, i: nat, p1: seq<Path>, q1: seq<Pair>, q2: seq<Pair>,
                                    show: Number -> string)
    requires i < |Kids(v)| && FlattensBefore(outer, v, i, p1, q1, show)
    requires FlattensAll(KidName(outer, v, i), Kids(v)[i], KeptPaths(Kids(v)[i]), q2, show)
    ensures FlattensBefore(outer, v, i + 1, p1 + Under(i, KeptPaths(Kids(v)[i])), q1 + q2, show)
  {
    UnderFlattens(outer, v, i, KeptPaths(Kids(v)[i]), q2, show);
    UnderMembers(v, i);
    JoinKid(outer, v, i, p1, q1, Under(i, KeptPaths(Kids(v)[i])), q2, show);
  }

  lemma {:induction false} UnderMember(v: Json, i: nat, p: Path)
    requires i < |Kids(v)| && forall q :: q in KeptPaths(Kids(v)[i]) <==> KeptAt(Kids(v)[i], q)
    ensures p in Under(i, KeptPaths(Kids(v)[i])) <==> p != [] && p[0] == i && KeptAt(v, p)
  {
    var paths := KeptPaths(Kids(v)[i]);
    if p in Under(i, paths) {
      var k :| 0 <= k < |paths| && p == [i] + paths[k];
      assert p[1..] == paths[k] && paths[k] in paths;
    }
    if p != [] && p[0] == i && KeptAt(v, p) {
      assert p[1..] in paths;
      var k :| 0 <= k < |paths| && paths[k] == p[1..];
      assert Under(i, paths)[k] == p;
    }
  }

  lemma {:induction false} UnderMembers(v: Json, i: nat)
    requires i < |Kids(v)| && forall q :: q in KeptPaths(Kids(v)[i]) <==> KeptAt(Kids(v)[i], q)
    ensures forall p :: p in Under(i, KeptPaths(Kids(v)[i])) <==> p != [] && p[0] == i && KeptAt(v, p)
  {
    forall p ensures p in Under(i, KeptPaths(Kids(v)[i])) <==> p != [] && p[0] == i && KeptAt(v, p) {
      UnderMember(v, i, p);
    }
  }

  /** The kept places and the pairs of the values inside before the `i`-th, then of the `i`-th. */
  lemma {:induction false} JoinKid(outer: Option<string>, v: Json, i: nat, p1: seq<Path>, q1: seq<Pair>, p2: seq<Path>,
                                   q2: seq<Pair>, show: Number -> string)
    requires Flattens(outer, v, p1, q1, show) && Flattens(outer, v, p2, q2, show)
    requires forall p :: p in p1 <==> p != [] && p[0] < i && KeptAt(v, p)
    requires forall p :: p in p2 <==> p != [] && p[0] == i && KeptAt(v, p)
    ensures Flattens(outer, v, p1 + p2, q1 + q2, show)
    ensures forall p :: p in p1 + p2 <==> p != [] && p[0] < i + 1 && KeptAt(v, p)
  {
    forall j, k | 0 <= j < |p1| && 0 <= k < |p2| ensures PathLess(p1[j], p2[k]) {
      assert p1[j] in p1 && p2[k] in p2;
    }
    JoinFlattens(outer, v, p1, q1, p2, q2, show);
  }

  lemma {:induction false} PathOrder()
    ensures TotalOrder(PathLess)
  {
    forall p: Path ensures !PathLess(p, p) { PathIrreflexive(p); }
    forall p: Path, q: Path, r: Path | PathLess(p, q) && PathLess(q, r) ensures PathLess(p, r) { PathTransitive(p, q, r); }
    forall p: Path, q: Path ensures p == q || PathLess(p, q) || PathLess(q, p) { PathTotal(p, q); }
  }

  lemma {:induction false} PathIrreflexive(p: Path)
    ensures !PathLess(p, p)
  {
    if p != [] { PathIrreflexive(p[1..]); }
  }

  lemma {:induction false} PathTransitive(p: Path, q: Path, r: Path)
    requires PathLess(p, q) && PathLess(q, r)
    ensures PathLess(p, r)
  {
    if p != [] && p[0] == q[0] && q[0] == r[0] { PathTransitive(p[1..], q[1..], r[1..]); }
  }

  lemma {:induction false} PathTotal(p: Path, q: Path)
    ensures p == q || PathLess(p, q) || PathLess(q, p)
  {
    if p != [] && q != [] && p[0] == q[0] {
      PathTotal(p[1..], q[1..]);
      if p[1..] == q[1..] {
        assert p == [p[0]] + p[1..] && q == [q[0]] + q[1..];
      }
    }
  }

  // ----- What the pairs are -----

  /** The pairs of a query are its kept leaves, each once, in document order, each under its
      bracketed path; and this decides the pairs. */
  lemma {:induction false} QueryMeans(query: Json, pairs: seq<Pair>, show: Number -> string)
    requires query.Obj?
    ensures pairs == KidPairs(None, query, |Kids(query)|, show) <==>
            exists paths :: (forall p :: p in paths <==> KeptAt(query, p)) && Flattens(None, query, paths, pairs, show)
  {
    var found := KidPaths(query, |Kids(query)|);
    KidsFlatten(None, query, |Kids(query)|, show);
    assert forall p :: p in found <==> KeptAt(query, p);
    if paths :| (forall p :: p in paths <==> KeptAt(query, p)) && Flattens(None, query, paths, pairs, show) {
      PathOrder();
      SortedUnique(paths, found, PathLess);
      assert pairs == KidPairs(None, query, |Kids(query)|, show);
    }
  }

  // ----- The names and texts themselves -----

  /** One step further down a path: a key of the query names itself, a key further inside goes in
      brackets, and an item of an array adds empty brackets. */
  lemma {:induction false} BracketedNames(query: Json, p: Path, i: nat, inside: Json)
    requires query.Obj? && At(query, p) == Some(inside)
    ensures inside.Obj? && i < |inside.fields| ==>
              && At(query, p + [i]) == Some(inside.fields[i].value)
              && NameAt(None, query, p + [i]) ==
                 if p == [] then inside.fields[i].key else NameAt(None, query, p) + "[" + inside.fields[i].key + "]"
    ensures inside.Arr? && i < |inside.items| ==>
              && At(query, p + [i]) == Some(inside.items[i])
              && NameAt(None, query, p + [i]) == NameAt(None, query, p) + "[]"
  {
    if i < |Kids(inside)| {
      AtNext(query, p, i);
      NameNext(None, query, p, i);
    }
  }

  lemma {:induction false} AtNext(v: Json, p: Path, i: nat)
    requires At(v, p).Some? && i < |Kids(At(v, p).value)|
    ensures At(v, p + [i]) == Some(Kids(At(v, p).value)[i])
    decreases p
  {
    var next := p + [i];
    if p != [] {
      AtNext(Kids(v)[p[0]], p[1..], i);
      assert next[0] == p[0] && next[1..] == p[1..] + [i];
    } else {
      assert next[1..] == [];
    }
  }

  lemma {:induction false} NameNext(outer: Option<string>, v: Json, p: Path, i: nat)
    requires At(v, p).Some? && i < |Kids(At(v, p).value)|
    ensures NameAt(outer, v, p + [i]) ==
            if p == [] then KidName(outer, v, i) else KidName(Some(NameAt(outer, v, p)), At(v, p).value, i)
    decreases p
  {
    var next := p + [i];
    if p != [] {
      NameNext(Some(KidName(outer, v, p[0])), Kids(v)[p[0]], p[1..], i);
      assert next[0] == p[0] && next[1..] == p[1..] + [i];
    } else {
      assert next[1..] == [];
    }
  }

  /** The text a leaf is sent as: nothing for null and the empty text. */
  ghost predicate SentAs(leaf: Json, text: string, show: Number -> string) {
    match leaf
    case Bool(flag) => text == if flag then "true" else "false"
    case Num(n) => text == show(n)
    case Str(t) => t != "" && text == t
    case _ => false
  }

  lemma {:induction false} SentMeans(leaf: Json, text: string, show: Number -> string)
    ensures IsKept(leaf) && text == TextOf(leaf, show) <==> SentAs(leaf, text, show)
  {
  }

  /** A pair is sent if and only if some leaf of the query is sent as its text under its name. */
  lemma {:induction false} PairIsSent(query: Json, pair: Pair, show: Number -> string)
    requires query.Obj?
    ensures pair in KidPairs(None, query, |Kids(query)|, show) <==>
            exists p :: SentFrom(query, p, pair, show)
  {
    KidsFlatten(None, query, |Kids(query)|, show);
    PairFromLeaf(query, KidPaths(query, |Kids(query)|), KidPairs(None, query, |Kids(query)|, show), pair, show);
  }

  /** The leaf at `p` is sent as this pair. */
  ghost predicate SentFrom(query: Json, p: Path, pair: Pair, show: Number -> string) {
    At(query, p).Some? && SentAs(At(query, p).value, pair.1, show) && pair.0 == NameAt(None, query, p)
  }

  lemma {:induction false} PairFromLeaf(query: Json, paths: seq<Path>, pairs: seq<Pair>, pair: Pair, show: Number -> string)
    requires query.Obj? && FlattensBefore(None, query, |Kids(query)|, paths, pairs, show)
    ensures pair in pairs <==> exists p :: SentFrom(query, p, pair, show)
  {
    if pair in pairs {
      var k :| 0 <= k < |pairs| && pairs[k] == pair;
      SentFromMeans(query, paths[k], pair, show);
      assert SentFrom(query, paths[k], pair, show);
    }
    if p :| SentFrom(query, p, pair, show) {
      SentFromMeans(query, p, pair, show);
      assert p in paths by { KeptIsInside(query, p); }
      var k :| 0 <= k < |paths| && paths[k] == p;
      SentFromMeans(query, p, pairs[k], show);
      assert pairs[k] == pair;
    }
  }

  lemma {:induction false} SentFromMeans(query: Json, p: Path, pair: Pair, show: Number -> string)
    ensures SentFrom(query, p, pair, show) <==> IsPairAt(None, query, p, pair, show)
  {
    if At(query, p).Some? { SentMeans(At(query, p).value, pair.1, show); }
  }

  lemma {:induction false} KeptIsInside(query: Json, p: Path)
    requires query.Obj? && KeptAt(query, p)
    ensures p != [] && p[0] < |Kids(query)|
  {
  }

  /** No pair has an empty value. */
  lemma {:induction false} NoEmptyValue(query: Json, show: Number -> string, k: nat)
    requires query.Obj? && forall n :: show(n) != ""
    requires k < |KidPairs(None, query, |Kids(query)|, show)|
    ensures KidPairs(None, query, |Kids(query)|, show)[k].1 != ""
  {
    KidsFlatten(None, query, |Kids(query)|, show);
    assert IsPairAt(None, query, KidPaths(query, |Kids(query)|)[k], KidPairs(None, query, |Kids(query)|, show)[k], show);
  }

  // ----- Pruning -----

  /** Nothing to send: a dropped leaf or an empty container. */
  predicate IsBlank(v: Json) { if IsLeaf(v) then !IsKept(v) else Kids(v) == [] }

  /** Blank values removed at every depth, innermost first. */
  function Prune(v: Json): Json
    decreases v, 1
  {
    match v
    case Arr(items) => Arr(PruneItems(v, |items|))
    case Obj(fields) => Obj(PruneFields(v, |fields|))
    case _ => v
  }

  function PruneItems(v: Json, n: nat): seq<Json>
    requires v.Arr? && n <= |v.items|
    decreases v, 0, n
  {
    if n == 0 then [] else
      var kid := Prune(Kids(v)[n - 1]);
      PruneItems(v, n - 1) + if IsBlank(kid) then [] else [kid]
  }

  function PruneFields(v: Json, n: nat): Fields
    requires v.Obj? && n <= |v.fields|
    decreases v, 0, n
  {
    if n == 0 then [] else
      var kid := Prune(Kids(v)[n - 1]);
      PruneFields(v, n - 1) + if IsBlank(kid) then [] else [Field(v.fields[n - 1].key, kid)]
  }

  /** Values that begin alike begin with the same pairs. */
  lemma {:induction false} SameBeginning(outer: Option<string>, v: Json, w: Json, n: nat, show: Number -> string)
    requires n <= |Kids(v)| && n <= |Kids(w)|
    requires forall i :: 0 <= i < n ==> Kids(v)[i] == Kids(w)[i] && KidName(outer, v, i) == KidName(outer, w, i)
    ensures KidPairs(outer, v, n, show) == KidPairs(outer, w, n, show)
    decreases n
  {
    if n > 0 { SameBeginning(outer, v, w, n - 1, show); }
  }

  /** Appending one more item that is not blank, or none that is. */
  lemma {:induction false} ArrSnoc(outer: Option<string>, xs: seq<Json>, x: Json, name: string, show: Number -> string)
    requires KidName(outer, Arr([x]), 0) == name
    ensures var next := xs + if IsBlank(x) then [] else [x];
            KidPairs(outer, Arr(next), |next|, show) == KidPairs(outer, Arr(xs), |xs|, show) + PairsOf(name, x, show)
  {
    if IsBlank(x) {
      BlankSendsNothing(name, x, show);
      assert xs + [] == xs;
    } else {
      SameBeginning(outer, Arr(xs), Arr(xs + [x]), |xs|, show);
    }
  }

  lemma {:induction false} ObjSnoc(outer: Option<string>, fs: Fields, f: Field, name: string, show: Number -> string)
    requires KidName(outer, Obj([f]), 0) == name
    ensures var next := fs + if IsBlank(f.value) then [] else [f];
            KidPairs(outer, Obj(next), |next|, show) == KidPairs(outer, Obj(fs), |fs|, show) + PairsOf(name, f.value, show)
  {
    if IsBlank(f.value) {
      BlankSendsNothing(name, f.value, show);
      assert fs + [] == fs;
    } else {
      SameBeginning(outer, Obj(fs), Obj(fs + [f]), |fs|, show);
    }
  }

  lemma {:induction false} BlankSendsNothing(name: string, v: Json, show: Number -> string)
    requires IsBlank(v)
    ensures PairsOf(name, v, show) == []
  {
  }

  /** Pruning changes no pair. */
  lemma {:induction false} PruneKeepsPairs(name: string, v: Json, show: Number -> string)
    ensures PairsOf(name, Prune(v), show) == PairsOf(name, v, show)
    decreases v, 1
  {
    if v.Arr? {
      PruneItemsKeepsPairs(Some(name), v, |v.items|, show);
    } else if v.Obj? {
      PruneFieldsKeepsPairs(Some(name), v, |v.fields|, show);
    }
  }

  lemma {:induction false} PruneItemsKeepsPairs(outer: Option<string>, v: Json, n: nat, show: Number -> string)
    requires v.Arr? && n <= |v.items|
    ensures var pruned := PruneItems(v, n); KidPairs(outer, Arr(pruned), |pruned|, show) == KidPairs(outer, v, n, show)
    decreases v, 0, n
  {
    if n > 0 {
      var kid, name := Prune(v.items[n - 1]), KidName(outer, v, n - 1);
      PruneItemsKeepsPairs(outer, v, n - 1, show);
      PruneKeepsPairs(name, v.items[n - 1], show);
      ArrSnoc(outer, PruneItems(v, n - 1), kid, name, show);
    }
  }

  /** An object of these fields gives the pairs of the first `n` values inside `v`. */
  ghost predicate SameFirstPairs(outer: Option<string>, v: Json, n: nat, fields: Fields, show: Number -> string)
    requires n <= |Kids(v)|
  {
    KidPairs(outer, Obj(fields), |fields|, show) == KidPairs(outer, v, n, show)
  }

  lemma {:induction false} PruneFieldsKeepsPairs(outer: Option<string>, v: Json, n: nat, show: Number -> string)
    requires v.Obj? && n <= |v.fields|
    ensures SameFirstPairs(outer, v, n, PruneFields(v, n), show)
    decreases v, 0, n
  {
    if n > 0 {
      var name := KidName(outer, v, n - 1);
      PruneFieldsKeepsPairs(outer, v, n - 1, show);
      PruneKeepsPairs(name, Kids(v)[n - 1], show);
      PruneFieldsNext(outer, v, n - 1, name, PruneFields(v, n - 1), Prune(Kids(v)[n - 1]), show);
    }
  }

  lemma {:induction false} PruneFieldsNext(outer: Option<string>, v: Json, n: nat, name: string, before: Fields, kid: Json,
                                           show: Number -> string)
    requires v.Obj? && n < |v.fields| && before == PruneFields(v, n) && kid == Prune(Kids(v)[n]) && name == KidName(outer, v, n)
    requires SameFirstPairs(outer, v, n, before, show) && PairsOf(name, kid, show) == PairsOf(name, Kids(v)[n], show)
    ensures SameFirstPairs(outer, v, n + 1, PruneFields(v, n + 1), show)
  {
    ObjSnoc(outer, before, Field(v.fields[n].key, kid), name, show);
  }

  /** A pruned query gives the same pairs, and none at all if and only if nothing is left of it. */
  lemma {:induction false} PrunedQuery(query: Json, show: Number -> string)
    requires query.Obj?
    ensures KidPairs(None, Prune(query), |Kids(Prune(query))|, show) == KidPairs(None, query, |Kids(query)|, show)
    ensures KidPairs(None, query, |Kids(query)|, show) == [] <==> Prune(query) == Obj([])
  {
    PruneFieldsKeepsPairs(None, query, |query.fields|, show);
    FieldsCompact(query, |query.fields|);
    CompactSendsSomething(PruneFields(query, |query.fields|), show);
  }

  lemma {:induction false} CompactSendsSomething(kept: Fields, show: Number -> string)
    requires forall i :: 0 <= i < |kept| ==> !IsBlank(kept[i].value) && Compact(kept[i].value)
    ensures KidPairs(None, Obj(kept), |kept|, show) == [] <==> kept == []
  {
    if kept != [] {
      var v, n := Obj(kept), |kept| - 1;
      PrunedSendsSomething(KidName(None, v, n), Kids(v)[n], show);
      OneKidIsEnough(None, v, n, show);
    }
  }

  lemma {:induction false} OneKidIsEnough(outer: Option<string>, v: Json, i: nat, show: Number -> string)
    requires i < |Kids(v)| && PairsOf(KidName(outer, v, i), Kids(v)[i], show) != []
    ensures KidPairs(outer, v, i + 1, show) != []
  {
  }

  /** Nothing blank is left inside. */
  ghost predicate Compact(v: Json)
    decreases v
  {
    forall i :: 0 <= i < |Kids(v)| ==> !IsBlank(Kids(v)[i]) && Compact(Kids(v)[i])
  }

  lemma {:induction false} PruneCompacts(v: Json)
    ensures Compact(Prune(v))
    decreases v, 1
  {
    if v.Arr? {
      ItemsCompact(v, |v.items|);
    } else if v.Obj? {
      FieldsCompact(v, |v.fields|);
      CompactObject(PruneFields(v, |v.fields|));
    }
  }

  lemma {:induction false} CompactObject(fields: Fields)
    requires forall i :: 0 <= i < |fields| ==> !IsBlank(fields[i].value) && Compact(fields[i].value)
    ensures Compact(Obj(fields))
  {
  }

  lemma {:induction false} ItemsCompact(v: Json, n: nat)
    requires v.Arr? && n <= |v.items|
    ensures Compact(Arr(PruneItems(v, n)))
    decreases v, 0, n
  {
    if n > 0 {
      ItemsCompact(v, n - 1);
      PruneCompacts(v.items[n - 1]);
      var before := PruneItems(v, n - 1);
      assert forall i :: 0 <= i < |before| ==> Kids(Arr(before))[i] == before[i];
    }
  }

  lemma {:induction false} FieldsCompact(v: Json, n: nat)
    requires v.Obj? && n <= |v.fields|
    ensures forall i :: 0 <= i < |PruneFields(v, n)| ==>
      !IsBlank(PruneFields(v, n)[i].value) && Compact(PruneFields(v, n)[i].value)
    decreases v, 0, n
  {
    if n > 0 {
      FieldsCompact(v, n - 1);
      PruneCompacts(v.fields[n - 1].value);
    }
  }

  lemma {:induction false} PrunedSendsSomething(name: string, v: Json, show: Number -> string)
    requires !IsBlank(v) && Compact(v)
    ensures PairsOf(name, v, show) != []
    decreases v
  {
    if !IsLeaf(v) {
      var n := |Kids(v)| - 1;
      PrunedSendsSomething(KidName(Some(name), v, n), Kids(v)[n], show);
      OneKidIsEnough(Some(name), v, n, show);
    }
  }
}
