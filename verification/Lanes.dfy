/** Readings of a sequence of events: the first value some event carries, the last one,
    everything the events carry joined in order, and the events of one key. */
module Lanes {
  import opened JsonValue

  function First<E, T>(events: seq<E>, lane: E -> Option<T>): Option<T> {
    if events == [] then None
    else
      var earlier := First(events[..|events| - 1], lane);
      if earlier.Some? then earlier else lane(events[|events| - 1])
  }

  function Last<E, T>(events: seq<E>, lane: E -> Option<T>): Option<T> {
    if events == [] then None
    else
      var latest := lane(events[|events| - 1]);
      if latest.Some? then latest else Last(events[..|events| - 1], lane)
  }

  function Joined<E, T>(events: seq<E>, lane: E -> seq<T>): seq<T> {
    if events == [] then []
    else Joined(events[..|events| - 1], lane) + lane(events[|events| - 1])
  }

  function Where<E>(events: seq<E>, keep: E -> bool): seq<E> {
    if events == [] then []
    else Where(events[..|events| - 1], keep) + if keep(events[|events| - 1]) then [events[|events| - 1]] else []
  }

  /** The events of one key. */
  function With<E>(events: seq<E>, key: E -> int, k: int): seq<E> {
    if events == [] then []
    else With(events[..|events| - 1], key, k) + if key(events[|events| - 1]) == k then [events[|events| - 1]] else []
  }

  function KeySet<E>(events: seq<E>, key: E -> int): set<int> {
    set i | 0 <= i < |events| :: key(events[i])
  }

  /** One reduction per key, each over the events of that key alone. */
  function Grouped<E, S>(events: seq<E>, key: E -> int, reduce: seq<E> -> S): map<int, S> {
    map k | k in KeySet(events, key) :: reduce(With(events, key, k))
  }

  predicate Any<E>(events: seq<E>, holds: E -> bool) {
    exists i :: 0 <= i < |events| && holds(events[i])
  }

  // ----- What the readings mean -----

  /** `First` is the value of the earliest event that carries one. */
  lemma {:induction false} FirstMeans<E, T>(events: seq<E>, lane: E -> Option<T>)
    ensures First(events, lane).None? <==> forall i :: 0 <= i < |events| ==> lane(events[i]).None?
    ensures First(events, lane).Some? ==>
      exists i :: 0 <= i < |events| && lane(events[i]) == First(events, lane) &&
                  forall j :: 0 <= j < i ==> lane(events[j]).None?
  {
    if events != [] {
      var n := |events| - 1;
      FirstMeans(events[..n], lane);
      if First(events[..n], lane).Some? {
        var i :| 0 <= i < n && lane(events[..n][i]) == First(events[..n], lane) &&
                 forall j :: 0 <= j < i ==> lane(events[..n][j]).None?;
        assert lane(events[i]) == First(events, lane);
      } else {
        assert forall i :: 0 <= i < n ==> lane(events[..n][i]).None?;
        assert forall i :: 0 <= i < n ==> events[..n][i] == events[i];
      }
    }
  }

  /** `Last` is the value of the latest event that carries one. */
  lemma {:induction false} LastMeans<E, T>(events: seq<E>, lane: E -> Option<T>)
    ensures Last(events, lane).None? <==> forall i :: 0 <= i < |events| ==> lane(events[i]).None?
    ensures Last(events, lane).Some? ==>
      exists i :: 0 <= i < |events| && lane(events[i]) == Last(events, lane) &&
                  forall j :: i < j < |events| ==> lane(events[j]).None?
  {
    if events != [] {
      var n := |events| - 1;
      LastMeans(events[..n], lane);
      if lane(events[n]).None? && Last(events[..n], lane).Some? {
        var i :| 0 <= i < n && lane(events[..n][i]) == Last(events[..n], lane) &&
                 forall j :: i < j < n ==> lane(events[..n][j]).None?;
        assert forall j :: i < j < n ==> events[..n][j] == events[j];
        assert lane(events[i]) == Last(events, lane);
      } else if lane(events[n]).None? {
        assert forall i :: 0 <= i < n ==> events[..n][i] == events[i];
      }
    }
  }

  // ----- One more event -----

  lemma {:induction false} Snoc<E>(events: seq<E>, e: E)
    ensures (events + [e])[..|events|] == events
    ensures (events + [e])[|events|] == e
  {
  }

  lemma {:induction false} FirstSnoc<E, T>(events: seq<E>, e: E, lane: E -> Option<T>)
    ensures First(events + [e], lane) == if First(events, lane).Some? then First(events, lane) else lane(e)
  {
    Snoc(events, e);
  }

  lemma {:induction false} LastSnoc<E, T>(events: seq<E>, e: E, lane: E -> Option<T>)
    ensures Last(events + [e], lane) == if lane(e).Some? then lane(e) else Last(events, lane)
  {
    Snoc(events, e);
  }

  lemma {:induction false} JoinedSnoc<E, T>(events: seq<E>, e: E, lane: E -> seq<T>)
    ensures Joined(events + [e], lane) == Joined(events, lane) + lane(e)
  {
    Snoc(events, e);
  }

  lemma {:induction false} AnySnoc<E>(events: seq<E>, e: E, holds: E -> bool)
    ensures Any(events + [e], holds) <==> Any(events, holds) || holds(e)
  {
    var more := events + [e];
    if Any(events, holds) {
      var i :| 0 <= i < |events| && holds(events[i]);
      assert holds(more[i]);
    }
    if holds(e) {
      assert holds(more[|events|]);
    }
    if Any(more, holds) && !holds(e) {
      var i :| 0 <= i < |more| && holds(more[i]);
      assert holds(events[i]);
    }
  }

  lemma {:induction false} WithSnoc<E>(events: seq<E>, e: E, key: E -> int, k: int)
    ensures With(events + [e], key, k) == if key(e) == k then With(events, key, k) + [e] else With(events, key, k)
  {
    Snoc(events, e);
  }

  lemma {:induction false} WithNone<E>(events: seq<E>, key: E -> int, k: int)
    ensures k !in KeySet(events, key) <==> With(events, key, k) == []
  {
    if events != [] {
      var init, last := events[..|events| - 1], events[|events| - 1];
      WithNone(init, key, k);
      KeySetSnoc(init, last, key);
      assert events == init + [last];
    }
  }

  lemma {:induction false} KeySetSnoc<E>(events: seq<E>, e: E, key: E -> int)
    ensures KeySet(events + [e], key) == KeySet(events, key) + {key(e)}
  {
    var more := events + [e];
    forall k ensures k in KeySet(more, key) <==> k in KeySet(events, key) || k == key(e) {
      if k in KeySet(events, key) {
        var i :| 0 <= i < |events| && key(events[i]) == k;
        assert key(more[i]) == k;
      }
      assert more[|events|] == e;
    }
  }

  /** One more event changes the group of its own key and no other. */
  lemma {:induction false} GroupedSnoc<E, S>(events: seq<E>, e: E, key: E -> int, reduce: seq<E> -> S)
    ensures Grouped(events + [e], key, reduce) ==
            Grouped(events, key, reduce)[key(e) := reduce(With(events, key, key(e)) + [e])]
  {
    KeySetSnoc(events, e, key);
    forall k | k in KeySet(events + [e], key)
      ensures With(events + [e], key, k) == if key(e) == k then With(events, key, k) + [e] else With(events, key, k)
    {
      WithSnoc(events, e, key, k);
    }
  }

  // ----- Readings of concatenations -----

  lemma {:induction false} FirstConcat<E, T>(a: seq<E>, b: seq<E>, lane: E -> Option<T>)
    ensures First(a + b, lane) == if First(a, lane).Some? then First(a, lane) else First(b, lane)
  {
    if b == [] {
      assert a + b == a;
    } else {
      assert (a + b)[..|a + b| - 1] == a + b[..|b| - 1];
      FirstConcat(a, b[..|b| - 1], lane);
    }
  }

  lemma {:induction false} LastConcat<E, T>(a: seq<E>, b: seq<E>, lane: E -> Option<T>)
    ensures Last(a + b, lane) == if Last(b, lane).Some? then Last(b, lane) else Last(a, lane)
  {
    if b == [] {
      assert a + b == a;
    } else {
      assert (a + b)[..|a + b| - 1] == a + b[..|b| - 1];
      LastConcat(a, b[..|b| - 1], lane);
    }
  }

  lemma {:induction false} JoinedConcat<E, T>(a: seq<E>, b: seq<E>, lane: E -> seq<T>)
    ensures Joined(a + b, lane) == Joined(a, lane) + Joined(b, lane)
  {
    if b == [] {
      assert a + b == a;
    } else {
      assert (a + b)[..|a + b| - 1] == a + b[..|b| - 1];
      JoinedConcat(a, b[..|b| - 1], lane);
    }
  }

  lemma {:induction false} WhereConcat<E>(a: seq<E>, b: seq<E>, keep: E -> bool)
    ensures Where(a + b, keep) == Where(a, keep) + Where(b, keep)
  {
    if b == [] {
      assert a + b == a;
    } else {
      assert (a + b)[..|a + b| - 1] == a + b[..|b| - 1];
      WhereConcat(a, b[..|b| - 1], keep);
    }
  }

  lemma {:induction false} AnyConcat<E>(a: seq<E>, b: seq<E>, holds: E -> bool)
    ensures Any(a + b, holds) <==> Any(a, holds) || Any(b, holds)
  {
    var both := a + b;
    if Any(a, holds) {
      var i :| 0 <= i < |a| && holds(a[i]);
      assert holds(both[i]);
    }
    if Any(b, holds) {
      var i :| 0 <= i < |b| && holds(b[i]);
      assert holds(both[|a| + i]);
    }
    if Any(both, holds) {
      var i :| 0 <= i < |both| && holds(both[i]);
      if i < |a| { assert holds(a[i]); } else { assert holds(b[i - |a|]); }
    }
  }
}
