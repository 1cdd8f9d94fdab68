// What any sort of the collected events does to a selection of them, such as one thread's events.
module Sorting {

  import opened Types
  import opened Collector

  // ---- sorting keeps a strictly ordered selection ----

  /** The events that satisfy `p`, in order. */
  function Keep(events: seq<UnifiedEvent>, p: UnifiedEvent -> bool): (r: seq<UnifiedEvent>)
    ensures forall i :: 0 <= i < |r| ==> p(r[i])
    ensures forall e :: e in r ==> e in events
  {
    if events == [] then []
    else
      var init, last := Keep(events[..|events| - 1], p), events[|events| - 1];
      if p(last) then init + [last] else init
  }

  /** Strictly increasing timestamps. */
  predicate Increasing(events: seq<UnifiedEvent>) {
    forall i, j :: 0 <= i < j < |events| ==> events[i].timestamp < events[j].timestamp
  }

  lemma {:induction false} KeepCount(events: seq<UnifiedEvent>, p: UnifiedEvent -> bool, e: UnifiedEvent)
    ensures multiset(Keep(events, p))[e] == if p(e) then multiset(events)[e] else 0
  {
    if events != [] {
      var init, last := events[..|events| - 1], events[|events| - 1];
      KeepCount(init, p, e);
      assert events == init + [last];
      assert multiset(events) == multiset(init) + multiset{last};
    }
  }

  lemma {:induction false} KeepSorted(events: seq<UnifiedEvent>, p: UnifiedEvent -> bool)
    requires Sorted(events)
    ensures Sorted(Keep(events, p))
  {
    if events != [] {
      var init, last := events[..|events| - 1], events[|events| - 1];
      KeepSorted(init, p);
      forall i | 0 <= i < |Keep(init, p)| ensures CompareEvents(Keep(init, p)[i], last) <= 0 {
        assert Keep(init, p)[i] in init;
      }
    }
  }

  /** A strictly increasing list is the only sorted arrangement of its elements. */
  lemma {:induction false} SortedIsUnique(a: seq<UnifiedEvent>, b: seq<UnifiedEvent>)
    requires Increasing(a) && Sorted(b) && multiset(a) == multiset(b)
    ensures a == b
  {
    hide *;
    assert |a| == |multiset(a)| == |multiset(b)| == |b|;
    if a != [] {
      var n := |a| - 1;
      SameLast(a, b);
      WithoutLast(a);
      WithoutLast(b);
      SortedIsUnique(a[..n], b[..n]);
      JoinLast(a);
      JoinLast(b);
    }
  }

  lemma JoinLast(a: seq<UnifiedEvent>)
    requires a != []
    ensures a == a[..|a| - 1] + [a[|a| - 1]]
  {
  }

  lemma WithoutLast(a: seq<UnifiedEvent>)
    requires a != []
    ensures multiset(a[..|a| - 1]) == multiset(a) - multiset{a[|a| - 1]}
    ensures Increasing(a) ==> Increasing(a[..|a| - 1])
    ensures Sorted(a) ==> Sorted(a[..|a| - 1])
  {
    assert a == a[..|a| - 1] + [a[|a| - 1]];
  }

  lemma SameLast(a: seq<UnifiedEvent>, b: seq<UnifiedEvent>)
    requires Increasing(a) && Sorted(b) && multiset(a) == multiset(b) && |a| == |b| > 0
    ensures a[|a| - 1] == b[|b| - 1]
  {
    var n := |a| - 1;
    var x, y := a[n], b[n];
    assert x in multiset(a) && y in multiset(b);
    assert x in b && y in a;
    var i :| 0 <= i <= n && a[i] == y;
    var j :| 0 <= j <= n && b[j] == x;
    assert j < n ==> CompareEvents(b[j], b[n]) <= 0;
  }

  /** Whatever qsort does with ties elsewhere, a selection with strictly increasing timestamps, such
      as one thread's events, keeps its order. */
  lemma SortKeeps(order: seq<UnifiedEvent>, events: seq<UnifiedEvent>, p: UnifiedEvent -> bool)
    requires SortedPermutation(order, events) && Increasing(Keep(events, p))
    ensures Keep(order, p) == Keep(events, p)
  {
    forall e ensures multiset(Keep(order, p))[e] == multiset(Keep(events, p))[e] {
      KeepCount(order, p, e);
      KeepCount(events, p, e);
    }
    assert multiset(Keep(order, p)) == multiset(Keep(events, p));
    KeepSorted(order, p);
    SortedIsUnique(Keep(events, p), Keep(order, p));
  }

  // ---- any order of a selection that a sort may produce is produced by some sort ----

  function Negation(p: UnifiedEvent -> bool): UnifiedEvent -> bool {
    e => !p(e)
  }

  function Insert(e: UnifiedEvent, s: seq<UnifiedEvent>): seq<UnifiedEvent> {
    if s == [] || CompareEvents(e, s[0]) <= 0 then [e] + s else [s[0]] + Insert(e, s[1..])
  }

  function SortUp(s: seq<UnifiedEvent>): seq<UnifiedEvent> {
    if s == [] then [] else Insert(s[0], SortUp(s[1..]))
  }

  lemma {:induction false} InsertKeeps(e: UnifiedEvent, s: seq<UnifiedEvent>)
    requires Sorted(s)
    ensures Sorted(Insert(e, s)) && multiset(Insert(e, s)) == multiset(s) + multiset{e}
  {
    hide Sorted;
    CompareIsOrder(e, e, e);
    NothingSorted();
    if s != [] {
      CompareIsOrder(e, s[0], e);
    }
    if s == [] || CompareEvents(e, s[0]) <= 0 {
      SortedCons(e, s);
    } else {
      SortedTail(s);
      InsertKeeps(e, s[1..]);
      assert s == [s[0]] + s[1..];
      InInsert(e, s[1..]);
      SortedFront(s[0], Insert(e, s[1..]));
    }
  }

  lemma NothingSorted()
    ensures Sorted([])
  {
  }

  lemma InInsert(e: UnifiedEvent, s: seq<UnifiedEvent>)
    requires multiset(Insert(e, s)) == multiset(s) + multiset{e}
    ensures forall x :: x in Insert(e, s) ==> x == e || x in s
  {
    hide Insert;
    forall x | x in Insert(e, s) ensures x == e || x in s {
      assert x in multiset(Insert(e, s));
    }
  }

  lemma SortedCons(e: UnifiedEvent, s: seq<UnifiedEvent>)
    requires Sorted(s) && (s != [] ==> CompareEvents(e, s[0]) <= 0)
    ensures Sorted([e] + s)
  {
    forall x | x in s ensures CompareEvents(e, x) <= 0 {
      var i :| 0 <= i < |s| && s[i] == x;
      assert i > 0 ==> CompareEvents(s[0], s[i]) <= 0;
    }
    SortedFront(e, s);
  }

  lemma SortedFront(e: UnifiedEvent, s: seq<UnifiedEvent>)
    requires Sorted(s) && forall x :: x in s ==> CompareEvents(e, x) <= 0
    ensures Sorted([e] + s)
  {
    hide CompareEvents;
    var t := [e] + s;
    forall i, j | 0 <= i < j < |t| ensures CompareEvents(t[i], t[j]) <= 0 {
      assert t[j] == s[j - 1] && (i > 0 ==> t[i] == s[i - 1]);
    }
  }

  lemma SortedTail(s: seq<UnifiedEvent>)
    requires Sorted(s) && s != []
    ensures Sorted(s[1..]) && forall x :: x in s[1..] ==> CompareEvents(s[0], x) <= 0
  {
    hide CompareEvents;
    assert forall i :: 0 <= i < |s| - 1 ==> s[1..][i] == s[i + 1];
  }

  lemma {:induction false} SortUpSorts(s: seq<UnifiedEvent>)
    ensures SortedPermutation(SortUp(s), s)
  {
    if s != [] {
      SortUpSorts(s[1..]);
      InsertKeeps(s[0], SortUp(s[1..]));
      assert s == [s[0]] + s[1..];
    }
  }

  function Merge(a: seq<UnifiedEvent>, b: seq<UnifiedEvent>): seq<UnifiedEvent> {
    if a == [] then b
    else if b == [] then a
    else if CompareEvents(a[0], b[0]) <= 0 then [a[0]] + Merge(a[1..], b)
    else [b[0]] + Merge(a, b[1..])
  }

  lemma {:induction false} MergeCount(a: seq<UnifiedEvent>, b: seq<UnifiedEvent>)
    ensures multiset(Merge(a, b)) == multiset(a) + multiset(b)
  {
    hide CompareEvents;
    if a != [] && b != [] {
      assert a == [a[0]] + a[1..] && b == [b[0]] + b[1..];
      if CompareEvents(a[0], b[0]) <= 0 {
        MergeCount(a[1..], b);
      } else {
        MergeCount(a, b[1..]);
      }
    }
  }

  lemma {:induction false} MergeSorted(a: seq<UnifiedEvent>, b: seq<UnifiedEvent>)
    requires Sorted(a) && Sorted(b)
    ensures Sorted(Merge(a, b))
  {
    hide Sorted, CompareEvents;
    if a != [] && b != [] {
      SortedTail(a);
      SortedTail(b);
      if CompareEvents(a[0], b[0]) <= 0 {
        MergeSorted(a[1..], b);
        LowestOfBoth(a[0], a[1..], b);
        SortedFront(a[0], Merge(a[1..], b));
      } else {
        CompareIsOrder(a[0], b[0], a[0]);
        MergeSorted(a, b[1..]);
        LowestOfBoth(b[0], b[1..], a);
        MergeCount(a, b[1..]);
        InMerge(a, b[1..]);
        SortedFront(b[0], Merge(a, b[1..]));
      }
    }
  }

  lemma InMerge(a: seq<UnifiedEvent>, b: seq<UnifiedEvent>)
    ensures forall x :: x in Merge(a, b) ==> x in a || x in b
  {
    hide Merge;
    MergeCount(a, b);
    forall x | x in Merge(a, b) ensures x in a || x in b {
      assert x in multiset(Merge(a, b));
    }
  }

  /** An event that is not greater than a sorted list's elements and the head of another is not greater
      than anything in either. */
  lemma LowestOfBoth(e: UnifiedEvent, a: seq<UnifiedEvent>, b: seq<UnifiedEvent>)
    requires Sorted(b) && b != [] && CompareEvents(e, b[0]) <= 0
    requires forall x :: x in a ==> CompareEvents(e, x) <= 0
    ensures forall x :: x in b ==> CompareEvents(e, x) <= 0
    ensures forall x :: x in Merge(a, b) ==> CompareEvents(e, x) <= 0
  {
    forall x | x in b ensures CompareEvents(e, x) <= 0 {
      var i :| 0 <= i < |b| && b[i] == x;
      assert i > 0 ==> CompareEvents(b[0], b[i]) <= 0;
    }
    InMerge(a, b);
  }

  lemma {:induction false} KeepCons(e: UnifiedEvent, s: seq<UnifiedEvent>, p: UnifiedEvent -> bool)
    ensures Keep([e] + s, p) == if p(e) then [e] + Keep(s, p) else Keep(s, p)
  {
    if s == [] {
      assert [e] + s == [e] && [e][..0] == [];
    } else {
      assert ([e] + s)[..|s|] == [e] + s[..|s| - 1];
      KeepCons(e, s[..|s| - 1], p);
    }
  }

  lemma {:induction false} KeepAll(s: seq<UnifiedEvent>, p: UnifiedEvent -> bool)
    ensures (forall x :: x in s ==> p(x)) ==> Keep(s, p) == s
    ensures (forall x :: x in s ==> !p(x)) ==> Keep(s, p) == []
  {
    if s != [] {
      KeepAll(s[..|s| - 1], p);
      assert s == s[..|s| - 1] + [s[|s| - 1]];
    }
  }

  lemma {:induction false} KeepMerge(a: seq<UnifiedEvent>, b: seq<UnifiedEvent>, p: UnifiedEvent -> bool)
    requires (forall x :: x in a ==> p(x)) && (forall x :: x in b ==> !p(x))
    ensures Keep(Merge(a, b), p) == a
  {
    hide CompareEvents, Keep;
    KeepAll(a, p);
    KeepAll(b, p);
    if a != [] && b != [] {
      assert a == [a[0]] + a[1..];
      assert a[0] in a && b[0] in b;
      if CompareEvents(a[0], b[0]) <= 0 {
        KeepMerge(a[1..], b, p);
        KeepCons(a[0], Merge(a[1..], b), p);
      } else {
        KeepMerge(a, b[1..], p);
        KeepCons(b[0], Merge(a, b[1..]), p);
      }
    }
  }

  /** Every sorted rearrangement `sel` of a selection is what some sorted rearrangement of all events
      leaves of it. */
  lemma Arrange(events: seq<UnifiedEvent>, p: UnifiedEvent -> bool, sel: seq<UnifiedEvent>)
    returns (order: seq<UnifiedEvent>)
    requires SortedPermutation(sel, Keep(events, p))
    ensures SortedPermutation(order, events) && Keep(order, p) == sel
  {
    hide Keep, SortUp, Merge;
    var q := Negation(p);
    var others := SortUp(Keep(events, q));
    SortUpSorts(Keep(events, q));
    order := Merge(sel, others);
    MergeSorted(sel, others);
    MergeCount(sel, others);
    forall e ensures multiset(order)[e] == multiset(events)[e] {
      KeepCount(events, p, e);
      KeepCount(events, q, e);
    }
    forall x | x in sel ensures p(x) {
      assert x in multiset(Keep(events, p));
      assert x in Keep(events, p);
    }
    forall x | x in others ensures !p(x) {
      assert x in multiset(Keep(events, q));
      assert x in Keep(events, q);
      assert q(x);
    }
    KeepMerge(sel, others, p);
  }

  // ---- what a sort may do with ties ----

  /** A sort rearranges a selection. */
  lemma KeepSortedPermutation(order: seq<UnifiedEvent>, events: seq<UnifiedEvent>, p: UnifiedEvent -> bool)
    requires SortedPermutation(order, events)
    ensures SortedPermutation(Keep(order, p), Keep(events, p))
  {
    hide Keep;
    KeepSorted(order, p);
    forall e ensures multiset(Keep(order, p))[e] == multiset(Keep(events, p))[e] {
      KeepCount(order, p, e);
      KeepCount(events, p, e);
    }
  }

  lemma PermutationMeans(a: seq<UnifiedEvent>, b: seq<UnifiedEvent>)
    requires SortedPermutation(a, b)
    ensures Sorted(a) && multiset(a) == multiset(b) && |a| == |b|
  {
    assert |multiset(a)| == |multiset(b)|;
  }

  /** The two neighbours exchanged. */
  function Swapped(events: seq<UnifiedEvent>, i: nat): seq<UnifiedEvent>
    requires i + 1 < |events|
  {
    events[..i] + ([events[i + 1], events[i]] + events[i + 2..])
  }

  predicate Tied(events: seq<UnifiedEvent>, i: nat) {
    i + 1 < |events| && events[i].timestamp == events[i + 1].timestamp
  }

  lemma SwapIsSorted(events: seq<UnifiedEvent>, i: nat)
    requires Tied(events, i) && Sorted(events)
    ensures SortedPermutation(Swapped(events, i), events)
  {
    var t := Swapped(events, i);
    assert |t| == |events|;
    forall k | 0 <= k < |t| ensures t[k].timestamp == events[k].timestamp {
      assert t[k] == if k == i then events[i + 1] else if k == i + 1 then events[i] else events[k];
    }
    assert Sorted(t) by {
      forall j, k | 0 <= j < k < |t| ensures CompareEvents(t[j], t[k]) <= 0 {
        assert CompareEvents(events[j], events[k]) <= 0;
      }
    }
    assert events == events[..i] + ([events[i], events[i + 1]] + events[i + 2..]);
    assert multiset([events[i + 1], events[i]]) == multiset([events[i], events[i + 1]]);
  }

  function Map<X, Y>(f: X --> Y, s: seq<X>): seq<Y>
    requires forall x :: x in s ==> f.requires(x)
  {
    seq(|s|, i requires 0 <= i < |s| => f(s[i]))
  }

  lemma Without<X>(s: seq<X>, k: nat)
    requires k < |s|
    ensures multiset(s[..k] + s[k + 1..]) == multiset(s) - multiset{s[k]}
  {
    assert s == s[..k] + [s[k]] + s[k + 1..];
  }

  lemma MapAround<X, Y>(f: X --> Y, s: seq<X>, k: nat)
    requires k < |s| && forall x :: x in s ==> f.requires(x)
    ensures forall x :: x in s[..k] + s[k + 1..] ==> f.requires(x)
    ensures multiset(Map(f, s)) == multiset(Map(f, s[..k] + s[k + 1..])) + multiset{f(s[k])}
  {
    var front, back := s[..k], s[k + 1..];
    assert forall x :: x in front + back ==> x in s;
    var t := Map(f, front + back);
    Without(Map(f, s), k);
    assert Map(f, s)[..k] + Map(f, s)[k + 1..] == t;
    assert f(s[k]) in Map(f, s);
  }

  lemma {:induction false} MapPermuted<X, Y>(f: X --> Y, a: seq<X>, b: seq<X>)
    requires multiset(a) == multiset(b)
    requires (forall x :: x in a ==> f.requires(x)) && (forall x :: x in b ==> f.requires(x))
    ensures multiset(Map(f, a)) == multiset(Map(f, b))
    decreases |a|
  {
    hide Map;
    assert |a| == |multiset(a)| == |multiset(b)| == |b|;
    if a != [] {
      assert a[0] in multiset(b);
      var k :| 0 <= k < |b| && b[k] == a[0];
      var restA, restB := a[..0] + a[1..], b[..k] + b[k + 1..];
      Without(a, 0);
      Without(b, k);
      MapAround(f, a, 0);
      MapAround(f, b, k);
      MapPermuted(f, restA, restB);
    } else {
      assert a == b;
    }
  }

  /** All sorts of the same events put the same times at the same places. */
  lemma SameTimes(a: seq<UnifiedEvent>, b: seq<UnifiedEvent>)
    requires SortedPermutation(a, b) && Sorted(b)
    ensures |a| == |b| && forall i :: 0 <= i < |a| ==> a[i].timestamp == b[i].timestamp
  {
    var time := (e: UnifiedEvent) => e.timestamp;
    MapPermuted(time, a, b);
    TimesUp(a);
    TimesUp(b);
    UpIsUnique(Map(time, a), Map(time, b));
    assert forall i :: 0 <= i < |a| ==> Map(time, a)[i] == a[i].timestamp;
    assert forall i :: 0 <= i < |b| ==> Map(time, b)[i] == b[i].timestamp;
  }

  predicate Up(s: seq<uint64>) {
    forall i, j :: 0 <= i < j < |s| ==> s[i] <= s[j]
  }

  lemma TimesUp(s: seq<UnifiedEvent>)
    requires Sorted(s)
    ensures Up(Map((e: UnifiedEvent) => e.timestamp, s))
  {
    forall i, j | 0 <= i < j < |s| ensures s[i].timestamp <= s[j].timestamp {
      assert CompareEvents(s[i], s[j]) <= 0;
    }
  }

  lemma {:induction false} UpIsUnique(a: seq<uint64>, b: seq<uint64>)
    requires Up(a) && Up(b) && multiset(a) == multiset(b)
    ensures a == b
  {
    hide Up;
    assert |a| == |multiset(a)| == |multiset(b)| == |b|;
    if a != [] {
      SameFirst(a, b);
      SameFirst(b, a);
      UpRest(a);
      UpRest(b);
      UpIsUnique(a[1..], b[1..]);
    }
  }

  lemma UpRest(s: seq<uint64>)
    requires Up(s) && s != []
    ensures Up(s[1..]) && s == [s[0]] + s[1..]
    ensures multiset(s[1..]) == multiset(s) - multiset{s[0]}
  {
    Without(s, 0);
    assert s[..0] + s[1..] == s[1..];
  }

  lemma SameFirst(a: seq<uint64>, b: seq<uint64>)
    requires Up(a) && multiset(a) == multiset(b) && |a| == |b| > 0
    ensures a[0] <= b[0]
  {
    assert b[0] in multiset(a);
    var i :| 0 <= i < |a| && a[i] == b[0];
  }
}
