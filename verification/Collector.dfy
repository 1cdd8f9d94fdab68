// The bounded event array of src/user/unified_trace.c: the two ring callbacks and the sort.
module Collector {

  import opened Types

  const MAX_EVENTS: nat := 100000

  /** struct unified_event: the constructor is the type tag. */
  datatype UnifiedEvent =
    | Cpu(timestamp: uint64, cpu: CpuSchedEvent)
    | Gpu(timestamp: uint64, gpu: CudaEvent)

  /** One record handed over by a ring buffer callback. */
  datatype Arrival = FromCpu(cpu: CpuSchedEvent) | FromGpu(gpu: CudaEvent)

  /** How a record is stored. */
  function Tagged(a: Arrival): UnifiedEvent {
    match a
    case FromCpu(e) => Cpu(e.timestamp, e)
    case FromGpu(e) => Gpu(e.timestamp, e)
  }

  function TaggedAll(arrivals: seq<Arrival>): seq<UnifiedEvent> {
    seq(|arrivals|, i requires 0 <= i < |arrivals| => Tagged(arrivals[i]))
  }

  /** The first `n` elements, or all of them. */
  function First<T>(s: seq<T>, n: nat): seq<T> {
    if n < |s| then s[..n] else s
  }

  lemma AllFit(arrivals: seq<Arrival>)
    requires |arrivals| <= MAX_EVENTS
    ensures First(TaggedAll(arrivals), MAX_EVENTS) == TaggedAll(arrivals)
  {
  }

  /** compare_events. */
  function CompareEvents(a: UnifiedEvent, b: UnifiedEvent): int {
    if a.timestamp < b.timestamp then -1
    else if a.timestamp > b.timestamp then 1
    else 0
  }

  /** No element compares greater than a later one. */
  predicate Sorted(s: seq<UnifiedEvent>) {
    forall i, j :: 0 <= i < j < |s| ==> CompareEvents(s[i], s[j]) <= 0
  }

  /** The comparator is a consistent order for qsort: it reverses with its arguments, and "not
      greater" is total and transitive. */
  lemma CompareIsOrder(a: UnifiedEvent, b: UnifiedEvent, c: UnifiedEvent)
    ensures CompareEvents(a, b) == -CompareEvents(b, a)
    ensures CompareEvents(a, b) <= 0 && CompareEvents(b, c) <= 0 ==> CompareEvents(a, c) <= 0
    ensures CompareEvents(a, b) == 0 <==> a.timestamp == b.timestamp
  {
  }

  /** What qsort may leave behind: any sorted rearrangement. */
  predicate SortedPermutation(after: seq<UnifiedEvent>, before: seq<UnifiedEvent>) {
    Sorted(after) && multiset(after) == multiset(before)
  }

  class EventStore {
    const events: array<UnifiedEvent>
    var eventCount: nat

    ghost predicate Valid()
      reads this
    {
      events.Length == MAX_EVENTS && eventCount <= MAX_EVENTS
    }

    function Stored(): seq<UnifiedEvent>
      requires Valid()
      reads this, events
    {
      events[..eventCount]
    }

    constructor ()
      ensures Valid() && fresh(events) && Stored() == []
    {
      var zero := CpuSchedEvent(0, 0, 0, 0, 0, 0, 0, "");
      events := new UnifiedEvent[MAX_EVENTS](_ => Cpu(0, zero));
      eventCount := 0;
    }

    method HandleCpuEvent(e: CpuSchedEvent)
      requires Valid()
      modifies this, events
      ensures Valid() && Stored() == First(old(Stored()) + [Cpu(e.timestamp, e)], MAX_EVENTS)
    {
      if eventCount >= MAX_EVENTS {
        return;
      }
      events[eventCount] := Cpu(e.timestamp, e);
      eventCount := eventCount + 1;
    }

    method HandleGpuEvent(e: CudaEvent)
      requires Valid()
      modifies this, events
      ensures Valid() && Stored() == First(old(Stored()) + [Gpu(e.timestamp, e)], MAX_EVENTS)
    {
      if eventCount >= MAX_EVENTS {
        return;
      }
      events[eventCount] := Gpu(e.timestamp, e);
      eventCount := eventCount + 1;
    }

    /** The polling loop, for any interleaving of the two rings: exactly the first MAX_EVENTS
        arrivals are stored, in arrival order, with matching tags. */
    method Poll(arrivals: seq<Arrival>)
      requires Valid()
      modifies this, events
      ensures Valid() && Stored() == First(old(Stored()) + TaggedAll(arrivals), MAX_EVENTS)
    {
      ghost var was := Stored();
      var i := 0;
      while i < |arrivals|
        invariant i <= |arrivals| && Valid()
        invariant Stored() == First(was + TaggedAll(arrivals[..i]), MAX_EVENTS)
      {
        match arrivals[i] {
          case FromCpu(e) => HandleCpuEvent(e);
          case FromGpu(e) => HandleGpuEvent(e);
        }
        FirstOneMore(was, arrivals, i);
        i := i + 1;
      }
      assert arrivals[..i] == arrivals;
    }

    /** qsort; `order` is the rearrangement the C library chose. */
    method Qsort(order: seq<UnifiedEvent>)
      requires Valid() && SortedPermutation(order, Stored())
      modifies events
      ensures Valid() && Stored() == order
    {
      assert |order| == eventCount by {
        assert |multiset(order)| == |multiset(Stored())|;
      }
      forall i | 0 <= i < eventCount {
        events[i] := order[i];
      }
    }
  }

  lemma FirstOneMore(was: seq<UnifiedEvent>, arrivals: seq<Arrival>, i: nat)
    requires i < |arrivals|
    ensures First(First(was + TaggedAll(arrivals[..i]), MAX_EVENTS) + [Tagged(arrivals[i])], MAX_EVENTS) ==
            First(was + TaggedAll(arrivals[..i + 1]), MAX_EVENTS)
  {
    var a := was + TaggedAll(arrivals[..i]);
    assert TaggedAll(arrivals[..i + 1]) == TaggedAll(arrivals[..i]) + [Tagged(arrivals[i])];
    assert was + TaggedAll(arrivals[..i + 1]) == a + [Tagged(arrivals[i])];
  }

  /** The CPU records among some arrivals. */
  function CpuOnly(arrivals: seq<Arrival>): seq<CpuSchedEvent> {
    if arrivals == [] then []
    else
      var init := CpuOnly(arrivals[..|arrivals| - 1]);
      match arrivals[|arrivals| - 1]
      case FromCpu(e) => init + [e]
      case FromGpu(_) => init
  }

  /** Each ring loses only a suffix: the CPU records stored are the first ones of the CPU ring. */
  lemma {:induction false} RingLosesSuffix(arrivals: seq<Arrival>, n: nat)
    requires n <= |arrivals|
    ensures CpuOnly(arrivals[..n]) <= CpuOnly(arrivals)
    decreases |arrivals|
  {
    if n == |arrivals| {
      assert arrivals[..n] == arrivals;
    } else {
      var init := arrivals[..|arrivals| - 1];
      RingLosesSuffix(init, n);
      assert init[..n] == arrivals[..n];
    }
  }
}
