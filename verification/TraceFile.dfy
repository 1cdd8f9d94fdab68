// The main results, stated on what a reader finds in the printed file.
module TraceFile {

  import opened Types
  import opened CudaTracer
  import opened CudaRuns
  import opened CallTrees
  import opened StreamRows
  import opened SchedProbes
  import opened Escaping
  import opened JsonText
  import opened StackJson
  import opened StackReader
  import opened StackViews
  import opened Collector
  import opened Sorting
  import opened ChromeTrace
  import opened TraceProofs
  import opened Pipeline
  import opened GpuTimeline
  import opened SliceTies
  import opened DocumentProofs
  import opened TraceReader

  lemma ElementsConcat(host: Host, a: seq<Record>, b: seq<Record>)
    ensures Elements(host, a + b) == Elements(host, a) + Elements(host, b)
  {
    hide ElementOf;
  }

  /** The elements that satisfy `p`. */
  function Pick(es: seq<Element>, p: Element -> bool): seq<Element> {
    if es == [] then []
    else
      var init, last := Pick(es[..|es| - 1], p), es[|es| - 1];
      if p(last) then init + [last] else init
  }

  lemma {:induction false} PickOnly(es: seq<Element>, p: Element -> bool)
    ensures forall i :: 0 <= i < |Pick(es, p)| ==> p(Pick(es, p)[i])
  {
    if es != [] {
      PickOnly(es[..|es| - 1], p);
    }
  }

  lemma {:induction false} PickConcat(a: seq<Element>, b: seq<Element>, p: Element -> bool)
    ensures Pick(a + b, p) == Pick(a, p) + Pick(b, p)
  {
    if b == [] {
      assert a + b == a;
    } else {
      assert (a + b)[..|a + b| - 1] == a + b[..|b| - 1];
      PickConcat(a, b[..|b| - 1], p);
    }
  }

  /** What one more event adds to a selection of the file's elements. */
  lemma PickStep(host: Host, events: seq<UnifiedEvent>, n: nat, base: uint64, p: Element -> bool)
    requires n < |events|
    ensures Pick(Elements(host, Records(events, n + 1, base)), p) ==
            Pick(Elements(host, Records(events, n, base)), p) +
            (Pick(Elements(host, MetaAt(events, n)), p) + Pick(Elements(host, BodyAt(events, n, base)), p))
    ensures Pick(Elements(host, Records(events, 0, base)), p) == []
  {
    hide ElementOf, MetaAt, BodyAt, Pick, Elements;
    var was, meta, body := Records(events, n, base), MetaAt(events, n), BodyAt(events, n, base);
    RecordsStep(events, n, base);
    assert Records(events, n + 1, base) == was + meta + body;
    hide Records;
    ElementsConcat(host, was + meta, body);
    ElementsConcat(host, was, meta);
    PickConcat(Elements(host, was) + Elements(host, meta), Elements(host, body), p);
    PickConcat(Elements(host, was), Elements(host, meta), p);
    NothingPicked(host, events, base, p);
  }

  lemma NothingPicked(host: Host, events: seq<UnifiedEvent>, base: uint64, p: Element -> bool)
    ensures Pick(Elements(host, Records(events, 0, base)), p) == []
  {
  }

  lemma PickFew(e: Element, f: Element, p: Element -> bool)
    ensures Pick([], p) == []
    ensures Pick([e], p) == if p(e) then [e] else []
    ensures !p(e) && !p(f) ==> Pick([e, f], p) == []
    ensures p(e) && p(f) ==> Pick([e, f], p) == [e, f]
  {
    assert [e][..0] == [] && [e, f][..1] == [e];
  }

  // ---- the begin and end elements of a thread ----

  function OfTrack(tid: uint32): Element -> bool {
    (e: Element) => (e.GoesOn? || e.GoesOff?) && e.tid == tid
  }

  lemma {:induction false} TrackRead(host: Host, rs: seq<Record>, tid: uint32)
    ensures Pick(Elements(host, rs), OfTrack(tid)) == Elements(host, Track(rs, tid))
  {
    hide StackSeen, HumanOf, SliceOf;
    if rs != [] {
      var init, last := rs[..|rs| - 1], rs[|rs| - 1];
      TrackRead(host, init, tid);
      assert rs == init + [last];
      var es := Elements(host, rs);
      assert es[..|es| - 1] == Elements(host, init);
      ElementsConcat(host, Track(init, tid), [last]);
      assert Elements(host, [last]) == [ElementOf(host, last)];
    }
  }

  /** What a reader should see of the intervals that a thread runs. */
  function SpanElements(host: Host, spans: seq<Span>, base: uint64, tid: uint32): seq<Element> {
    if spans == [] then []
    else
      var span := spans[|spans| - 1];
      var on := GoesOn(SubU64(span.start, base), tid, tid, span.cpu, span.comm,
                       StackSeen(host, StackIf(span.stackId, tid)));
      var init := SpanElements(host, spans[..|spans| - 1], base, tid);
      match span.stop
      case Some(Stop(time, state)) =>
        if span.start != 0 && tid < TID_LIMIT then
          init + [on, GoesOff(SubU64(time, base), tid, tid, SubU64(time, span.start), state)]
        else init + [on]
      case None => init + [on]
  }

  lemma {:induction false} SpansAsElements(host: Host, spans: seq<Span>, base: uint64, tid: uint32)
    ensures Elements(host, SpanTrack(spans, base, tid)) == SpanElements(host, spans, base, tid)
  {
    hide StackSeen;
    if spans != [] {
      var init, last := spans[..|spans| - 1], spans[|spans| - 1];
      SpansAsElements(host, init, base, tid);
      ElementsConcat(host, SpanTrack(init, base, tid), SpanRecords(last, base, tid));
      SpanAsElements(host, last, base, tid);
    }
  }

  lemma SpanAsElements(host: Host, span: Span, base: uint64, tid: uint32)
    ensures var on := GoesOn(SubU64(span.start, base), tid, tid, span.cpu, span.comm,
                             StackSeen(host, StackIf(span.stackId, tid)));
            Elements(host, SpanRecords(span, base, tid)) ==
            if span.stop.Some? && span.start != 0 && tid < TID_LIMIT then
              [on, GoesOff(SubU64(span.stop.value.time, base), tid, tid, SubU64(span.stop.value.time, span.start),
                           span.stop.value.state)]
            else [on]
  {
    hide StackSeen, SubU64;
  }

  /** From the scheduler to the reader: the begin and end elements found for a non-idle thread are its real
      on-CPU intervals, within some first steps of the run if not everything fits the event array. */
  lemma {:induction false} ScheduleRead(host: Host, start: Running, run: seq<SchedStep>, target: uint32,
                                        arrivals: seq<Arrival>, order: seq<UnifiedEvent>, tid: uint32)
    returns (m: nat)
    requires Watched(start, run, target, tid) && InTime(target, run, tid) && Collected(target, run, arrivals, order)
    requires PrintedNames(order, Legal)
    ensures m <= |run| && (|arrivals| <= MAX_EVENTS ==> m == |run|)
    ensures var es := ReadTrace(FileText(host, order), Symbols(host));
            && es.Some?
            && Pick(es.value, OfTrack(tid)) ==
               SpanElements(host, Spans(start, run, m, tid), MinTimestamp(order, |order|), tid)
  {
    hide *;
    m := TraceIsEarlierSchedule(start, run, target, arrivals, order, tid);
    TraceReadIff(host, order);
    TrackRead(host, TraceEvents(order), tid);
    SpansAsElements(host, Spans(start, run, m, tid), MinTimestamp(order, |order|), tid);
  }

  // ---- the slices of a thread ----

  /** The rows on which the slices of a thread are drawn. */
  predicate InBand(row: int, tid: uint32) {
    (row - tid - 1000000) % U32_MODULUS < 256
  }

  function OfBand(key: uint64): Element -> bool {
    (e: Element) => e.Calls? && e.slice.pid == PidOf(key) && InBand(e.slice.row, TidOf(key))
  }

  function SlicesIn(es: seq<Element>): seq<Slice>
    requires forall i :: 0 <= i < |es| ==> es[i].Calls?
  {
    seq(|es|, i requires 0 <= i < |es| => es[i].slice)
  }

  /** The slices on the rows of a thread's band and process. */
  function BandSlices(es: seq<Element>, key: uint64): seq<Slice> {
    var r := Pick(es, OfBand(key));
    PickOnly(es, OfBand(key));
    assert forall i :: 0 <= i < |r| ==> OfBand(key)(r[i]);
    SlicesIn(r)
  }

  /** No other thread of the process has a CUDA event on the thread's rows. */
  predicate Alone(events: seq<UnifiedEvent>, key: uint64) {
    forall i :: 0 <= i < |events| && Intrudes(events[i], key) ==> false
  }

  predicate Intrudes(e: UnifiedEvent, key: uint64) {
    && e.Gpu? && e.gpu.pid == PidOf(key) && e.gpu.tid != TidOf(key)
    && InBand(Row(e.gpu.tid, e.gpu.streamId), TidOf(key))
  }

  lemma OwnBand(tid: uint32, streamId: uint64)
    ensures InBand(Row(tid, streamId), tid)
  {
    hide StreamOffset, Row;
    RowBand(tid, streamId);
    Shift(tid, StreamOffset(streamId));
  }

  lemma Shift(tid: uint32, d: nat)
    requires d < 256
    ensures ((tid + 1000000 + d) % U32_MODULUS - tid - 1000000) % U32_MODULUS == d
  {
  }

  lemma NoBandInMeta(host: Host, events: seq<UnifiedEvent>, n: nat, key: uint64)
    requires n < |events|
    ensures Pick(Elements(host, MetaAt(events, n)), OfBand(key)) == []
  {
    hide InBand, PidOf, TidOf, SomeCpu;
    var meta := MetaAt(events, n);
    if meta != [] {
      PickFew(ElementOf(host, meta[0]), ElementOf(host, meta[1]), OfBand(key));
      assert Elements(host, meta) == [ElementOf(host, meta[0]), ElementOf(host, meta[1])];
    }
  }

  lemma NoBandInCpu(host: Host, events: seq<UnifiedEvent>, n: nat, base: uint64, key: uint64)
    requires n < |events| && events[n].Cpu?
    ensures Pick(Elements(host, BodyAt(events, n, base)), OfBand(key)) == []
  {
    hide InBand, PidOf, TidOf, Closes, StackSeen, OnTime, SubU64;
    var body := BodyAt(events, n, base);
    if body != [] {
      PickFew(ElementOf(host, body[0]), ElementOf(host, body[0]), OfBand(key));
      assert Elements(host, body) == [ElementOf(host, body[0])];
    }
  }

  lemma BandOfCall(host: Host, r: Record, key: uint64)
    requires r.Complete? && r.pid == r.gpu.pid && r.tid == Row(r.gpu.tid, r.gpu.streamId)
    ensures OfBand(key)(ElementOf(host, r)) <==> Intrudes(Gpu(r.ts, r.gpu), key) || OfThread(r.gpu, key)
  {
    hide Row, InBand, HumanOf, StackSeen, PidOf, TidOf, OpName, OpCategory, HasSize;
    OwnBand(r.gpu.tid, r.gpu.streamId);
  }

  lemma BandStep(host: Host, events: seq<UnifiedEvent>, n: nat, base: uint64, key: uint64)
    requires n < |events| && events[n].Gpu?
    ensures var g, body := events[n].gpu, BodyAt(events, n, base);
            && |body| == 1 && body[0].Complete? && body[0].gpu == g
            && Pick(Elements(host, body), OfBand(key)) ==
               if Intrudes(events[n], key) || OfThread(g, key) then [ElementOf(host, body[0])] else []
  {
    hide Row, HumanOf, SubU64, Pick, ElementOf, OfBand, OfThread, InBand;
    var g, body := events[n].gpu, BodyAt(events, n, base);
    BandOfCall(host, body[0], key);
    PickFew(ElementOf(host, body[0]), ElementOf(host, body[0]), OfBand(key));
    assert Elements(host, body) == [ElementOf(host, body[0])];
  }

  lemma BandSlicesStep(host: Host, events: seq<UnifiedEvent>, n: nat, base: uint64, key: uint64)
    requires n < |events|
    ensures BandSlices(Elements(host, Records(events, 0, base)), key) == []
    ensures var e, body := events[n], BodyAt(events, n, base);
            var was, now := Elements(host, Records(events, n, base)), Elements(host, Records(events, n + 1, base));
            && (e.Gpu? ==> |body| == 1 && body[0].Complete?)
            && BandSlices(now, key) ==
               BandSlices(was, key) + if e.Gpu? && (Intrudes(e, key) || OfThread(e.gpu, key)) then [SliceOf(body[0])]
               else []
  {
    hide Records, Pick, Elements, BodyAt, MetaAt, SliceOf, Intrudes, OfThread, StackSeen, HumanOf, HasSize;
    PickStep(host, events, n, base, OfBand(key));
    NoBandInMeta(host, events, n, key);
    if events[n].Gpu? {
      BandStep(host, events, n, base, key);
    } else {
      NoBandInCpu(host, events, n, base, key);
    }
  }

  lemma SlicesOfFew(r: Record, q: Record, key: uint64)
    ensures Slices([], key) == []
    ensures Slices([r], key) == if r.Complete? && OfThread(r.gpu, key) then [SliceOf(r)] else []
    ensures !r.Complete? && !q.Complete? ==> Slices([r, q], key) == []
  {
    hide SliceOf, OfThread;
    assert [r][..0] == [] && [r, q][..1] == [r];
  }

  lemma NoSliceInMeta(events: seq<UnifiedEvent>, n: nat, key: uint64)
    requires n < |events|
    ensures Slices(MetaAt(events, n), key) == []
  {
    hide Slices, SomeCpu;
    var meta := MetaAt(events, n);
    SlicesOfFew(Wakeup(0, 0, 0), Wakeup(0, 0, 0), key);
    if meta != [] {
      SlicesOfFew(meta[0], meta[1], key);
      assert meta == [meta[0], meta[1]];
    }
  }

  lemma SlicesOfBody(events: seq<UnifiedEvent>, n: nat, base: uint64, key: uint64)
    requires n < |events|
    ensures var e, body := events[n], BodyAt(events, n, base);
            && (e.Gpu? ==> |body| == 1 && body[0].Complete?)
            && Slices(body, key) == if e.Gpu? && OfThread(e.gpu, key) then [SliceOf(body[0])] else []
  {
    hide Slices, SliceOf, OfThread, Closes, OnTime, Row, SubU64;
    var body := BodyAt(events, n, base);
    SlicesOfFew(Wakeup(0, 0, 0), Wakeup(0, 0, 0), key);
    if body != [] {
      SlicesOfFew(body[0], body[0], key);
      assert body == [body[0]];
    }
  }

  lemma SlicesStep(events: seq<UnifiedEvent>, n: nat, base: uint64, key: uint64)
    requires n < |events|
    ensures var e, body := events[n], BodyAt(events, n, base);
            && (e.Gpu? ==> |body| == 1 && body[0].Complete?)
            && Slices(Records(events, n + 1, base), key) ==
               Slices(Records(events, n, base), key) + if e.Gpu? && OfThread(e.gpu, key) then [SliceOf(body[0])] else []
  {
    hide *;
    var was, meta, body := Records(events, n, base), MetaAt(events, n), BodyAt(events, n, base);
    RecordsStep(events, n, base);
    SlicesConcat(was + meta, body, key);
    SlicesConcat(was, meta, key);
    NoSliceInMeta(events, n, key);
    SlicesOfBody(events, n, base, key);
  }

  /** On the rows of a thread a reader finds its slices, and one more for each intruder. */
  lemma {:induction false} BandRead(host: Host, events: seq<UnifiedEvent>, n: nat, base: uint64, key: uint64)
    requires n <= |events|
    ensures var band, own := BandSlices(Elements(host, Records(events, n, base)), key),
                Slices(Records(events, n, base), key);
            && |own| <= |band|
            && ((forall i :: 0 <= i < n ==> !Intrudes(events[i], key)) ==> band == own)
            && ((exists i :: 0 <= i < n && Intrudes(events[i], key)) ==> |own| < |band|)
  {
    hide Records, Elements, BandSlices, Slices, BodyAt, SliceOf, InBand, Row, PidOf, TidOf;
    if n == 0 {
      NothingRead(host, events, base, key);
    } else {
      BandRead(host, events, n - 1, base, key);
      BandSlicesStep(host, events, n - 1, base, key);
      SlicesStep(events, n - 1, base, key);
    }
  }

  lemma NothingRead(host: Host, events: seq<UnifiedEvent>, base: uint64, key: uint64)
    ensures BandSlices(Elements(host, Records(events, 0, base)), key) == [] == Slices(Records(events, 0, base), key)
  {
  }

  /** The slices on a thread's rows are the thread's own if and only if no other thread of the process has
      a CUDA event there. */
  lemma {:induction false} BandIsThreadIff(host: Host, events: seq<UnifiedEvent>, key: uint64)
    ensures BandSlices(Elements(host, TraceEvents(events)), key) == Slices(TraceEvents(events), key) <==>
            Alone(events, key)
  {
    hide BandSlices, Slices, Elements, Records, Intrudes;
    BandRead(host, events, |events|, MinTimestamp(events, |events|), key);
    TraceEventsAre(events);
  }

  function CallElement(): Element -> bool {
    (e: Element) => e.Calls?
  }

  /** All slices of the file. */
  function AllSlices(es: seq<Element>): seq<Slice> {
    var r := Pick(es, CallElement());
    PickOnly(es, CallElement());
    assert forall i :: 0 <= i < |r| ==> CallElement()(r[i]);
    SlicesIn(r)
  }

  lemma AllSlicesSnoc(host: Host, rs: seq<Record>, r: Record)
    ensures AllSlices(Elements(host, rs + [r])) ==
            AllSlices(Elements(host, rs)) + if r.Complete? then [SliceOf(r)] else []
    ensures AllSlices(Elements(host, [])) == []
  {
    hide SliceOf, StackSeen, HumanOf, HasSize, Pick;
    NoElements(host);
    ElementsConcat(host, rs, [r]);
    assert Elements(host, [r]) == [ElementOf(host, r)];
    PickConcat(Elements(host, rs), [ElementOf(host, r)], CallElement());
    PickFew(ElementOf(host, r), ElementOf(host, r), CallElement());
  }

  lemma SlicesSnoc(rs: seq<Record>, r: Record, key: uint64)
    ensures Slices(rs + [r], key) ==
            Slices(rs, key) + if r.Complete? && OfThread(r.gpu, key) then [SliceOf(r)] else []
    ensures Slices([], key) == []
  {
    hide Slices, SliceOf, OfThread;
    SlicesConcat(rs, [r], key);
    SlicesOfFew(r, r, key);
  }

  /** A thread's slices are among the slices of the file. */
  lemma {:induction false} OwnAmongAll(host: Host, rs: seq<Record>, key: uint64)
    ensures multiset(Slices(rs, key)) <= multiset(AllSlices(Elements(host, rs)))
  {
    hide *;
    if rs == [] {
      AllSlicesSnoc(host, [], Wakeup(0, 0, 0));
      SlicesSnoc([], Wakeup(0, 0, 0), key);
    } else {
      var init, last := rs[..|rs| - 1], rs[|rs| - 1];
      assert rs == init + [last];
      OwnAmongAll(host, init, key);
      AllSlicesSnoc(host, init, last);
      SlicesSnoc(init, last, key);
    }
  }

  /** From CUDA calls to the reader.  Each childless call of a well-nested thread that found room, as far as
      the event array has room too, has its own slice in the file, at its own time, on its stream's row,
      under the name of the function called and with the arguments it was called with.  On the thread's
      rows nothing else is found if no other thread of the process has CUDA events there; then the slices
      are in return order if calls entered at one clock reading look alike. */
  lemma {:induction false} CallsRead(host: Host, cfg: Config, counters: map<nat, uint64>, run: seq<Probe>, key: uint64,
                                     done: seq<Call>, open: seq<OpenCall>, arrivals: seq<Arrival>,
                                     order: seq<UnifiedEvent>)
    requires Observed(cfg, counters, run, key, done, open, arrivals)
    requires SortedPermutation(order, First(TaggedAll(arrivals), MAX_EVENTS))
    requires PrintedNames(order, Legal)
    ensures var es, calls := ReadTrace(FileText(host, order), Symbols(host)), StoredCalls(done, open, arrivals, key);
            && es.Some? && LeavesOk(calls)
            && var expected := CallSlices(calls, MinTimestamp(order, |order|));
            && multiset(expected) <= multiset(AllSlices(es.value))
            && (Alone(order, key) ==>
                  && multiset(BandSlices(es.value, key)) == multiset(expected)
                  && (TiesAlike(calls) ==> BandSlices(es.value, key) == expected))
  {
    hide *;
    LeafCallsPrinted(cfg, counters, run, key, done, open, arrivals, order);
    TraceReadIff(host, order);
    OwnAmongAll(host, TraceEvents(order), key);
    BandIsThreadIff(host, order, key);
  }

  // ---- the names of the rows ----

  function IsRowName(): Element -> bool {
    (e: Element) => e.RowName?
  }

  /** A thread's own row, and the row on which its default stream is drawn. */
  function RowsOf(c: CpuSchedEvent): seq<Element> {
    [RowName(c.pid, c.tid, "CPU [" + c.comm + "]"), RowName(c.pid, Row(c.tid, 0), "GPU (CUDA)")]
  }

  /** The rows named in the file are those of the first thread with a CPU event. */
  function NamedRows(events: seq<UnifiedEvent>, n: nat): seq<Element>
    requires n <= |events|
  {
    if n == 0 then []
    else if SomeCpu(events, n - 1) || events[n - 1].Gpu? then NamedRows(events, n - 1)
    else RowsOf(events[n - 1].cpu)
  }

  lemma NoRowName(host: Host, events: seq<UnifiedEvent>, n: nat, base: uint64)
    requires n < |events|
    ensures Pick(Elements(host, BodyAt(events, n, base)), IsRowName()) == []
  {
    hide HumanOf, StackSeen, Closes, SliceOf, Row, OnTime;
    var body := BodyAt(events, n, base);
    if body != [] {
      PickFew(ElementOf(host, body[0]), ElementOf(host, body[0]), IsRowName());
      assert Elements(host, body) == [ElementOf(host, body[0])];
    }
  }

  lemma TwoRowNames(host: Host, pid: uint32, tid: uint32, a: string, b: string)
    ensures Pick(Elements(host, [ThreadName(pid, tid, a), ThreadName(pid, AddU32(tid, GPU_ROW), b)]), IsRowName()) ==
            [RowName(pid, tid, a), RowName(pid, Row(tid, 0), b)]
  {
    hide Row;
    RowBand(tid, 0);
    var e, f := RowName(pid, tid, a), RowName(pid, Row(tid, 0), b);
    PickFew(e, f, IsRowName());
    assert Elements(host, [ThreadName(pid, tid, a), ThreadName(pid, AddU32(tid, GPU_ROW), b)]) == [e, f];
  }

  lemma RowNamesStep(host: Host, events: seq<UnifiedEvent>, n: nat, base: uint64)
    requires n < |events|
    ensures Pick(Elements(host, BodyAt(events, n, base)), IsRowName()) == []
    ensures Pick(Elements(host, MetaAt(events, n)), IsRowName()) ==
            if events[n].Cpu? && !SomeCpu(events, n) then RowsOf(events[n].cpu) else []
  {
    hide BodyAt, SomeCpu, Elements, Pick, Row;
    NoRowName(host, events, n, base);
    NothingPicked(host, events, base, IsRowName());
    NoElements(host);
    if events[n].Cpu? {
      var c := events[n].cpu;
      TwoRowNames(host, c.pid, c.tid, "CPU [" + c.comm + "]", "GPU (CUDA)");
    }
  }

  lemma NoElements(host: Host)
    ensures Elements(host, []) == [] && forall p :: Pick([], p) == []
  {
  }

  lemma SomeCpuStep(events: seq<UnifiedEvent>, n: nat)
    requires n < |events|
    ensures SomeCpu(events, n + 1) <==> SomeCpu(events, n) || events[n].Cpu?
    ensures !SomeCpu(events, 0)
  {
  }

  lemma NamedRowsStep(events: seq<UnifiedEvent>, n: nat)
    requires n < |events|
    ensures NamedRows(events, n + 1) ==
            if SomeCpu(events, n) || events[n].Gpu? then NamedRows(events, n) else RowsOf(events[n].cpu)
    ensures NamedRows(events, 0) == []
  {
    hide SomeCpu, RowsOf;
  }

  lemma JoinRows<T>(was: seq<T>, meta: seq<T>, body: seq<T>, rows: seq<T>, adds: bool)
    requires body == [] && meta == (if adds then rows else []) && (adds ==> was == [])
    ensures was + (meta + body) == if adds then rows else was
  {
  }

  lemma {:induction false} RowNamesOf(host: Host, events: seq<UnifiedEvent>, n: nat, base: uint64)
    requires n <= |events|
    ensures Pick(Elements(host, Records(events, n, base)), IsRowName()) == NamedRows(events, n)
    ensures !SomeCpu(events, n) ==> NamedRows(events, n) == []
  {
    hide *;
    if n == 0 {
      NothingPicked(host, events, base, IsRowName());
      NoneNamed(events);
    } else {
      RowNamesOf(host, events, n - 1, base);
      PickStep(host, events, n - 1, base, IsRowName());
      RowNamesStep(host, events, n - 1, base);
      SomeCpuStep(events, n - 1);
      NamedRowsStep(events, n - 1);
      var rows := if events[n - 1].Cpu? then RowsOf(events[n - 1].cpu) else [];
      JoinRows(NamedRows(events, n - 1), Pick(Elements(host, MetaAt(events, n - 1)), IsRowName()),
               Pick(Elements(host, BodyAt(events, n - 1, base)), IsRowName()), rows,
               events[n - 1].Cpu? && !SomeCpu(events, n - 1));
    }
  }

  lemma NoneNamed(events: seq<UnifiedEvent>)
    ensures NamedRows(events, 0) == []
  {
  }

  lemma {:induction false} RowNamesRead(host: Host, events: seq<UnifiedEvent>)
    requires PrintedNames(events, Legal)
    ensures var es := ReadTrace(FileText(host, events), Symbols(host));
            es.Some? && Pick(es.value, IsRowName()) == NamedRows(events, |events|)
  {
    hide *;
    TraceReadIff(host, events);
    RowNamesOf(host, events, |events|, MinTimestamp(events, |events|));
    TraceEventsAre(events);
  }

  // ---- stacks ----

  /** The stack of an element is what the kernel's entry and the symbolizer say: the innermost addresses, or
      the answer for exactly these. */
  lemma {:induction false} StackSeenShows(host: Host, stackId: int, pid: uint32) returns (addrs: seq<uint64>)
    requires stackId >= 0
    ensures Innermost(host, stackId, addrs)
    ensures StackIf(stackId, pid).Some?
    ensures var seen := StackSeen(host, StackIf(stackId, pid));
            && seen.Some?
            && if Symbols(host) then seen.value.SeenFrames? && FramesAnswer(host, pid, addrs, seen.value.frames)
               else seen.value == SeenAddrs(addrs)
  {
    hide ShownAddrs, ShownFrames, Views, Innermost, FramesAnswer;
    addrs := ShownAddrs(host, stackId);
    ShownAreInnermost(host, stackId);
    FramesShown(host, stackId, pid);
  }

  // ---- the wakeups of a thread ----

  function WakeOf(tid: uint32): UnifiedEvent -> bool {
    (e: UnifiedEvent) => IsWakeup(e) && e.cpu.tid == tid
  }

  /** The times of the wakeups of a thread whose reservation succeeded. */
  function WakeTimes(run: seq<SchedStep>, n: nat, tid: uint32): seq<uint64>
    requires n <= |run|
  {
    if n == 0 then []
    else if run[n - 1].OnWake? && run[n - 1].w.pid == tid && run[n - 1].w.slot.reserved then
      WakeTimes(run, n - 1, tid) + [run[n - 1].w.slot.now]
    else WakeTimes(run, n - 1, tid)
  }

  /** The wakeup records of a thread in a ring. */
  function WakeRecordsOf(es: seq<CpuSchedEvent>, tid: uint32): seq<CpuSchedEvent> {
    if es == [] then []
    else
      var init, last := WakeRecordsOf(es[..|es| - 1], tid), es[|es| - 1];
      if last.eventType == CPU_SCHED_WAKEUP && last.tid == tid then init + [last] else init
  }

  lemma {:induction false} WakeRecordsConcat(a: seq<CpuSchedEvent>, b: seq<CpuSchedEvent>, tid: uint32)
    ensures WakeRecordsOf(a + b, tid) == WakeRecordsOf(a, tid) + WakeRecordsOf(b, tid)
  {
    if b == [] {
      assert a + b == a;
    } else {
      assert (a + b)[..|a + b| - 1] == a + b[..|b| - 1];
      WakeRecordsConcat(a, b[..|b| - 1], tid);
    }
  }

  /** The records say when the thread woke up. */
  predicate TellWakes(es: seq<CpuSchedEvent>, times: seq<uint64>, tid: uint32) {
    |es| == |times| && forall i :: 0 <= i < |es| ==> es[i].timestamp == times[i] && es[i].pid == es[i].tid == tid
  }

  lemma {:induction false} NoWakeAmong(es: seq<CpuSchedEvent>, tid: uint32)
    requires forall i :: 0 <= i < |es| ==> es[i].eventType != CPU_SCHED_WAKEUP
    ensures WakeRecordsOf(es, tid) == []
  {
    if es != [] {
      NoWakeAmong(es[..|es| - 1], tid);
    }
  }

  lemma OneWake(e: CpuSchedEvent, tid: uint32)
    ensures WakeRecordsOf([e], tid) == if e.eventType == CPU_SCHED_WAKEUP && e.tid == tid then [e] else []
  {
    assert [e][..0] == [];
  }

  lemma TimesOfStep(step: SchedStep, tid: uint32)
    ensures WakeTimes([step], 1, tid) ==
            if step.OnWake? && step.w.pid == tid && step.w.slot.reserved then [step.w.slot.now] else []
  {
    assert WakeTimes([step], 0, tid) == [];
  }

  lemma WakeStep(target: uint32, step: SchedStep, tid: uint32)
    requires Wanted(target, tid)
    ensures TellWakes(WakeRecordsOf(StepRecords(target, step), tid), WakeTimes([step], 1, tid), tid)
  {
    hide WakeRecordsOf, WakeTimes;
    TimesOfStep(step, tid);
    match step {
      case OnSwitch(s) =>
        hide Wanted;
        NoWakeAmong(SwitchRecords(target, s), tid);
      case OnWake(w) =>
        OneWake(WakeRecord(w), tid);
        NoWakes(tid);
    }
  }

  lemma {:induction false} RingTellsWakes(target: uint32, run: seq<SchedStep>, n: nat, tid: uint32)
    requires n <= |run| && Wanted(target, tid)
    ensures TellWakes(WakeRecordsOf(Ring(target, run, n), tid), WakeTimes(run, n, tid), tid)
  {
    hide StepRecords, Wanted, WakeRecordsOf;
    if n == 0 {
      NoWakes(tid);
    } else {
      RingTellsWakes(target, run, n - 1, tid);
      WakeStep(target, run[n - 1], tid);
      WakeRecordsConcat(Ring(target, run, n - 1), StepRecords(target, run[n - 1]), tid);
      assert WakeTimes([run[n - 1]], 0, tid) == [];
    }
  }

  lemma NoWakes(tid: uint32)
    ensures WakeRecordsOf([], tid) == []
  {
  }

  lemma {:induction false} WakeRecordsPrefix(es: seq<CpuSchedEvent>, n: nat, tid: uint32)
    requires n <= |es|
    ensures WakeRecordsOf(es[..n], tid) <= WakeRecordsOf(es, tid)
  {
    assert es == es[..n] + es[n..];
    WakeRecordsConcat(es[..n], es[n..], tid);
  }

  /** GPU records in between do not matter. */
  lemma {:induction false} WakesCollected(arrivals: seq<Arrival>, tid: uint32)
    ensures Keep(TaggedAll(arrivals), WakeOf(tid)) == TagCpu(WakeRecordsOf(CpuOnly(arrivals), tid))
  {
    if arrivals != [] {
      var init, last := arrivals[..|arrivals| - 1], arrivals[|arrivals| - 1];
      WakesCollected(init, tid);
      assert TaggedAll(arrivals) == TaggedAll(init) + [Tagged(last)];
      assert TaggedAll(arrivals)[..|arrivals| - 1] == TaggedAll(init);
      if last.FromCpu? {
        assert (CpuOnly(init) + [last.cpu])[..|CpuOnly(init)|] == CpuOnly(init);
        var was := WakeRecordsOf(CpuOnly(init), tid);
        assert TagCpu(was + [last.cpu]) == TagCpu(was) + [Tagged(last)];
      }
    }
  }

  function OfWakes(tid: uint32): Element -> bool {
    (e: Element) => e.Wakes? && e.tid == tid
  }

  function WakeElement(e: UnifiedEvent, base: uint64): Element
    requires e.Cpu?
  {
    Wakes(SubU64(e.timestamp, base), e.cpu.pid, e.cpu.tid)
  }

  /** The elements of some wakeup events. */
  function WakeElements(events: seq<UnifiedEvent>, base: uint64): seq<Element>
    requires forall i :: 0 <= i < |events| ==> events[i].Cpu?
  {
    seq(|events|, i requires 0 <= i < |events| => WakeElement(events[i], base))
  }

  lemma WakeBodyStep(host: Host, events: seq<UnifiedEvent>, n: nat, base: uint64, tid: uint32)
    requires n < |events|
    ensures Pick(Elements(host, MetaAt(events, n)), OfWakes(tid)) == []
    ensures Pick(Elements(host, BodyAt(events, n, base)), OfWakes(tid)) ==
            if WakeOf(tid)(events[n]) then [WakeElement(events[n], base)] else []
  {
    hide HumanOf, StackSeen, Closes, SomeCpu, SliceOf, Row, OnTime, SubU64;
    NoElements(host);
    NoWakeInMeta(host, events, n, tid);
    var body := BodyAt(events, n, base);
    if body != [] {
      PickFew(ElementOf(host, body[0]), ElementOf(host, body[0]), OfWakes(tid));
      assert Elements(host, body) == [ElementOf(host, body[0])];
    }
  }

  lemma NoWakeInMeta(host: Host, events: seq<UnifiedEvent>, n: nat, tid: uint32)
    requires n < |events|
    ensures Pick(Elements(host, MetaAt(events, n)), OfWakes(tid)) == []
  {
    hide SomeCpu;
    NoElements(host);
    var meta := MetaAt(events, n);
    if meta != [] {
      PickFew(ElementOf(host, meta[0]), ElementOf(host, meta[1]), OfWakes(tid));
      assert Elements(host, meta) == [ElementOf(host, meta[0]), ElementOf(host, meta[1])];
    }
  }

  lemma {:induction false} WakesOfOrder(host: Host, events: seq<UnifiedEvent>, n: nat, base: uint64, tid: uint32)
    requires n <= |events|
    ensures var kept := Keep(events[..n], WakeOf(tid));
            && (forall i :: 0 <= i < |kept| ==> WakeOf(tid)(kept[i]) && kept[i].Cpu?)
            && Pick(Elements(host, Records(events, n, base)), OfWakes(tid)) == WakeElements(kept, base)
  {
    hide Records, Elements, BodyAt, MetaAt, Pick, WakeElement;
    if n == 0 {
      NothingPicked(host, events, base, OfWakes(tid));
    } else {
      WakesOfOrder(host, events, n - 1, base, tid);
      PickStep(host, events, n - 1, base, OfWakes(tid));
      WakeBodyStep(host, events, n - 1, base, tid);
      assert events[..n][..n - 1] == events[..n - 1];
    }
  }

  /** What a reader should see of some wakeups. */
  function TimedWakes(times: seq<uint64>, base: uint64, tid: uint32): seq<Element> {
    seq(|times|, i requires 0 <= i < |times| => Wakes(SubU64(times[i], base), tid, tid))
  }

  /** From the scheduler to the reader: the wakeup elements found for a wanted thread are its wakeups whose
      record got into the ring, at their times and in order, whatever the sort does with ties; the first
      ones if not everything fits the event array. */
  lemma {:induction false} WakeupsRead(host: Host, run: seq<SchedStep>, target: uint32, arrivals: seq<Arrival>,
                                       order: seq<UnifiedEvent>, tid: uint32)
    returns (m: nat)
    requires Wanted(target, tid) && Collected(target, run, arrivals, order) && Up(WakeTimes(run, |run|, tid))
    requires PrintedNames(order, Legal)
    ensures m <= |WakeTimes(run, |run|, tid)| && (|arrivals| <= MAX_EVENTS ==> m == |WakeTimes(run, |run|, tid)|)
    ensures var es := ReadTrace(FileText(host, order), Symbols(host));
            && es.Some?
            && Pick(es.value, OfWakes(tid)) ==
               TimedWakes(WakeTimes(run, |run|, tid)[..m], MinTimestamp(order, |order|), tid)
  {
    hide *;
    var n, base := Min(|arrivals|, MAX_EVENTS), MinTimestamp(order, |order|);
    StoredIs(arrivals, order, target, run);
    TraceReadIff(host, order);
    WakesOfOrder(host, order, |order|, base, tid);
    assert order[..|order|] == order;
    TraceEventsAre(order);
    m := WakesStored(target, run, arrivals, n, tid);
    var kept, sel := Keep(TaggedAll(arrivals[..n]), WakeOf(tid)), Keep(order, WakeOf(tid));
    KeepSortedPermutation(order, TaggedAll(arrivals[..n]), WakeOf(tid));
    SortedWakes(kept, sel, WakeTimes(run, |run|, tid)[..m], base, tid);
    if |arrivals| <= MAX_EVENTS {
      assert arrivals[..n] == arrivals;
    }
  }

  /** Of the wakeups in the ring the first ones are stored. */
  lemma {:induction false} WakesStored(target: uint32, run: seq<SchedStep>, arrivals: seq<Arrival>, n: nat, tid: uint32)
    returns (m: nat)
    requires Wanted(target, tid) && n <= |arrivals| && CpuOnly(arrivals) == Ring(target, run, |run|)
    requires Up(WakeTimes(run, |run|, tid))
    ensures m <= |WakeTimes(run, |run|, tid)| && (n == |arrivals| ==> m == |WakeTimes(run, |run|, tid)|)
    ensures Up(WakeTimes(run, |run|, tid)[..m])
    ensures TimesOfWakes(Keep(TaggedAll(arrivals[..n]), WakeOf(tid)), WakeTimes(run, |run|, tid)[..m], tid)
  {
    hide *;
    var times, ring := WakeTimes(run, |run|, tid), CpuOnly(arrivals);
    RingTellsWakes(target, run, |run|, tid);
    RingLosesSuffix(arrivals, n);
    var some := CpuOnly(arrivals[..n]);
    assert some == ring[..|some|];
    WakeRecordsPrefix(ring, |some|, tid);
    WakesCollected(arrivals[..n], tid);
    m := |WakeRecordsOf(some, tid)|;
    PrefixTells(WakeRecordsOf(ring, tid), WakeRecordsOf(some, tid), times, tid);
    if n == |arrivals| {
      assert arrivals[..n] == arrivals;
    }
  }

  /** The events are wakeups of the thread at these times. */
  predicate TimesOfWakes(events: seq<UnifiedEvent>, times: seq<uint64>, tid: uint32) {
    && |events| == |times|
    && forall i :: 0 <= i < |events| ==>
         events[i].Cpu? && events[i].timestamp == times[i] && events[i].cpu.pid == events[i].cpu.tid == tid
  }

  lemma {:induction false} PrefixTells(all: seq<CpuSchedEvent>, some: seq<CpuSchedEvent>, times: seq<uint64>,
                                       tid: uint32)
    requires TellWakes(all, times, tid) && some <= all && Up(times)
    ensures |some| <= |times| && Up(times[..|some|]) && TimesOfWakes(TagCpu(some), times[..|some|], tid)
    ensures |all| == |times|
  {
  }

  lemma {:induction false} SortedWakes(kept: seq<UnifiedEvent>, sel: seq<UnifiedEvent>, times: seq<uint64>,
                                       base: uint64,
                                       tid: uint32)
    requires TimesOfWakes(kept, times, tid) && Up(times) && SortedPermutation(sel, kept)
    requires forall i :: 0 <= i < |sel| ==> sel[i].Cpu?
    ensures WakeElements(sel, base) == TimedWakes(times, base, tid)
  {
    hide SubU64;
    TimesAreSorted(kept, times, tid);
    SameTimes(sel, kept);
    forall i | 0 <= i < |sel| ensures WakeElement(sel[i], base) == Wakes(SubU64(times[i], base), tid, tid) {
      SomePlace(kept, sel, i);
    }
  }

  lemma {:induction false} TimesAreSorted(kept: seq<UnifiedEvent>, times: seq<uint64>, tid: uint32)
    requires TimesOfWakes(kept, times, tid) && Up(times)
    ensures Sorted(kept)
  {
  }
}
