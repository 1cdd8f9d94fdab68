// Properties of the printed records, for every sequence of events: pairing of begin and end
// records, accounting, position of the metadata, and the normalised timeline.
module TraceProofs {

  import opened Types
  import opened Collector
  import opened ChromeTrace

  // ---- begin/end safety ----

  /** The begin and end records of one thread, in output order. */
  function Track(rs: seq<Record>, tid: uint32): (r: seq<Record>)
    ensures forall k :: 0 <= k < |r| ==> (r[k].Begin? || r[k].End?) && r[k].tid == tid
  {
    if rs == [] then []
    else
      var init, last := Track(rs[..|rs| - 1], tid), rs[|rs| - 1];
      if (last.Begin? || last.End?) && last.tid == tid then init + [last] else init
  }

  /** Every end record directly follows, on its thread, the begin record it closes, and its duration
      is the distance between the two. */
  predicate Paired(track: seq<Record>) {
    forall k :: 0 <= k < |track| && track[k].End? ==>
      && k > 0
      && track[k - 1].Begin?
      && track[k].durationNs == SubU64(track[k].ts, track[k - 1].ts)
  }

  lemma {:induction false} TrackConcat(a: seq<Record>, b: seq<Record>, tid: uint32)
    ensures Track(a + b, tid) == Track(a, tid) + Track(b, tid)
  {
    if b == [] {
      assert a + b == a;
    } else {
      assert (a + b)[..|a + b| - 1] == a + b[..|b| - 1];
      TrackConcat(a, b[..|b| - 1], tid);
    }
  }

  /** What event `i` adds to the track of `tid`. */
  function TrackStep(events: seq<UnifiedEvent>, i: nat, base: uint64, tid: uint32): seq<Record>
    requires i < |events|
  {
    if IsOn(events[i], tid) || (IsOff(events[i], tid) && Closes(events, i)) then BodyAt(events, i, base) else []
  }

  lemma TrackOfNext(events: seq<UnifiedEvent>, i: nat, base: uint64, tid: uint32)
    requires i < |events|
    ensures Track(Records(events, i + 1, base), tid) ==
            Track(Records(events, i, base), tid) + TrackStep(events, i, base, tid)
  {
    hide *;
    var rs, meta, body := Records(events, i, base), MetaAt(events, i), BodyAt(events, i, base);
    TrackOfBody(events, i, base, tid);
    BodyTime(events, i, base);
    TrackOfMeta(meta, tid);
    RecordsStep(events, i, base);
    TrackConcat(rs + meta, body, tid);
    TrackConcat(rs, meta, tid);
  }

  lemma RecordsStep(events: seq<UnifiedEvent>, i: nat, base: uint64)
    requires i < |events|
    ensures Records(events, i + 1, base) == Records(events, i, base) + MetaAt(events, i) + BodyAt(events, i, base)
  {
    hide MetaAt, BodyAt;
  }

  lemma {:induction false} TrackOfMeta(rs: seq<Record>, tid: uint32)
    requires forall r :: r in rs ==> r.ThreadName?
    ensures Track(rs, tid) == []
  {
    if rs != [] {
      assert rs[|rs| - 1] in rs;
      TrackOfMeta(rs[..|rs| - 1], tid);
    }
  }

  lemma TrackOfBody(events: seq<UnifiedEvent>, i: nat, base: uint64, tid: uint32)
    requires i < |events|
    ensures Track(BodyAt(events, i, base), tid) == TrackStep(events, i, base, tid)
  {
    hide OnTime, Closes;
    var body := BodyAt(events, i, base);
    if body != [] {
      assert body[..0] == [] && Track([], tid) == [];
    }
  }

  lemma SubShift(a: uint64, b: uint64, base: uint64)
    ensures SubU64(SubU64(a, base), SubU64(b, base)) == SubU64(a, b)
  {
  }

  /** For every sequence of events, sorted or not, with dropped events and repeated ONs: each end
      record has its own begin record, which is the thread's most recent one. */
  lemma {:induction false} EndsArePaired(events: seq<UnifiedEvent>, n: nat, base: uint64, tid: uint32)
    requires n <= |events|
    ensures var track := Track(Records(events, n, base), tid);
            && Paired(track)
            && (OnTime(events, n, tid) != 0 ==>
                  && track != [] && track[|track| - 1].Begin?
                  && track[|track| - 1].ts == SubU64(OnTime(events, n, tid), base))
  {
    hide Records, BodyAt, Closes, OnTime, Track, TrackStep, SubU64;
    if n == 0 {
      NoRecords(events, base, tid);
    } else {
      EndsArePaired(events, n - 1, base, tid);
      TrackOfNext(events, n - 1, base, tid);
      StepContent(events, n - 1, base, tid);
      if IsOff(events[n - 1], tid) && Closes(events, n - 1) {
        SubShift(events[n - 1].timestamp, OnTime(events, n - 1, tid), base);
      }
    }
  }

  lemma TraceEventsAre(events: seq<UnifiedEvent>)
    ensures TraceEvents(events) == Records(events, |events|, MinTimestamp(events, |events|))
  {
  }

  lemma NoRecords(events: seq<UnifiedEvent>, base: uint64, tid: uint32)
    ensures Track(Records(events, 0, base), tid) == [] && OnTime(events, 0, tid) == 0
  {
  }

  lemma StepContent(events: seq<UnifiedEvent>, i: nat, base: uint64, tid: uint32)
    requires i < |events|
    ensures var e, step := events[i], TrackStep(events, i, base, tid);
            if IsOn(e, tid) then
              && |step| == 1 && step[0].Begin? && step[0].ts == SubU64(e.timestamp, base)
              && OnTime(events, i + 1, tid) == e.timestamp
            else if IsOff(e, tid) then
              && OnTime(events, i + 1, tid) == 0
              && (if Closes(events, i) then
                    && OnTime(events, i, tid) != 0
                    && |step| == 1 && step[0].End? && step[0].ts == SubU64(e.timestamp, base)
                    && step[0].durationNs == SubU64(e.timestamp, OnTime(events, i, tid))
                  else step == [])
            else step == [] && OnTime(events, i + 1, tid) == OnTime(events, i, tid)
  {
  }

  // ---- accounting ----

  datatype Counts = Counts(ons: nat, closed: nat, wakeups: nat, gpus: nat)

  function CountsOf(events: seq<UnifiedEvent>, n: nat): Counts
    requires n <= |events|
  {
    if n == 0 then Counts(0, 0, 0, 0)
    else
      var c, e := CountsOf(events, n - 1), events[n - 1];
      if e.Gpu? then c.(gpus := c.gpus + 1)
      else if e.cpu.eventType == CPU_SCHED_ON then c.(ons := c.ons + 1)
      else if IsWakeup(e) then c.(wakeups := c.wakeups + 1)
      else if Closes(events, n - 1) then c.(closed := c.closed + 1)
      else c
  }

  /** output_count: two metadata records if any CPU event exists, plus one record per ON, wakeup, GPU
      event and OFF that closes something. */
  lemma {:induction false} Accounting(events: seq<UnifiedEvent>, n: nat, base: uint64)
    requires n <= |events|
    ensures var c := CountsOf(events, n);
            |Records(events, n, base)| == (if SomeCpu(events, n) then 2 else 0) + c.ons + c.closed + c.wakeups + c.gpus
  {
    hide Closes, MetaAt, BodyAt;
    if n > 0 {
      Accounting(events, n - 1, base);
      RecordsStep(events, n - 1, base);
      AddedCount(events, n - 1, base);
    }
  }

  lemma AddedCount(events: seq<UnifiedEvent>, i: nat, base: uint64)
    requires i < |events|
    ensures var e := events[i];
            |BodyAt(events, i, base)| ==
            if e.Gpu? || e.cpu.eventType == CPU_SCHED_ON || IsWakeup(e) || Closes(events, i) then 1 else 0
    ensures |MetaAt(events, i)| == if events[i].Cpu? && !SomeCpu(events, i) then 2 else 0
    ensures SomeCpu(events, i + 1) <==> SomeCpu(events, i) || events[i].Cpu?
    ensures Closes(events, i) ==> events[i].Cpu? && events[i].cpu.eventType == CPU_SCHED_OFF
  {
    hide OnTime;
  }

  lemma {:induction false} RecordsPrefix(events: seq<UnifiedEvent>, m: nat, n: nat, base: uint64)
    requires m <= n <= |events|
    ensures Records(events, m, base) <= Records(events, n, base)
    decreases n - m
  {
    hide MetaAt, BodyAt;
    if m < n {
      RecordsPrefix(events, m, n - 1, base);
    }
  }

  /** The only metadata records of `rs` are the two at position `at`. */
  predicate MetadataOnlyAt(rs: seq<Record>, at: nat) {
    && at + 2 <= |rs|
    && forall k :: 0 <= k < |rs| ==> (rs[k].ThreadName? <==> at <= k < at + 2)
  }

  lemma {:induction false} OnlyOneMetadata(events: seq<UnifiedEvent>, i: nat, n: nat, base: uint64)
    requires i < n <= |events| && events[i].Cpu? && !SomeCpu(events, i)
    ensures MetadataOnlyAt(Records(events, n, base), |Records(events, i, base)|)
  {
    hide *;
    RecordsStep(events, n - 1, base);
    BodyTime(events, n - 1, base);
    AddedCount(events, n - 1, base);
    CpuSeen(events, i);
    if n == i + 1 {
      NoMetadataBefore(events, i, base);
      MetadataStarts(Records(events, i, base), MetaAt(events, i), BodyAt(events, i, base));
    } else {
      OnlyOneMetadata(events, i, n - 1, base);
      MetadataStays(Records(events, n - 1, base), |Records(events, i, base)|, MetaAt(events, n - 1),
                    BodyAt(events, n - 1, base));
    }
  }

  lemma CpuSeen(events: seq<UnifiedEvent>, i: nat)
    requires i < |events| && events[i].Cpu?
    ensures forall n :: i < n <= |events| ==> SomeCpu(events, n)
  {
  }

  lemma MetadataStarts(was: seq<Record>, meta: seq<Record>, body: seq<Record>)
    requires forall r :: r in was || r in body ==> !r.ThreadName?
    requires |meta| == 2 && forall r :: r in meta ==> r.ThreadName?
    ensures MetadataOnlyAt(was + meta + body, |was|)
  {
  }

  lemma MetadataStays(rs: seq<Record>, at: nat, meta: seq<Record>, body: seq<Record>)
    requires MetadataOnlyAt(rs, at) && |meta| == 0 && forall r :: r in body ==> !r.ThreadName?
    ensures MetadataOnlyAt(rs + meta + body, at)
  {
  }

  lemma {:induction false} NoMetadataBefore(events: seq<UnifiedEvent>, n: nat, base: uint64)
    requires n <= |events| && !SomeCpu(events, n)
    ensures forall r :: r in Records(events, n, base) ==> !r.ThreadName?
  {
    hide BodyAt;
    if n > 0 {
      BodyTime(events, n - 1, base);
      assert !SomeCpu(events, n - 1) && !events[n - 1].Cpu?;
      NoMetadataBefore(events, n - 1, base);
    }
  }

  /** The metadata pair appears exactly once, just before the output of the first CPU event `i`; it
      names that event's process and thread. */
  lemma MetadataPosition(events: seq<UnifiedEvent>, i: nat, base: uint64)
    requires i < |events| && events[i].Cpu? && !SomeCpu(events, i)
    ensures var rs, at := Records(events, |events|, base), |Records(events, i, base)|;
            && MetadataOnlyAt(rs, at)
            && |MetaAt(events, i)| == 2 && rs[at..at + 2] == MetaAt(events, i)
            && rs[..at] == Records(events, i, base)
  {
    OnlyOneMetadata(events, i, |events|, base);
    RecordsPrefix(events, i, |events|, base);
    RecordsPrefix(events, i + 1, |events|, base);
    RecordsStep(events, i, base);
    AddedCount(events, i, base);
    hide Records, MetaAt, BodyAt, MetadataOnlyAt;
    PrefixParts(Records(events, i, base), MetaAt(events, i), BodyAt(events, i, base), Records(events, |events|, base));
  }

  lemma PrefixParts(a: seq<Record>, m: seq<Record>, b: seq<Record>, all: seq<Record>)
    requires a + m + b <= all
    ensures all[..|a|] == a && all[|a|..|a| + |m|] == m
  {
    var p := a + m + b;
    assert all[..|p|] == p;
    assert p[..|a|] == a && p[|a|..|a| + |m|] == m;
  }

  // ---- the normalised timeline ----

  lemma BaseIsFirst(events: seq<UnifiedEvent>)
    requires Sorted(events) && events != []
    ensures MinTimestamp(events, |events|) == events[0].timestamp
  {
    var m := MinTimestamp(events, |events|);
    var i :| 0 <= i < |events| && m == events[i].timestamp;
    assert i > 0 ==> CompareEvents(events[0], events[i]) <= 0;
  }

  /** After sorting no subtraction of the emit loop goes below zero, and the first event is at 0. */
  lemma NoUnderflow(events: seq<UnifiedEvent>, i: nat, tid: uint32)
    requires Sorted(events) && i < |events|
    ensures var base := MinTimestamp(events, |events|);
            && SubU64(events[i].timestamp, base) == events[i].timestamp - base
            && SubU64(events[0].timestamp, base) == 0
            && OnTime(events, i, tid) <= events[i].timestamp
            && SubU64(events[i].timestamp, OnTime(events, i, tid)) == events[i].timestamp - OnTime(events, i, tid)
  {
    BaseIsFirst(events);
    var p := LastSwitch(events, i, tid);
    if p >= 0 {
      assert CompareEvents(events[p], events[i]) <= 0;
    }
  }

  /** Timed records appear in nondecreasing order. */
  predicate InOrder(rs: seq<Record>) {
    forall k, l :: 0 <= k < l < |rs| && !rs[k].ThreadName? && !rs[l].ThreadName? ==> rs[k].ts <= rs[l].ts
  }

  lemma BodyTime(events: seq<UnifiedEvent>, i: nat, base: uint64)
    requires i < |events|
    ensures |BodyAt(events, i, base)| <= 1
    ensures forall r :: r in BodyAt(events, i, base) ==>
              !r.ThreadName? && r.ts == SubU64(events[i].timestamp, base)
    ensures forall r :: r in MetaAt(events, i) ==> r.ThreadName?
  {
  }

  /** Timed records in order, none of them after `limit`. */
  predicate OrderedUpTo(rs: seq<Record>, limit: int) {
    InOrder(rs) && forall k :: 0 <= k < |rs| && !rs[k].ThreadName? ==> rs[k].ts <= limit
  }

  lemma OrderedAppend(was: seq<Record>, meta: seq<Record>, body: seq<Record>, ts: int)
    requires OrderedUpTo(was, ts) && |body| <= 1
    requires (forall r :: r in meta ==> r.ThreadName?) && (forall r :: r in body ==> !r.ThreadName? && r.ts == ts)
    ensures OrderedUpTo(was + meta + body, ts)
  {
    var rs := was + meta + body;
    forall k | 0 <= k < |rs| && |was| <= k < |was| + |meta| ensures rs[k].ThreadName? {
      assert rs[k] == meta[k - |was|];
    }
    forall k | |was| + |meta| <= k < |rs| ensures k == |rs| - 1 && rs[k] in body {
      assert rs[k] == body[k - |was| - |meta|];
    }
  }

  /** What was printed so far is in order and not after the last event. */
  lemma {:induction false} OrderedSoFar(events: seq<UnifiedEvent>, n: nat, limit: int)
    requires Sorted(events) && n <= |events|
    requires n > 0 ==> events[n - 1].timestamp - MinTimestamp(events, |events|) <= limit
    ensures OrderedUpTo(Records(events, n, MinTimestamp(events, |events|)), limit)
  {
    hide BodyAt, MetaAt, MinTimestamp, OrderedUpTo;
    var base := MinTimestamp(events, |events|);
    NothingPrinted(limit);
    if n > 0 {
      var ts := events[n - 1].timestamp - base;
      if n > 1 {
        assert CompareEvents(events[n - 2], events[n - 1]) <= 0;
      }
      OrderedSoFar(events, n - 1, ts);
      BodyTime(events, n - 1, base);
      NoUnderflow(events, n - 1, 0);
      OrderedAppend(Records(events, n - 1, base), MetaAt(events, n - 1), BodyAt(events, n - 1, base), ts);
      OrderedWeaker(Records(events, n, base), ts, limit);
    }
  }

  lemma NothingPrinted(limit: int)
    ensures OrderedUpTo([], limit)
  {
  }

  lemma OrderedWeaker(rs: seq<Record>, low: int, high: int)
    requires OrderedUpTo(rs, low) && low <= high
    ensures OrderedUpTo(rs, high)
  {
  }

  lemma TimelineInOrder(events: seq<UnifiedEvent>, n: nat)
    requires Sorted(events) && n <= |events|
    ensures var rs := Records(events, n, MinTimestamp(events, |events|));
            && InOrder(rs)
            && forall k :: 0 <= k < |rs| && !rs[k].ThreadName? ==>
                 n > 0 && rs[k].ts <= events[n - 1].timestamp - MinTimestamp(events, |events|)
  {
    hide BodyAt, MetaAt, MinTimestamp;
    OrderedSoFar(events, n, if n > 0 then events[n - 1].timestamp - MinTimestamp(events, |events|) else 0);
  }
}
