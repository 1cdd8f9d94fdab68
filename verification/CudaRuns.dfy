// Theorems about whole runs of the CUDA probes, for any interleaving of threads, with missed
// probes, a full map and a full ring.
module CudaRuns {

  import opened Types
  import opened CudaTracer

  /** The state after the first `n` probes of a run that starts with empty maps. */
  function After(cfg: Config, counters: map<nat, uint64>, run: seq<Probe>, n: nat): Tracer
    requires n <= |run|
  {
    if n == 0 then Tracer(map[], counters, [])
    else Step(cfg, After(cfg, counters, run, n - 1), run[n - 1])
  }

  /** The last probe of thread `key` before position `n`, or -1. */
  function Prev(run: seq<Probe>, n: nat, key: uint64): (p: int)
    requires n <= |run|
    ensures -1 <= p < n
    ensures p >= 0 ==> run[p].key == key
    ensures forall i :: p < i < n ==> run[i].key != key
  {
    if n == 0 then -1
    else if run[n - 1].key == key then n - 1
    else Prev(run, n - 1, key)
  }

  /** Position `i` is an entry whose record was put into the map. */
  predicate Recorded(cfg: Config, counters: map<nat, uint64>, run: seq<Probe>, i: nat)
    requires i < |run|
  {
    && run[i].Entry?
    && Traced(cfg, run[i].key)
    && HasRoom(After(cfg, counters, run, i).calls, run[i].key)
  }

  /** The record made at position `i`. */
  function InfoAt(cfg: Config, counters: map<nat, uint64>, run: seq<Probe>, i: nat): CallInfo
    requires i < |run| && run[i].Entry?
  {
    InfoOf(cfg, After(cfg, counters, run, i).counters, run[i])
  }

  /** A slot is occupied exactly when the thread's last probe was a stored entry, and then it holds
      that entry's record. */
  lemma {:induction false} SlotIsLastProbe(cfg: Config, counters: map<nat, uint64>, run: seq<Probe>, n: nat,
                                           key: uint64)
    requires n <= |run|
    ensures var calls := After(cfg, counters, run, n).calls;
            var p := Prev(run, n, key);
            && (key in calls <==> p >= 0 && Recorded(cfg, counters, run, p))
            && (key in calls ==> calls[key] == InfoAt(cfg, counters, run, p))
  {
    if n > 0 {
      SlotIsLastProbe(cfg, counters, run, n - 1, key);
      if run[n - 1].key == key {
        var before := After(cfg, counters, run, n - 1).calls;
        if run[n - 1].Entry? && Traced(cfg, key) && !HasRoom(before, key) {
          assert key !in before;
        }
      }
    }
  }

  // ---- which events are submitted ----

  /** The return at `j` finds the record of an entry of the same operation, and the ring has room.
      That entry is the thread's immediately preceding probe. */
  predicate Reports(cfg: Config, counters: map<nat, uint64>, run: seq<Probe>, j: nat)
    requires j < |run|
  {
    var p := Prev(run, j, run[j].key);
    && run[j].Return?
    && p >= 0
    && Recorded(cfg, counters, run, p)
    && run[p].op == run[j].op
    && run[j].reserved
  }

  /** Positions of an entry and of the return that consumes it. */
  datatype Pair = Pair(enter: nat, exit: nat)

  function Pairs(cfg: Config, counters: map<nat, uint64>, run: seq<Probe>, n: nat): seq<Pair>
    requires n <= |run|
  {
    if n == 0 then []
    else if Reports(cfg, counters, run, n - 1)
    then Pairs(cfg, counters, run, n - 1) + [Pair(Prev(run, n - 1, run[n - 1].key), n - 1)]
    else Pairs(cfg, counters, run, n - 1)
  }

  predicate IsReport(cfg: Config, counters: map<nat, uint64>, run: seq<Probe>, p: Pair) {
    && p.enter < p.exit < |run|
    && Reports(cfg, counters, run, p.exit)
    && p.enter == Prev(run, p.exit, run[p.exit].key)
  }

  /** `ring` has one event per pair, made from the record of the pair's own entry. */
  predicate MadeFrom(cfg: Config, counters: map<nat, uint64>, run: seq<Probe>, ring: seq<CudaEvent>, pairs: seq<Pair>) {
    && |ring| == |pairs|
    && forall k :: 0 <= k < |pairs| ==>
         && IsReport(cfg, counters, run, pairs[k])
         && ring[k] == EventOf(InfoAt(cfg, counters, run, pairs[k].enter), run[pairs[k].exit])
  }

  /** The ring holds exactly one event per reporting return. */
  lemma {:induction false} RingIsReports(cfg: Config, counters: map<nat, uint64>, run: seq<Probe>, n: nat)
    requires n <= |run|
    ensures MadeFrom(cfg, counters, run, After(cfg, counters, run, n).ring, Pairs(cfg, counters, run, n))
  {
    hide InfoAt, EventOf, Reports, Step, Recorded, Prev, IsReport;
    if n > 0 {
      RingIsReports(cfg, counters, run, n - 1);
      RingStep(cfg, counters, run, n - 1);
      PairsStep(cfg, counters, run, n - 1);
    }
  }

  lemma PairsStep(cfg: Config, counters: map<nat, uint64>, run: seq<Probe>, j: nat)
    requires j < |run|
    ensures var pairs, p := Pairs(cfg, counters, run, j), Pair(Max0(Prev(run, j, run[j].key)), j);
            if Reports(cfg, counters, run, j)
            then Pairs(cfg, counters, run, j + 1) == pairs + [p] && IsReport(cfg, counters, run, p)
            else Pairs(cfg, counters, run, j + 1) == pairs
  {
    hide Recorded;
  }

  function Max0(i: int): nat {
    if i < 0 then 0 else i
  }

  /** The pairs are in return order. */
  lemma {:induction false} PairsInOrder(cfg: Config, counters: map<nat, uint64>, run: seq<Probe>, n: nat)
    requires n <= |run|
    ensures var pairs := Pairs(cfg, counters, run, n);
            && (forall k :: 0 <= k < |pairs| ==> IsReport(cfg, counters, run, pairs[k]) && pairs[k].exit < n)
            && (forall k, l :: 0 <= k < l < |pairs| ==> pairs[k].exit < pairs[l].exit)
  {
    hide Prev, Recorded, Reports, IsReport;
    if n > 0 {
      PairsInOrder(cfg, counters, run, n - 1);
      PairsStep(cfg, counters, run, n - 1);
    }
  }

  /** No reporting return is missing. */
  lemma {:induction false} PairsComplete(cfg: Config, counters: map<nat, uint64>, run: seq<Probe>, n: nat, j: nat)
    requires j < n <= |run| && Reports(cfg, counters, run, j)
    ensures Pair(Prev(run, j, run[j].key), j) in Pairs(cfg, counters, run, n)
  {
    hide Recorded, Prev, IsReport, Pairs;
    PairsStep(cfg, counters, run, n - 1);
    if j < n - 1 {
      PairsComplete(cfg, counters, run, n - 1, j);
    }
  }

  lemma RingStep(cfg: Config, counters: map<nat, uint64>, run: seq<Probe>, j: nat)
    requires j < |run|
    ensures var t, p := After(cfg, counters, run, j), Prev(run, j, run[j].key);
            After(cfg, counters, run, j + 1).ring ==
            if Reports(cfg, counters, run, j) then t.ring + [EventOf(InfoAt(cfg, counters, run, p), run[j])]
            else t.ring
  {
    hide EventOf, Count, Traced, HasRoom;
    SlotIsLastProbe(cfg, counters, run, j, run[j].key);
  }

  /** No entry is consumed twice: two events of one thread come from disjoint stretches of its
      probes, and two events never share an entry. */
  lemma ReportsAreDisjoint(cfg: Config, counters: map<nat, uint64>, run: seq<Probe>, a: Pair, b: Pair)
    requires IsReport(cfg, counters, run, a) && IsReport(cfg, counters, run, b)
    requires a.exit < b.exit
    ensures a.enter != b.enter
    ensures run[a.exit].key == run[b.exit].key ==> a.exit < b.enter
  {
    assert run[a.enter].key == run[a.exit].key && run[b.enter].key == run[b.exit].key;
  }

  /** bpf_ktime_get_ns never goes back. */
  predicate MonotoneClock(run: seq<Probe>) {
    forall i, j :: 0 <= i < j < |run| ==> run[i].now <= run[j].now
  }

  /** Whatever probes were missed and whatever was dropped: every event spans exactly from its own
      entry to its own return, on the thread and for the operation of both. */
  lemma EveryEventMatches(cfg: Config, counters: map<nat, uint64>, run: seq<Probe>, k: nat)
    requires MonotoneClock(run)
    requires k < |After(cfg, counters, run, |run|).ring|
    ensures var ring, pairs := After(cfg, counters, run, |run|).ring, Pairs(cfg, counters, run, |run|);
            |pairs| == |ring| && SpanMatches(cfg, counters, run, ring[k], pairs[k])
  {
    RingIsReports(cfg, counters, run, |run|);
    hide After, Pairs, InfoAt, EventOf, Reports, Prev, SpanMatches;
    SpanOf(cfg, counters, run, Pairs(cfg, counters, run, |run|)[k]);
  }

  /** And two events of one thread have disjoint time spans; no entry is used twice. */
  lemma DisjointSpans(cfg: Config, counters: map<nat, uint64>, run: seq<Probe>, a: nat, b: nat)
    requires MonotoneClock(run)
    requires a < b < |After(cfg, counters, run, |run|).ring|
    ensures var ring, pairs := After(cfg, counters, run, |run|).ring, Pairs(cfg, counters, run, |run|);
            && |pairs| == |ring| && pairs[a].enter != pairs[b].enter
            && SpanMatches(cfg, counters, run, ring[a], pairs[a])
            && SpanMatches(cfg, counters, run, ring[b], pairs[b])
            && (ring[a].pid == ring[b].pid && ring[a].tid == ring[b].tid ==>
                  ring[a].timestamp + ring[a].durationNs <= ring[b].timestamp)
  {
    PairsInOrder(cfg, counters, run, |run|);
    EveryEventMatches(cfg, counters, run, a);
    EveryEventMatches(cfg, counters, run, b);
    hide After, Pairs, InfoAt, EventOf, Reports, Prev;
    var pairs := Pairs(cfg, counters, run, |run|);
    ReportsAreDisjoint(cfg, counters, run, pairs[a], pairs[b]);
  }

  /** An event spans exactly from its entry probe to its return probe, on the thread and for the
      operation of both. */
  predicate SpanMatches(cfg: Config, counters: map<nat, uint64>, run: seq<Probe>, e: CudaEvent, p: Pair) {
    && IsReport(cfg, counters, run, p)
    && e.timestamp == run[p.enter].now
    && e.timestamp + e.durationNs == run[p.exit].now
    && e.opType == run[p.enter].op == run[p.exit].op
    && e.pid == PidOf(run[p.exit].key) && e.tid == TidOf(run[p.exit].key)
    && run[p.enter].key == run[p.exit].key == e.pid * U32_MODULUS + e.tid
  }

  lemma SpanOf(cfg: Config, counters: map<nat, uint64>, run: seq<Probe>, p: Pair)
    requires MonotoneClock(run) && IsReport(cfg, counters, run, p)
    ensures SpanMatches(cfg, counters, run, EventOf(InfoAt(cfg, counters, run, p.enter), run[p.exit]), p)
  {
  }

  // ---- conservation of in-flight calls ----

  /** What has happened to the traced entry probes so far. */
  datatype Tally = Tally(entries: nat, stored: nat, refused: nat, overwritten: nat,
                         submitted: nat, ringFull: nat, mismatched: nat)

  /** The fate of the probe at position `j`, judged from the probes before it. */
  function TallyOne(cfg: Config, counters: map<nat, uint64>, run: seq<Probe>, j: nat, t: Tally): Tally
    requires j < |run|
  {
    var p := Prev(run, j, run[j].key);
    var pending := p >= 0 && Recorded(cfg, counters, run, p);
    if run[j].Entry? then
      if !Traced(cfg, run[j].key) then t
      else if !Recorded(cfg, counters, run, j) then t.(entries := t.entries + 1, refused := t.refused + 1)
      else if pending then t.(entries := t.entries + 1, stored := t.stored + 1, overwritten := t.overwritten + 1)
      else t.(entries := t.entries + 1, stored := t.stored + 1)
    else if !pending then t
    else if run[p].op != run[j].op then t.(mismatched := t.mismatched + 1)
    else if !run[j].reserved then t.(ringFull := t.ringFull + 1)
    else t.(submitted := t.submitted + 1)
  }

  function TallyOf(cfg: Config, counters: map<nat, uint64>, run: seq<Probe>, n: nat): Tally
    requires n <= |run|
  {
    if n == 0 then Tally(0, 0, 0, 0, 0, 0, 0)
    else TallyOne(cfg, counters, run, n - 1, TallyOf(cfg, counters, run, n - 1))
  }

  /** In every reachable state each traced entry is accounted for exactly once, and the map never
      exceeds its capacity. */
  lemma {:induction false} Conservation(cfg: Config, counters: map<nat, uint64>, run: seq<Probe>, n: nat)
    requires n <= |run|
    ensures var s, t := After(cfg, counters, run, n), TallyOf(cfg, counters, run, n);
            && t.entries == t.stored + t.refused
            && t.stored == t.submitted + t.ringFull + t.mismatched + t.overwritten + |s.calls|
            && t.submitted == |s.ring|
            && |s.calls| <= MAX_CALLS
  {
    hide After, Step, Prev, Recorded, Traced, InfoAt, TallyOne;
    if n == 0 {
      EmptyStart(cfg, counters, run);
    } else {
      Conservation(cfg, counters, run, n - 1);
      RingStep(cfg, counters, run, n - 1);
      SlotIsLastProbe(cfg, counters, run, n - 1, run[n - 1].key);
      CallsStep(cfg, counters, run, n - 1);
      TallyStep(cfg, counters, run, n - 1, TallyOf(cfg, counters, run, n - 1));
    }
  }

  /** What one probe adds to the two sides of the balance. */
  lemma TallyStep(cfg: Config, counters: map<nat, uint64>, run: seq<Probe>, j: nat, t: Tally)
    requires j < |run| && (Recorded(cfg, counters, run, j) ==> run[j].Entry? && Traced(cfg, run[j].key))
    ensures var p, u := Prev(run, j, run[j].key), TallyOne(cfg, counters, run, j, t);
            var pending, recorded := p >= 0 && Recorded(cfg, counters, run, p), Recorded(cfg, counters, run, j);
            && u.entries - (u.stored + u.refused) == t.entries - (t.stored + t.refused)
            && u.submitted == t.submitted + (if Reports(cfg, counters, run, j) then 1 else 0)
            && u.stored - (u.submitted + u.ringFull + u.mismatched + u.overwritten) ==
               t.stored - (t.submitted + t.ringFull + t.mismatched + t.overwritten) +
               (if recorded then (if pending then 0 else 1) else if run[j].Return? && pending then -1 else 0)
  {
    hide Prev, Recorded, Traced;
  }

  lemma EmptyStart(cfg: Config, counters: map<nat, uint64>, run: seq<Probe>)
    ensures After(cfg, counters, run, 0) == Tracer(map[], counters, [])
  {
  }

  lemma CallsStep(cfg: Config, counters: map<nat, uint64>, run: seq<Probe>, j: nat)
    requires j < |run|
    ensures var before, after := After(cfg, counters, run, j).calls, After(cfg, counters, run, j + 1).calls;
            |after| == |before| + (if Recorded(cfg, counters, run, j) then (if run[j].key in before then 0 else 1)
                                   else if run[j].Return? && run[j].key in before then -1 else 0)
    ensures Recorded(cfg, counters, run, j) ==> run[j].Entry? && Traced(cfg, run[j].key)
    ensures Recorded(cfg, counters, run, j) && run[j].key !in After(cfg, counters, run, j).calls ==>
              |After(cfg, counters, run, j).calls| < MAX_CALLS
  {
    hide InfoOf, EventOf, Count, PidOf, TidOf;
    var before, key := After(cfg, counters, run, j).calls, run[j].key;
    SizeWithout(before, key);
    if run[j].Entry? {
      SizeWith(before, key, InfoOf(cfg, After(cfg, counters, run, j).counters, run[j]));
    }
  }

  lemma SizeWithout(calls: map<uint64, CallInfo>, key: uint64)
    ensures key in calls ==> |calls - {key}| == |calls| - 1
  {
    assert key in calls ==> (calls - {key}).Keys == calls.Keys - {key};
    assert |calls - {key}| == |(calls - {key}).Keys| && |calls| == |calls.Keys|;
  }

  lemma SizeWith(calls: map<uint64, CallInfo>, key: uint64, info: CallInfo)
    ensures |calls[key := info]| == if key in calls then |calls| else |calls| + 1
  {
    assert calls[key := info].Keys == calls.Keys + {key};
    assert |calls[key := info]| == |calls[key := info].Keys| && |calls| == |calls.Keys|;
  }

  // ---- process filter and stack flag ----

  /** With a nonzero target every slot and every event belongs to the target process, and the
      sampled flag always agrees with the stack id. */
  lemma {:induction false} FilterAndFlag(cfg: Config, counters: map<nat, uint64>, run: seq<Probe>, n: nat)
    requires n <= |run|
    ensures var s := After(cfg, counters, run, n);
            && (forall k :: k in s.calls ==>
                  && s.calls[k].pid == PidOf(k)
                  && Traced(cfg, k)
                  && (s.calls[k].stackId >= 0 <==> s.calls[k].flags & FLAG_STACK_SAMPLED != 0))
            && (forall i :: 0 <= i < |s.ring| ==>
                  && (cfg.targetPid == 0 || s.ring[i].pid == cfg.targetPid)
                  && (s.ring[i].stackId >= 0 <==> s.ring[i].flags & FLAG_STACK_SAMPLED != 0))
  {
    hide InfoOf, Count, HasRoom;
    if n > 0 {
      FilterAndFlag(cfg, counters, run, n - 1);
      if run[n - 1].Entry? {
        InfoFlag(cfg, After(cfg, counters, run, n - 1).counters, run[n - 1]);
      }
    }
  }

  lemma InfoFlag(cfg: Config, counters: map<nat, uint64>, e: Probe)
    requires e.Entry?
    ensures var i := InfoOf(cfg, counters, e);
            && i.pid == PidOf(e.key)
            && (i.stackId >= 0 <==> i.flags & FLAG_STACK_SAMPLED != 0)
            && (IsAsync(i.flags) <==> e.op in {6, 10, 13, 14})
            && (IsAsync(i.flags) <==> IsAsync(EntryArgs(e.op, e.regs).flags))
  {
    var f := EntryArgs(e.op, e.regs).flags;
    assert f == 0 || f == FLAG_ASYNC;
    FlagBits(f);
  }

  lemma FlagBits(f: bv32)
    requires f == 0 || f == FLAG_ASYNC
    ensures f & FLAG_STACK_SAMPLED == 0
    ensures (f | FLAG_STACK_SAMPLED) & FLAG_STACK_SAMPLED != 0
    ensures IsAsync(f | FLAG_STACK_SAMPLED) <==> IsAsync(f)
    ensures IsAsync(f) <==> f == FLAG_ASYNC
  {
  }
}
