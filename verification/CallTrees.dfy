// Refinement of the in-flight map to call trees: on well-nested traces exactly the traced calls
// that contain no other traced call are reported, as far as the map and the ring had room for them.
module CallTrees {

  import opened Types
  import opened CudaApi
  import opened CudaTracer
  import opened CudaRuns

  // ---- the specification: call trees ----

  /** A probe and whether it got what it needed: an entry its place in the map, a return its place in
      the ring. */
  datatype Fired = Fired(probe: Probe, ok: bool)

  /** A completed traced call and the traced calls made inside it. */
  datatype Call = Call(enter: Fired, exit: Fired, inner: seq<Call>)

  /** A call that has not returned yet. */
  datatype OpenCall = OpenCall(enter: Fired, inner: seq<Call>)

  /** A call without inner calls. */
  datatype Leaf = Leaf(enter: Fired, exit: Fired)

  predicate IsEntry(f: Fired, key: uint64) {
    f.probe.Entry? && f.probe.key == key
  }

  predicate IsExit(f: Fired, key: uint64, op: uint32) {
    f.probe.Return? && f.probe.key == key && f.probe.op == op
  }

  predicate CallOk(key: uint64, c: Call)
    decreases c, 1
  {
    IsEntry(c.enter, key) && IsExit(c.exit, key, c.enter.probe.op) && CallsOk(key, c.inner)
  }

  predicate CallsOk(key: uint64, cs: seq<Call>)
    decreases cs, 0
  {
    cs == [] || (CallOk(key, cs[0]) && CallsOk(key, cs[1..]))
  }

  predicate OpensOk(key: uint64, os: seq<OpenCall>) {
    os == [] || (IsEntry(os[0].enter, key) && CallsOk(key, os[0].inner) && OpensOk(key, os[1..]))
  }

  /** The probes one call fires on its thread, in order. */
  function Flat(c: Call): seq<Fired>
    decreases c, 1
  {
    [c.enter] + FlatAll(c.inner) + [c.exit]
  }

  function FlatAll(cs: seq<Call>): seq<Fired>
    decreases cs, 0
  {
    if cs == [] then [] else Flat(cs[0]) + FlatAll(cs[1..])
  }

  /** The probes of calls still open, outermost first, each with its completed inner calls. */
  function FlatOpen(os: seq<OpenCall>): seq<Fired> {
    if os == [] then [] else [os[0].enter] + FlatAll(os[0].inner) + FlatOpen(os[1..])
  }

  /** Childless calls in return order. */
  function Leaves(c: Call): seq<Leaf>
    decreases c, 1
  {
    if c.inner == [] then [Leaf(c.enter, c.exit)] else LeavesAll(c.inner)
  }

  function LeavesAll(cs: seq<Call>): seq<Leaf>
    decreases cs, 0
  {
    if cs == [] then [] else Leaves(cs[0]) + LeavesAll(cs[1..])
  }

  function LeavesOpen(os: seq<OpenCall>): seq<Leaf> {
    if os == [] then [] else LeavesAll(os[0].inner) + LeavesOpen(os[1..])
  }

  /** What a report says, apart from the sampled stack. */
  datatype Report = Report(timestamp: uint64, durationNs: uint64, pid: uint32, tid: uint32, opType: uint32,
                           size: uint64, ptr: uint64, retVal: int, comm: string, streamId: uint64, async: bool)

  function ReportOf(e: CudaEvent): Report {
    Report(e.timestamp, e.durationNs, e.pid, e.tid, e.opType, e.size, e.ptr, e.retVal, e.comm, e.streamId,
           IsAsync(e.flags))
  }

  /** What must be reported for a childless call: its own entry time and arguments, as the runtime was
      called with them, and its own return value. */
  function Expected(l: Leaf): Report
    requires LeafOk(l)
  {
    var enter, exit := l.enter.probe, l.exit.probe;
    var made := CallMade(enter.op, enter.regs);
    var r := Report(enter.now, SubU64(exit.now, enter.now), PidOf(enter.key), TidOf(exit.key), enter.op,
                    0, 0, exit.ret, exit.comm, 0, false);
    if made.None? then r
    else r.(size := Bytes(made.value).UnwrapOr(0), ptr := Object(made.value), streamId := Stream(made.value),
            async := ReturnsEarly(made.value))
  }

  predicate LeafOk(l: Leaf) {
    l.enter.probe.Entry? && l.exit.probe.Return?
  }

  function AllExpected(ls: seq<Leaf>): seq<Report>
    requires forall i :: 0 <= i < |ls| ==> LeafOk(ls[i])
  {
    if ls == [] then []
    else
      assert LeafOk(ls[|ls| - 1]);
      AllExpected(ls[..|ls| - 1]) + [Expected(ls[|ls| - 1])]
  }

  /** The childless calls whose entry found room in the map and whose return found room in the ring. */
  function Lucky(ls: seq<Leaf>): (r: seq<Leaf>)
    ensures forall l :: l in r ==> l in ls && l.enter.ok && l.exit.ok
  {
    if ls == [] then []
    else
      var init, last := Lucky(ls[..|ls| - 1]), ls[|ls| - 1];
      if last.enter.ok && last.exit.ok then init + [last] else init
  }

  lemma LuckySnoc(ls: seq<Leaf>, l: Leaf)
    ensures Lucky(ls + [l]) == if l.enter.ok && l.exit.ok then Lucky(ls) + [l] else Lucky(ls)
  {
    assert (ls + [l])[..|ls|] == ls;
  }

  predicate AllLucky(ls: seq<Leaf>) {
    forall i :: 0 <= i < |ls| ==> ls[i].enter.ok && ls[i].exit.ok
  }

  /** No call is lost exactly when every one was lucky. */
  lemma {:induction false} NothingLost(ls: seq<Leaf>)
    ensures Lucky(ls) == ls <==> AllLucky(ls)
    ensures |Lucky(ls)| <= |ls| && (|Lucky(ls)| == |ls| ==> AllLucky(ls))
  {
    if ls != [] {
      var init, last := ls[..|ls| - 1], ls[|ls| - 1];
      NothingLost(init);
      assert ls == init + [last];
    }
  }

  // ---- one thread's own sequence of probes ----

  /** What became of the probe at position `i`. */
  function FiredAt(cfg: Config, counters: map<nat, uint64>, run: seq<Probe>, i: nat): Fired
    requires i < |run|
  {
    Fired(run[i], if run[i].Entry? then Recorded(cfg, counters, run, i) else run[i].reserved)
  }

  /** The probes of thread `key` among the first `n` of a run. */
  function Thread(cfg: Config, counters: map<nat, uint64>, run: seq<Probe>, key: uint64, n: nat): seq<Fired>
    requires n <= |run|
  {
    if n == 0 then []
    else if run[n - 1].key == key then Thread(cfg, counters, run, key, n - 1) + [FiredAt(cfg, counters, run, n - 1)]
    else Thread(cfg, counters, run, key, n - 1)
  }

  lemma {:induction false} ThreadLast(cfg: Config, counters: map<nat, uint64>, run: seq<Probe>, key: uint64, n: nat)
    requires n <= |run|
    ensures var s, p := Thread(cfg, counters, run, key, n), Prev(run, n, key);
            && (s == [] <==> p < 0)
            && (p >= 0 ==> s[|s| - 1] == FiredAt(cfg, counters, run, p))
  {
    hide FiredAt;
    if n > 0 {
      ThreadLast(cfg, counters, run, key, n - 1);
    }
  }

  predicate Adjacent(a: Fired, b: Fired) {
    a.probe.Entry? && b.probe.Return? && a.probe.op == b.probe.op
  }

  /** Entries immediately followed, on their thread, by a return of the same operation. */
  function Adj(s: seq<Fired>): (r: seq<Leaf>)
    ensures forall i :: 0 <= i < |r| ==> LeafOk(r[i])
  {
    if |s| < 2 then []
    else if Adjacent(s[|s| - 2], s[|s| - 1]) then Adj(s[..|s| - 1]) + [Leaf(s[|s| - 2], s[|s| - 1])]
    else Adj(s[..|s| - 1])
  }

  lemma {:induction false} AdjConcat(a: seq<Fired>, b: seq<Fired>)
    requires a != [] && b != [] ==> !(a[|a| - 1].probe.Entry? && b[0].probe.Return?)
    ensures Adj(a + b) == Adj(a) + Adj(b)
  {
    var s := a + b;
    if b == [] {
      assert s == a;
    } else if a == [] {
      assert s == b;
    } else {
      var b' := b[..|b| - 1];
      assert s[..|s| - 1] == a + b';
      AdjConcat(a, b');
      assert s[|s| - 2] == if |b| == 1 then a[|a| - 1] else b[|b| - 2];
    }
  }

  /** A sequence of completed calls starts with an entry and ends with a return. */
  lemma {:induction false} FlatShape(key: uint64, cs: seq<Call>)
    requires CallsOk(key, cs) && cs != []
    ensures var f := FlatAll(cs); f != [] && f[0].probe.Entry? && f[|f| - 1].probe.Return?
  {
    if |cs| == 1 {
      assert FlatAll(cs[1..]) == [];
    } else {
      FlatShape(key, cs[1..]);
    }
  }

  /** The adjacent pairs of a call tree's probes are its childless calls. */
  lemma {:induction false} AdjFlat(key: uint64, c: Call)
    requires CallOk(key, c)
    ensures Adj(Flat(c)) == Leaves(c)
    decreases c, 1
  {
    var inside := FlatAll(c.inner);
    if c.inner == [] {
      assert Flat(c) == [c.enter, c.exit];
      assert Flat(c)[..1] == [c.enter];
    } else {
      FlatShape(key, c.inner);
      AdjFlatAll(key, c.inner);
      AdjConcat([c.enter], inside);
      AdjConcat([c.enter] + inside, [c.exit]);
    }
  }

  lemma {:induction false} AdjFlatAll(key: uint64, cs: seq<Call>)
    requires CallsOk(key, cs)
    ensures Adj(FlatAll(cs)) == LeavesAll(cs)
    decreases cs, 0
  {
    if cs != [] {
      AdjFlat(key, cs[0]);
      AdjFlatAll(key, cs[1..]);
      if cs[1..] != [] {
        FlatShape(key, cs[1..]);
      }
      AdjConcat(Flat(cs[0]), FlatAll(cs[1..]));
    }
  }

  lemma {:induction false} AdjOpen(key: uint64, os: seq<OpenCall>)
    requires OpensOk(key, os)
    ensures Adj(FlatOpen(os)) == LeavesOpen(os)
    ensures os != [] ==> FlatOpen(os) != [] && FlatOpen(os)[0].probe.Entry?
  {
    hide Adj, FlatAll, LeavesAll;
    AdjShort();
    if os != [] {
      var inside, more := FlatAll(os[0].inner), FlatOpen(os[1..]);
      AdjOpen(key, os[1..]);
      AdjOpenOne(key, os[0]);
      AdjConcat([os[0].enter] + inside, more);
    }
  }

  lemma AdjShort()
    ensures Adj([]) == [] && forall p :: Adj([p]) == []
  {
  }

  lemma AdjOpenOne(key: uint64, o: OpenCall)
    requires IsEntry(o.enter, key) && CallsOk(key, o.inner)
    ensures var s := [o.enter] + FlatAll(o.inner);
            && Adj(s) == LeavesAll(o.inner)
            && (o.inner == [] ==> s == [o.enter])
            && (o.inner != [] ==> s[|s| - 1].probe.Return?)
  {
    AdjShort();
    AdjFlatAll(key, o.inner);
    if o.inner != [] {
      FlatShape(key, o.inner);
    }
    hide Adj;
    AdjConcat([o.enter], FlatAll(o.inner));
  }

  /** The adjacent pairs of a well-nested trace are its childless calls. */
  lemma AdjTrace(key: uint64, done: seq<Call>, open: seq<OpenCall>)
    requires CallsOk(key, done) && OpensOk(key, open)
    ensures Adj(FlatAll(done) + FlatOpen(open)) == LeavesAll(done) + LeavesOpen(open)
  {
    AdjFlatAll(key, done);
    AdjOpen(key, open);
    AdjConcat(FlatAll(done), FlatOpen(open));
  }

  // ---- the probes refine the specification ----

  /** The reports of thread `key` among the first `n` probes, in return order. */
  function ThreadReports(cfg: Config, counters: map<nat, uint64>, run: seq<Probe>, key: uint64, n: nat): (r: seq<Leaf>)
    requires n <= |run|
    ensures forall i :: 0 <= i < |r| ==> LeafOk(r[i])
  {
    if n == 0 then []
    else
      var init := ThreadReports(cfg, counters, run, key, n - 1);
      if run[n - 1].key == key && Reports(cfg, counters, run, n - 1)
      then init + [Leaf(FiredAt(cfg, counters, run, Prev(run, n - 1, key)), FiredAt(cfg, counters, run, n - 1))]
      else init
  }

  /** The events of thread `key` in the ring. */
  function ThreadEvents(ring: seq<CudaEvent>, key: uint64): seq<Report> {
    if ring == [] then []
    else
      var e := ring[|ring| - 1];
      var init := ThreadEvents(ring[..|ring| - 1], key);
      if e.pid == PidOf(key) && e.tid == TidOf(key) then init + [ReportOf(e)] else init
  }

  lemma ThreadEventsSnoc(ring: seq<CudaEvent>, e: CudaEvent, key: uint64)
    ensures ThreadEvents(ring + [e], key) ==
            if e.pid == PidOf(key) && e.tid == TidOf(key) then ThreadEvents(ring, key) + [ReportOf(e)]
            else ThreadEvents(ring, key)
  {
    assert (ring + [e])[..|ring|] == ring;
  }

  lemma AllExpectedSnoc(ls: seq<Leaf>, l: Leaf)
    requires forall i :: 0 <= i < |ls| ==> LeafOk(ls[i])
    requires LeafOk(l)
    ensures AllExpected(ls + [l]) == AllExpected(ls) + [Expected(l)]
  {
    assert (ls + [l])[..|ls|] == ls;
  }

  /** The events of a thread say exactly what its reporting pairs of probes say. */
  lemma {:induction false} EventsAreReports(cfg: Config, counters: map<nat, uint64>, run: seq<Probe>, key: uint64,
                                            n: nat)
    requires n <= |run|
    ensures ThreadEvents(After(cfg, counters, run, n).ring, key) ==
            AllExpected(ThreadReports(cfg, counters, run, key, n))
  {
    hide After, Reports, Prev, InfoAt, Expected, ReportOf, EventOf;
    if n == 0 {
      EventsStart(cfg, counters, run, key);
    } else {
      var j := n - 1;
      EventsAreReports(cfg, counters, run, key, j);
      RingStep(cfg, counters, run, j);
      if Reports(cfg, counters, run, j) {
        ReportContent(cfg, counters, run, j);
        var e := EventOf(InfoAt(cfg, counters, run, Prev(run, j, run[j].key)), run[j]);
        ThreadEventsSnoc(After(cfg, counters, run, j).ring, e, key);
        KeyIsPidAndTid(run[j].key, key);
        if run[j].key == key {
          AllExpectedSnoc(ThreadReports(cfg, counters, run, key, j), LeafAt(cfg, counters, run, j));
        }
      }
    }
  }

  lemma EventsStart(cfg: Config, counters: map<nat, uint64>, run: seq<Probe>, key: uint64)
    ensures ThreadEvents(After(cfg, counters, run, 0).ring, key) == []
  {
  }

  /** The return at `j` and the probe of its thread before it. */
  function LeafAt(cfg: Config, counters: map<nat, uint64>, run: seq<Probe>, j: nat): Leaf
    requires j < |run| && Prev(run, j, run[j].key) >= 0
  {
    Leaf(FiredAt(cfg, counters, run, Prev(run, j, run[j].key)), FiredAt(cfg, counters, run, j))
  }

  lemma ReportContent(cfg: Config, counters: map<nat, uint64>, run: seq<Probe>, j: nat)
    requires j < |run| && Reports(cfg, counters, run, j)
    ensures var p := Prev(run, j, run[j].key);
            var e := EventOf(InfoAt(cfg, counters, run, p), run[j]);
            && p >= 0 && LeafOk(LeafAt(cfg, counters, run, j))
            && e.pid == PidOf(run[j].key) && e.tid == TidOf(run[j].key)
            && ReportOf(e) == Expected(LeafAt(cfg, counters, run, j))
  {
    var p := Prev(run, j, run[j].key);
    var enter := run[p];
    InfoFlag(cfg, After(cfg, counters, run, p).counters, enter);
    ArgsAreOwn(enter.op, enter.regs);
    FlagBits(EntryArgs(enter.op, enter.regs).flags);
    hide IsAsync, EntryArgs, Attempts, After, HasRoom, CallMade, Bytes, Object, Stream, ReturnsEarly;
  }

  lemma KeyIsPidAndTid(a: uint64, b: uint64)
    ensures a == b <==> PidOf(a) == PidOf(b) && TidOf(a) == TidOf(b)
  {
    assert a == PidOf(a) * U32_MODULUS + TidOf(a);
    assert b == PidOf(b) * U32_MODULUS + TidOf(b);
  }

  lemma AdjSnoc(s: seq<Fired>, x: Fired)
    ensures Adj(s + [x]) ==
            if s != [] && Adjacent(s[|s| - 1], x) then Adj(s) + [Leaf(s[|s| - 1], x)] else Adj(s)
  {
    assert (s + [x])[..|s|] == s;
  }

  /** A return reports exactly if it and the probe before it are an adjacent pair that found room. */
  lemma ReportIsLuckyPair(cfg: Config, counters: map<nat, uint64>, run: seq<Probe>, j: nat)
    requires j < |run|
    ensures var p := Prev(run, j, run[j].key);
            Reports(cfg, counters, run, j) <==>
            && p >= 0
            && Adjacent(FiredAt(cfg, counters, run, p), FiredAt(cfg, counters, run, j))
            && FiredAt(cfg, counters, run, p).ok && FiredAt(cfg, counters, run, j).ok
  {
    hide After, Traced, HasRoom;
  }

  /** The reports of a thread are its adjacent entry/return pairs that found room. */
  lemma {:induction false} ReportsAreLucky(cfg: Config, counters: map<nat, uint64>, run: seq<Probe>, key: uint64,
                                           n: nat)
    requires n <= |run|
    ensures ThreadReports(cfg, counters, run, key, n) == Lucky(Adj(Thread(cfg, counters, run, key, n)))
  {
    hide Prev, Recorded, Reports, Lucky, Adj, FiredAt, Adjacent;
    if n == 0 {
      NothingFired();
      assert Thread(cfg, counters, run, key, 0) == [];
    } else {
      var j := n - 1;
      ReportsAreLucky(cfg, counters, run, key, j);
      if run[j].key == key {
        var s, p := Thread(cfg, counters, run, key, j), Prev(run, j, key);
        ThreadLast(cfg, counters, run, key, j);
        AdjSnoc(s, FiredAt(cfg, counters, run, j));
        ReportIsLuckyPair(cfg, counters, run, j);
        if p >= 0 {
          LuckySnoc(Adj(s), Leaf(FiredAt(cfg, counters, run, p), FiredAt(cfg, counters, run, j)));
        }
      }
    }
  }

  lemma NothingFired()
    ensures Lucky(Adj([])) == []
  {
  }

  lemma {:induction false} LuckyOk(ls: seq<Leaf>)
    requires forall i :: 0 <= i < |ls| ==> LeafOk(ls[i])
    ensures forall i :: 0 <= i < |Lucky(ls)| ==> LeafOk(Lucky(ls)[i])
  {
    forall i | 0 <= i < |Lucky(ls)| ensures LeafOk(Lucky(ls)[i]) {
      assert Lucky(ls)[i] in ls;
    }
  }

  /** Main refinement.  Any interleaving of threads; one thread's probes are the trace of completed
      calls `done` and open calls `open`.  Its events in the ring are, in return order, exactly its
      childless calls whose own entry found room in the map and whose own return found room in the
      ring, each with its own entry time, arguments and return value.  What happens to other threads
      does not matter. */
  lemma LeafCallsReported(cfg: Config, counters: map<nat, uint64>, run: seq<Probe>, key: uint64,
                          done: seq<Call>, open: seq<OpenCall>)
    requires CallsOk(key, done) && OpensOk(key, open)
    requires Thread(cfg, counters, run, key, |run|) == FlatAll(done) + FlatOpen(open)
    ensures var leaves := LeavesAll(done) + LeavesOpen(open);
            var events := ThreadEvents(After(cfg, counters, run, |run|).ring, key);
            && (forall i :: 0 <= i < |leaves| ==> LeafOk(leaves[i]))
            && (forall i :: 0 <= i < |Lucky(leaves)| ==> LeafOk(Lucky(leaves)[i]))
            && events == AllExpected(Lucky(leaves))
            && (AllLucky(leaves) ==> events == AllExpected(leaves))
            && (|events| == |leaves| ==> AllLucky(leaves))
  {
    hide After, ThreadReports, ThreadEvents, Lucky, AllLucky, Expected;
    var leaves := LeavesAll(done) + LeavesOpen(open);
    AdjTrace(key, done, open);
    LuckyOk(leaves);
    EventsAreReports(cfg, counters, run, key, |run|);
    ReportsAreLucky(cfg, counters, run, key, |run|);
    NothingLost(leaves);
    ExpectedCount(Lucky(leaves));
  }

  lemma {:induction false} ExpectedCount(ls: seq<Leaf>)
    requires forall i :: 0 <= i < |ls| ==> LeafOk(ls[i])
    ensures |AllExpected(ls)| == |ls|
  {
    hide Expected;
    if ls != [] {
      ExpectedCount(ls[..|ls| - 1]);
    }
  }

  // ---- when a thread is lucky ----

  /** Every entry of the thread is recorded and every one of its returns finds room in the ring. */
  predicate Served(cfg: Config, counters: map<nat, uint64>, run: seq<Probe>, key: uint64) {
    forall i :: 0 <= i < |run| && run[i].key == key ==> FiredAt(cfg, counters, run, i).ok
  }

  lemma {:induction false} ServedThread(cfg: Config, counters: map<nat, uint64>, run: seq<Probe>, key: uint64, n: nat)
    requires n <= |run| && Served(cfg, counters, run, key)
    ensures forall i :: 0 <= i < |Thread(cfg, counters, run, key, n)| ==> Thread(cfg, counters, run, key, n)[i].ok
    ensures AllLucky(Adj(Thread(cfg, counters, run, key, n)))
  {
    hide FiredAt, Adj, AllLucky;
    if n == 0 {
      NoPairs();
    } else {
      ServedThread(cfg, counters, run, key, n - 1);
      if run[n - 1].key == key {
        AdjSnoc(Thread(cfg, counters, run, key, n - 1), FiredAt(cfg, counters, run, n - 1));
        var s := Thread(cfg, counters, run, key, n - 1);
        if s != [] {
          OneMoreLucky(Adj(s), Leaf(s[|s| - 1], FiredAt(cfg, counters, run, n - 1)));
        }
      }
    }
  }

  lemma NoPairs()
    ensures AllLucky(Adj([]))
  {
  }

  lemma OneMoreLucky(ls: seq<Leaf>, l: Leaf)
    requires AllLucky(ls) && l.enter.ok && l.exit.ok
    ensures AllLucky(ls + [l])
  {
  }

  /** A thread that is served has every childless call reported. */
  lemma ServedIsExact(cfg: Config, counters: map<nat, uint64>, run: seq<Probe>, key: uint64,
                      done: seq<Call>, open: seq<OpenCall>)
    requires CallsOk(key, done) && OpensOk(key, open)
    requires Thread(cfg, counters, run, key, |run|) == FlatAll(done) + FlatOpen(open)
    requires Served(cfg, counters, run, key)
    ensures AllLucky(LeavesAll(done) + LeavesOpen(open))
  {
    hide AllLucky, Served;
    AdjTrace(key, done, open);
    ServedThread(cfg, counters, run, key, |run|);
  }

  /** The threads whose entries pass the process filter. */
  function Callers(cfg: Config, run: seq<Probe>): set<uint64> {
    set p | p in run && p.Entry? && Traced(cfg, p.key) :: p.key
  }

  lemma {:induction false} CallsAreSeen(cfg: Config, counters: map<nat, uint64>, run: seq<Probe>, n: nat)
    requires n <= |run|
    ensures After(cfg, counters, run, n).calls.Keys <= Callers(cfg, run)
  {
    hide InfoOf, EventOf, Count, HasRoom, Traced;
    if n > 0 {
      CallsAreSeen(cfg, counters, run, n - 1);
      assert run[n - 1] in run;
    }
  }

  /** With no more than MAX_CALLS calling threads every traced entry is recorded, whatever the ring does. */
  lemma AlwaysStored(cfg: Config, counters: map<nat, uint64>, run: seq<Probe>, i: nat)
    requires |Callers(cfg, run)| <= MAX_CALLS
    requires i < |run| && run[i].Entry? && Traced(cfg, run[i].key)
    ensures Recorded(cfg, counters, run, i)
  {
    var calls, seen := After(cfg, counters, run, i).calls, Callers(cfg, run);
    CallsAreSeen(cfg, counters, run, i);
    assert run[i] in run && run[i].key in seen;
    if run[i].key !in calls {
      assert calls.Keys <= seen - {run[i].key};
      SubsetSize(calls.Keys, seen - {run[i].key});
    }
  }

  lemma {:induction false} SubsetSize<T>(a: set<T>, b: set<T>)
    requires a <= b
    ensures |a| <= |b|
  {
    if a != {} {
      var x :| x in a;
      SubsetSize(a - {x}, b - {x});
    }
  }

  // ---- the slot of a well-nested thread ----

  /** An entry directly followed by a return always has the return's operation. */
  predicate NoClash(s: seq<Fired>) {
    forall i :: 0 <= i < |s| - 1 && s[i].probe.Entry? && s[i + 1].probe.Return? ==> s[i].probe.op == s[i + 1].probe.op
  }

  lemma NoClashConcat(a: seq<Fired>, b: seq<Fired>)
    requires NoClash(a) && NoClash(b)
    requires a != [] && b != [] ==> !(a[|a| - 1].probe.Entry? && b[0].probe.Return?)
    ensures NoClash(a + b)
  {
    var s := a + b;
    forall i | 0 <= i < |s| - 1 && s[i].probe.Entry? && s[i + 1].probe.Return?
      ensures s[i].probe.op == s[i + 1].probe.op
    {
      if i + 1 < |a| {
        assert a[i] == s[i] && a[i + 1] == s[i + 1];
      } else if i >= |a| {
        assert b[i - |a|] == s[i] && b[i - |a| + 1] == s[i + 1];
      }
    }
  }

  lemma {:induction false} NoClashFlat(key: uint64, c: Call)
    requires CallOk(key, c)
    ensures NoClash(Flat(c))
    decreases c, 1
  {
    if c.inner == [] {
      assert Flat(c) == [c.enter, c.exit];
    } else {
      FlatShape(key, c.inner);
      NoClashFlatAll(key, c.inner);
      NoClashConcat([c.enter], FlatAll(c.inner));
      NoClashConcat([c.enter] + FlatAll(c.inner), [c.exit]);
    }
  }

  lemma {:induction false} NoClashFlatAll(key: uint64, cs: seq<Call>)
    requires CallsOk(key, cs)
    ensures NoClash(FlatAll(cs))
    decreases cs, 0
  {
    if cs != [] {
      NoClashFlat(key, cs[0]);
      NoClashFlatAll(key, cs[1..]);
      if cs[1..] != [] {
        FlatShape(key, cs[1..]);
      }
      NoClashConcat(Flat(cs[0]), FlatAll(cs[1..]));
    }
  }

  lemma {:induction false} NoClashOpen(key: uint64, os: seq<OpenCall>)
    requires OpensOk(key, os)
    ensures NoClash(FlatOpen(os))
    ensures os != [] ==> FlatOpen(os)[0].probe.Entry?
  {
    hide NoClash, FlatAll;
    if os == [] {
      NoClashShort([]);
    } else {
      NoClashShort([os[0].enter]);
      NoClashFlatAll(key, os[0].inner);
      NoClashOpen(key, os[1..]);
      if os[0].inner != [] {
        FlatShape(key, os[0].inner);
      } else {
        NoCalls(key);
      }
      NoClashConcat([os[0].enter], FlatAll(os[0].inner));
      NoClashConcat([os[0].enter] + FlatAll(os[0].inner), FlatOpen(os[1..]));
    }
  }

  lemma NoClashShort(s: seq<Fired>)
    ensures |s| < 2 ==> NoClash(s)
  {
  }

  lemma NoCalls(key: uint64)
    ensures FlatAll([]) == [] && CallsOk(key, [])
  {
  }

  lemma {:induction false} AdjacentInThread(cfg: Config, counters: map<nat, uint64>, run: seq<Probe>, key: uint64,
                                            j: nat, n: nat)
    requires j < n <= |run| && run[j].key == key && Prev(run, j, key) >= 0
    requires NoClash(Thread(cfg, counters, run, key, n))
    ensures run[Prev(run, j, key)].Entry? && run[j].Return? ==> run[Prev(run, j, key)].op == run[j].op
  {
    hide Prev, Recorded;
    var s := Thread(cfg, counters, run, key, n);
    var init := Thread(cfg, counters, run, key, n - 1);
    ThreadLast(cfg, counters, run, key, n - 1);
    if j == n - 1 {
      var i := |init| - 1;
      assert s[i].probe == run[Prev(run, j, key)] && s[i + 1].probe == run[j];
    } else {
      assert forall i :: 0 <= i < |init| ==> init[i] == s[i];
      AdjacentInThread(cfg, counters, run, key, j, n - 1);
    }
  }

  /** On a thread that makes well-nested traced calls, the branch that drops a record because the
      return has another operation is never taken. */
  lemma MismatchUnreachable(cfg: Config, counters: map<nat, uint64>, run: seq<Probe>, key: uint64,
                            done: seq<Call>, open: seq<OpenCall>, j: nat)
    requires CallsOk(key, done) && OpensOk(key, open)
    requires Thread(cfg, counters, run, key, |run|) == FlatAll(done) + FlatOpen(open)
    requires j < |run| && run[j].key == key && run[j].Return?
    ensures var calls := After(cfg, counters, run, j).calls; key in calls ==> calls[key].opType == run[j].op
  {
    hide After, Prev, Thread, NoClash;
    NoClashFlatAll(key, done);
    NoClashOpen(key, open);
    if done != [] {
      FlatShape(key, done);
    } else {
      NoCalls(key);
    }
    NoClashConcat(FlatAll(done), FlatOpen(open));
    SlotIsLastProbe(cfg, counters, run, j, key);
    if key in After(cfg, counters, run, j).calls {
      AdjacentInThread(cfg, counters, run, key, j, |run|);
    }
  }

  lemma {:induction false} LastOfOpen(key: uint64, os: seq<OpenCall>)
    requires OpensOk(key, os) && os != []
    ensures var f, o := FlatOpen(os), os[|os| - 1];
            f != [] && (if o.inner == [] then f[|f| - 1] == o.enter && o.enter.probe.Entry?
                        else f[|f| - 1].probe.Return?)
  {
    var o := os[0];
    if o.inner != [] {
      FlatShape(key, o.inner);
    }
    if |os| == 1 {
      assert FlatOpen(os[1..]) == [];
    } else {
      LastOfOpen(key, os[1..]);
    }
  }

  /** A slot is occupied exactly while its thread's innermost open call has made no inner call and its
      own entry found room, and it holds that call's record. */
  lemma SlotHoldsInnermost(cfg: Config, counters: map<nat, uint64>, run: seq<Probe>, key: uint64,
                           done: seq<Call>, open: seq<OpenCall>)
    requires CallsOk(key, done) && OpensOk(key, open)
    requires Thread(cfg, counters, run, key, |run|) == FlatAll(done) + FlatOpen(open)
    ensures var calls := After(cfg, counters, run, |run|).calls;
            && (key in calls <==> open != [] && open[|open| - 1].inner == [] && open[|open| - 1].enter.ok)
            && (key in calls ==>
                  exists i :: 0 <= i < |run| && run[i].Entry? &&
                              FiredAt(cfg, counters, run, i) == open[|open| - 1].enter
                    && calls[key] == InfoAt(cfg, counters, run, i))
  {
    var s, p := Thread(cfg, counters, run, key, |run|), Prev(run, |run|, key);
    SlotIsLastProbe(cfg, counters, run, |run|, key);
    ThreadLast(cfg, counters, run, key, |run|);
    hide Thread, After, Prev, InfoAt, FlatAll, HasRoom;
    if open != [] {
      LastOfOpen(key, open);
      assert s[|s| - 1] == FlatOpen(open)[|FlatOpen(open)| - 1];
    } else if done != [] {
      FlatShape(key, done);
    } else {
      NoCalls(key);
    }
  }

  // ---- every well-nested trace is the trace of some call trees ----

  /** The stack of open calls after a sequence of probes; None when a return does not match. */
  function Stack(s: seq<Fired>): Option<seq<Fired>> {
    if s == [] then Some([])
    else
      var st :- Stack(s[..|s| - 1]);
      var p := s[|s| - 1];
      if p.probe.Entry? then Some(st + [p])
      else if st != [] && st[|st| - 1].probe.op == p.probe.op then Some(st[..|st| - 1])
      else None
  }

  lemma {:induction false} FlatAllSnoc(key: uint64, cs: seq<Call>, c: Call)
    requires CallsOk(key, cs) && CallOk(key, c)
    ensures CallsOk(key, cs + [c]) && FlatAll(cs + [c]) == FlatAll(cs) + Flat(c)
  {
    if cs == [] {
      assert cs + [c] == [c] && [c][1..] == [];
    } else {
      FlatAllSnoc(key, cs[1..], c);
      assert (cs + [c])[1..] == cs[1..] + [c];
    }
  }

  lemma {:induction false} FlatOpenSnoc(key: uint64, os: seq<OpenCall>, o: OpenCall)
    requires OpensOk(key, os) && IsEntry(o.enter, key) && CallsOk(key, o.inner)
    ensures OpensOk(key, os + [o]) && FlatOpen(os + [o]) == FlatOpen(os) + [o.enter] + FlatAll(o.inner)
  {
    if os == [] {
      assert os + [o] == [o] && [o][1..] == [];
    } else {
      FlatOpenSnoc(key, os[1..], o);
      assert (os + [o])[1..] == os[1..] + [o];
    }
  }

  lemma {:induction false} OpensInit(key: uint64, os: seq<OpenCall>)
    requires OpensOk(key, os) && os != []
    ensures var o := os[|os| - 1]; OpensOk(key, os[..|os| - 1]) && IsEntry(o.enter, key) && CallsOk(key, o.inner)
  {
    if |os| > 1 {
      OpensInit(key, os[1..]);
      assert os[..|os| - 1][1..] == os[1..][..|os| - 2];
    }
  }

  /** A call at the top of the stack returns: it becomes an inner call of the one below. */
  lemma CloseTop(key: uint64, done: seq<Call>, open: seq<OpenCall>, exit: Fired)
    returns (done': seq<Call>, open': seq<OpenCall>)
    requires CallsOk(key, done) && OpensOk(key, open) && open != []
    requires IsExit(exit, key, open[|open| - 1].enter.probe.op)
    ensures CallsOk(key, done') && OpensOk(key, open')
    ensures FlatAll(done') + FlatOpen(open') == FlatAll(done) + FlatOpen(open) + [exit]
    ensures |open'| == |open| - 1 && forall i :: 0 <= i < |open'| ==> open'[i].enter == open[i].enter
  {
    hide *;
    var o, below := open[|open| - 1], open[..|open| - 1];
    OpensInit(key, open);
    SplitLast(open);
    if below == [] {
      done', open' := done + [Call(o.enter, exit, o.inner)], [];
      CloseOutermost(key, done, o, exit);
    } else {
      var u, lower := below[|below| - 1], below[..|below| - 1];
      OpensInit(key, below);
      SplitLast(below);
      var inner := u.inner + [Call(o.enter, exit, o.inner)];
      done', open' := done, lower + [OpenCall(u.enter, inner)];
      CloseInner(key, lower, u, o, exit);
      SameEnters(open, below, lower, u, inner);
      Associate(FlatAll(done), FlatOpen(open), [exit]);
    }
  }

  lemma SplitLast<T>(s: seq<T>)
    requires s != []
    ensures s == s[..|s| - 1] + [s[|s| - 1]]
  {
  }

  lemma Associate(a: seq<Fired>, b: seq<Fired>, c: seq<Fired>)
    ensures a + (b + c) == a + b + c
  {
  }

  lemma SameEnters(open: seq<OpenCall>, below: seq<OpenCall>, lower: seq<OpenCall>, u: OpenCall, inner: seq<Call>)
    requires open != [] && below == open[..|open| - 1] == lower + [u]
    ensures var open' := lower + [OpenCall(u.enter, inner)];
            |open'| == |open| - 1 && forall i :: 0 <= i < |open'| ==> open'[i].enter == open[i].enter
  {
    assert forall i :: 0 <= i < |below| ==> open[i] == below[i];
  }

  lemma CloseOutermost(key: uint64, done: seq<Call>, o: OpenCall, exit: Fired)
    requires CallsOk(key, done) && IsEntry(o.enter, key) && CallsOk(key, o.inner)
    requires IsExit(exit, key, o.enter.probe.op)
    ensures var done' := done + [Call(o.enter, exit, o.inner)];
            CallsOk(key, done') && FlatAll(done') + FlatOpen([]) == FlatAll(done) + FlatOpen([] + [o]) + [exit]
    ensures OpensOk(key, [])
  {
    NothingOpen(key);
    ClosedCall(key, o, exit);
    hide *;
    FlatAllSnoc(key, done, Call(o.enter, exit, o.inner));
    FlatOpenSnoc(key, [], o);
    var body := [o.enter] + FlatAll(o.inner);
    assert [] + [o.enter] + FlatAll(o.inner) == body;
    assert FlatAll(done) + (body + [exit]) == FlatAll(done) + body + [exit];
  }

  lemma CloseInner(key: uint64, lower: seq<OpenCall>, u: OpenCall, o: OpenCall, exit: Fired)
    requires OpensOk(key, lower) && OpensOk(key, lower + [u])
    requires IsEntry(u.enter, key) && CallsOk(key, u.inner) && IsEntry(o.enter, key) && CallsOk(key, o.inner)
    requires IsExit(exit, key, o.enter.probe.op)
    ensures var open' := lower + [OpenCall(u.enter, u.inner + [Call(o.enter, exit, o.inner)])];
            OpensOk(key, open') && FlatOpen(open') == FlatOpen(lower + [u] + [o]) + [exit]
  {
    hide FlatAll, FlatOpen, CallsOk, OpensOk, IsEntry;
    var c := Call(o.enter, exit, o.inner);
    ClosedCall(key, o, exit);
    FlatAllSnoc(key, u.inner, c);
    FlatOpenSnoc(key, lower, u);
    FlatOpenSnoc(key, lower + [u], o);
    FlatOpenSnoc(key, lower, OpenCall(u.enter, u.inner + [c]));
    Reassociate(FlatOpen(lower), [u.enter], FlatAll(u.inner), [o.enter], FlatAll(o.inner), [exit]);
  }

  lemma ClosedCall(key: uint64, o: OpenCall, exit: Fired)
    requires IsEntry(o.enter, key) && CallsOk(key, o.inner)
    requires IsExit(exit, key, o.enter.probe.op)
    ensures var c := Call(o.enter, exit, o.inner); CallOk(key, c) && Flat(c) == [o.enter] + FlatAll(o.inner) + [exit]
  {
  }

  lemma NothingOpen(key: uint64)
    ensures OpensOk(key, []) && FlatOpen([]) == []
  {
  }

  lemma Reassociate(l: seq<Fired>, u: seq<Fired>, i: seq<Fired>, o: seq<Fired>, b: seq<Fired>, e: seq<Fired>)
    ensures l + u + (i + (o + b + e)) == l + u + i + o + b + e
  {
  }

  /** Stack discipline is all that well-nestedness needs. */
  lemma {:induction false} NestedHasTrees(key: uint64, s: seq<Fired>) returns (done: seq<Call>, open: seq<OpenCall>)
    requires forall i :: 0 <= i < |s| ==> s[i].probe.key == key
    requires Stack(s).Some?
    ensures CallsOk(key, done) && OpensOk(key, open) && s == FlatAll(done) + FlatOpen(open)
    ensures |open| == |Stack(s).value| && forall i :: 0 <= i < |open| ==> open[i].enter == Stack(s).value[i]
  {
    if s == [] {
      done, open := [], [];
    } else {
      var init, p := s[..|s| - 1], s[|s| - 1];
      hide FlatAll, FlatOpen, CallsOk, OpensOk;
      var d, o := NestedHasTrees(key, init);
      assert init + [p] == s;
      if p.probe.Entry? {
        NoCalls(key);
        FlatOpenSnoc(key, o, OpenCall(p, []));
        done, open := d, o + [OpenCall(p, [])];
        Associate(FlatAll(d), FlatOpen(o), [p]);
        assert FlatOpen(o) + [p] + [] == FlatOpen(o) + [p];
      } else {
        done, open := CloseTop(key, d, o, p);
      }
    }
  }
}
