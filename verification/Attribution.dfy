// From a CUDA entry probe to the printed record: a stack is printed exactly for sampled calls.
module Attribution {

  import opened Types
  import opened JsonText
  import opened StackJson
  import opened CudaTracer
  import opened CudaRuns
  import opened Sampling
  import opened Collector
  import opened ChromeTrace

  predicate HasKey(ms: seq<Member>, key: string) {
    exists m :: m in ms && m.key == key
  }

  /** The members of a record's "args". */
  function Args(host: Host, r: Record): seq<Member>
    requires !r.Wakeup?
  {
    ArgMembers(r) + StackMember(host, StackOf(r))
  }

  lemma KeysDiffer()
    ensures "stack" !in {"ret", "comm", "stream_id", "async", "size_bytes", "size", "ptr"}
  {
    assert "stack"[1] == 't' && "stream_id"[2] == 'r' && "size_bytes"[1] == 'i' && "size"[1] == 'i';
  }

  lemma WithKey(ms: seq<Member>, present: bool, key: string, v: Json)
    requires !HasKey(ms, "stack") && key != "stack"
    ensures !HasKey(With(ms, present, key, v), "stack")
  {
  }

  lemma NoStackInGpuArgs(g: CudaEvent)
    ensures !HasKey(GpuArgs(g), "stack")
  {
    hide HasKey, With, Hex, SizeText, Int, Signed;
    KeysDiffer();
    var m0 := [Member("ret", Signed(g.retVal)), Member("comm", Str(g.comm))];
    TwoKeys(Signed(g.retVal), Str(g.comm));
    var m1 := With(m0, g.streamId != 0, "stream_id", Str("0x" + Hex(g.streamId)));
    WithKey(m0, g.streamId != 0, "stream_id", Str("0x" + Hex(g.streamId)));
    var m2 := With(m1, g.flags & FLAG_ASYNC != 0, "async", Word("true"));
    WithKey(m1, g.flags & FLAG_ASYNC != 0, "async", Word("true"));
    var m3 := With(m2, HasSize(g.opType), "size_bytes", Int(g.size));
    WithKey(m2, HasSize(g.opType), "size_bytes", Int(g.size));
    var m4 := With(m3, HasSize(g.opType), "size", Str(SizeText(g.size)));
    WithKey(m3, HasSize(g.opType), "size", Str(SizeText(g.size)));
    WithKey(m4, g.opType == 2 && g.ptr != 0, "ptr", Str("0x" + Hex(g.ptr)));
  }

  lemma TwoKeys(a: Json, b: Json)
    ensures !HasKey([Member("ret", a), Member("comm", b)], "stack")
  {
    KeysDiffer();
  }

  lemma StackKeyIff(host: Host, r: Record)
    requires r.Complete?
    ensures HasKey(Args(host, r), "stack") <==> r.stack.Some?
  {
    hide GpuArgs, StackTree;
    NoStackInGpuArgs(r.gpu);
    if r.stack.Some? {
      var m := Member("stack", StackTree(host, r.stack.value.stackId, r.stack.value.pid));
      assert m in Args(host, r);
    }
  }

  /** The stack of an in-flight record is the one its entry probe was given, if it asked for one. */
  lemma InfoStack(cfg: Config, counters: map<nat, uint64>, run: seq<Probe>, i: nat)
    requires i < |run| && run[i].Entry? && Traced(cfg, run[i].key)
    ensures var info := InfoAt(cfg, counters, run, i);
            && (info.flags & FLAG_STACK_SAMPLED != 0 <==> info.stackId >= 0)
            && (info.stackId >= 0 <==> AttemptAt(cfg, counters, run, i) && run[i].sid >= 0)
            && (info.stackId >= 0 ==> info.stackId == run[i].sid)
            && info.pid == PidOf(run[i].key)
  {
    InfoFlag(cfg, After(cfg, counters, run, i).counters, run[i]);
    hide EntryArgs, After, Attempts;
  }

  /** Every event that the tracer submits, wherever the sort puts it, becomes one complete record.
      The record has a stack exactly if the sampled flag was set at entry, which is so exactly if the
      entry probe that the event comes from asked for a stack and got one; then it is that stack,
      symbolized for the process that made the call. */
  lemma StackIffSampled(cfg: Config, counters: map<nat, uint64>, run: seq<Probe>, k: nat,
                        order: seq<UnifiedEvent>, i: nat, base: uint64, host: Host)
    requires k < |After(cfg, counters, run, |run|).ring| && i < |order|
    requires var g := After(cfg, counters, run, |run|).ring[k]; order[i] == Gpu(g.timestamp, g)
    ensures var g, pairs, body := After(cfg, counters, run, |run|).ring[k], Pairs(cfg, counters, run, |run|),
                BodyAt(order, i, base);
            && |body| == 1 && body[0].Complete? && body[0].gpu == g
            && k < |pairs| && IsReport(cfg, counters, run, pairs[k])
            && var enter := pairs[k].enter;
            && run[enter].Entry?
            && (HasKey(Args(host, body[0]), "stack") <==> g.flags & FLAG_STACK_SAMPLED != 0)
            && (g.flags & FLAG_STACK_SAMPLED != 0 <==> AttemptAt(cfg, counters, run, enter) && run[enter].sid >= 0)
            && (g.flags & FLAG_STACK_SAMPLED != 0 ==>
                  StackOf(body[0]) == Some(StackRef(run[enter].sid, PidOf(run[enter].key))))
  {
    RingIsReports(cfg, counters, run, |run|);
    var pair := Pairs(cfg, counters, run, |run|)[k];
    assert IsReport(cfg, counters, run, pair) && run[pair.enter].Entry?;
    InfoStack(cfg, counters, run, pair.enter);
    var body := BodyAt(order, i, base);
    hide After, HasKey, Args, AttemptAt, InfoAt, Pairs, IsReport;
    StackKeyIff(host, body[0]);
  }
}
