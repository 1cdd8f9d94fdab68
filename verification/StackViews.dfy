// What a reader sees of a printed stack, in terms of the kernel's stack entry and the symbolizer's
// answer: which addresses survive, and which frame stands where.
module StackViews {

  import opened Types
  import opened Escaping
  import opened JsonText
  import opened Symbolize
  import opened StackJson
  import opened StackReader

  // ---- which frame stands where ----

  /** One frame for the function that contains the address, one for each function inlined there. */
  function FrameCount(res: Symbolized): nat {
    if res.Sym? then 1 + |res.inlinedFns| else 1
  }

  /** The number of frames of the first `i` results. */
  function StartOf(results: seq<Symbolized>, i: nat): nat
    requires i <= |results|
  {
    if i == 0 then 0 else StartOf(results, i - 1) + FrameCount(results[i - 1])
  }

  /** What a reader sees of the function that contains an address. */
  function OuterView(res: Symbolized): FrameView {
    match res
    case Sym(name, code, lib, _) =>
      FrameView(SeenName(name), SeenFile(code), SeenLine(code), if lib.Some? then Seen(Basename(lib.value)) else "",
                false)
    case Unknown => FrameView("??", "", 0, "", false)
  }

  /** What a reader sees of an inlined function. */
  function InnerView(fn: InlinedFn): FrameView {
    FrameView(SeenName(fn.name), SeenFile(fn.code), SeenLine(fn.code), "", true)
  }

  /** The frames of one result: the containing function first, then the inlined ones in the order of the
      answer. */
  predicate ShowsResult(block: seq<BswFrame>, addr: uint64, res: Symbolized) {
    && |block| == FrameCount(res)
    && (forall k :: 0 <= k < |block| ==> block[k].addr == addr)
    && ViewOf(block[0]) == OuterView(res)
    && (res.Sym? ==> forall j :: 0 <= j < |res.inlinedFns| ==> ViewOf(block[1 + j]) == InnerView(res.inlinedFns[j]))
  }

  lemma {:induction false} ExpandShows(addr: uint64, res: Symbolized)
    ensures ShowsResult(Expand(addr, res), addr, res)
  {
    hide ViewOf, FillFrame, InlinedFrame, UnknownFrame, SeenName, SeenFile, SeenLine, Seen, Basename;
    var block := Expand(addr, res);
    ExpandTags(addr, res);
    match res {
      case Sym(_, _, _, fns) =>
        SymbolView(addr, res);
        forall j | 0 <= j < |fns| ensures ViewOf(block[1 + j]) == InnerView(fns[j]) {
          InlinedView(addr, fns[j]);
        }
      case Unknown => InlinedView(addr, InlinedFn("", None));
    }
  }

  lemma {:induction false} FlattenLong(addrs: seq<uint64>, results: seq<Symbolized>, n: nat)
    requires n <= |addrs| && n <= |results|
    ensures |Flatten(addrs, results, n)| == StartOf(results, n)
  {
    hide Expand;
    if n > 0 {
      FlattenLong(addrs, results, n - 1);
    }
  }

  /** Each address has its frames in one block, which starts behind the frames of all addresses before it. */
  lemma {:induction false} FramesOfAddress(addrs: seq<uint64>, results: seq<Symbolized>, n: nat, i: nat)
    requires i < n <= |addrs| && n <= |results|
    ensures var all, start, end := Flatten(addrs, results, n), StartOf(results, i), StartOf(results, i + 1);
            && |all| == StartOf(results, n) && start < end <= |all|
            && ShowsResult(all[start..end], addrs[i], results[i])
  {
    hide Flatten, ShowsResult, Expand;
    FlattenLong(addrs, results, n);
    FlattenLong(addrs, results, i);
    BlockOfAddress(addrs, results, n, i);
    ExpandShows(addrs[i], results[i]);
  }

  // ---- which addresses survive ----

  /** The innermost addresses of a stack entry: its first ones, up to its first zero, its depth or the
      limit of the command line; none if there is no entry. */
  predicate Innermost(host: Host, stackId: int, addrs: seq<uint64>) {
    if stackId < 0 || host.mapFd < 0 || host.lookup(stackId).None? then addrs == []
    else
      var stack := host.lookup(stackId).value;
      && |addrs| <= |stack| && |addrs| <= PERF_MAX_STACK_DEPTH && |addrs| <= host.maxFrames
      && (forall k :: 0 <= k < |addrs| ==> addrs[k] == stack[k] != 0)
      && (|addrs| < |stack| && |addrs| < PERF_MAX_STACK_DEPTH && |addrs| < host.maxFrames ==> stack[|addrs|] == 0)
  }

  /** There is one such list. */
  lemma InnermostIsUnique(host: Host, stackId: int, a: seq<uint64>, b: seq<uint64>)
    requires Innermost(host, stackId, a) && Innermost(host, stackId, b)
    ensures a == b
  {
    assert forall k :: 0 <= k < |b| ==> b[k] != 0;
    assert forall k :: 0 <= k < |a| ==> a[k] != 0;
    assert |a| == |b|;
  }

  lemma {:induction false} ShownAreInnermost(host: Host, stackId: int)
    ensures Innermost(host, stackId, ShownAddrs(host, stackId))
  {
    hide UntilZero;
  }

  // ---- what is read ----

  /** The frames read are the first ones of the answer, as many as fit four for each address asked. */
  predicate ShowsAnswer(views: seq<FrameView>, addrs: seq<uint64>, results: seq<Symbolized>) {
    var n := Min(|addrs|, |results|);
    && |views| == Min(StartOf(results, n), 4 * |addrs|)
    && forall i :: 0 <= i < n ==> ShowsFrom(views, StartOf(results, i), results[i])
  }

  /** From `start` on, as far as there are views, stand those of one result. */
  predicate ShowsFrom(views: seq<FrameView>, start: nat, res: Symbolized) {
    && (start < |views| ==> views[start] == OuterView(res))
    && (res.Sym? ==> forall j :: 0 <= j < |res.inlinedFns| && start + 1 + j < |views| ==>
          views[start + 1 + j] == InnerView(res.inlinedFns[j]))
  }

  /** What a printed stack says: the innermost addresses, or what the symbolizer answered when it was asked
      about exactly these for this process. */
  predicate ShowsStack(host: Host, pid: uint32, addrs: seq<uint64>, text: string) {
    if !(host.symbolizeEnabled && host.symbolizerOk) then ReadStack(text, ReadAddr) == Some(addrs)
    else
      var views := ReadStack(text, ReadFrame);
      && views.Some?
      && if !host.calloc(4 * |addrs|) || host.symbolize(pid, addrs).None? then views.value == []
         else ShowsAnswer(views.value, addrs, host.symbolize(pid, addrs).value)
  }

  lemma {:induction false} ViewsShow(frames: seq<BswFrame>, shown: seq<BswFrame>, start: nat, end: nat, addr: uint64,
                                     res: Symbolized)
    requires shown <= frames && start < end <= |frames| && ShowsResult(frames[start..end], addr, res)
    ensures ShowsFrom(Views(shown), start, res)
  {
    hide ViewOf, OuterView, InnerView;
    var block := frames[start..end];
    assert block[0] == frames[start];
    if res.Sym? {
      forall j | 0 <= j < |res.inlinedFns| && start + 1 + j < |shown|
        ensures Views(shown)[start + 1 + j] == InnerView(res.inlinedFns[j])
      {
        assert block[1 + j] == frames[start + 1 + j];
      }
    }
  }

  lemma {:induction false} AnswerShown(addrs: seq<uint64>, results: seq<Symbolized>)
    ensures var all := Flatten(addrs, results, Min(|addrs|, |results|));
            ShowsAnswer(Views(all[..Min(|all|, 4 * |addrs|)]), addrs, results)
  {
    hide Flatten, ViewOf, ShowsFrom, ShowsResult;
    var n := Min(|addrs|, |results|);
    var all := Flatten(addrs, results, n);
    var shown := all[..Min(|all|, 4 * |addrs|)];
    FlattenLong(addrs, results, n);
    forall i | 0 <= i < n ensures ShowsFrom(Views(shown), StartOf(results, i), results[i]) {
      FramesOfAddress(addrs, results, n, i);
      ViewsShow(all, shown, StartOf(results, i), StartOf(results, i + 1), addrs[i], results[i]);
    }
  }

  /** The text printed for a stack, read back, shows the innermost addresses, or the frames that the
      symbolizer gives for them. */
  lemma {:induction false} StackShown(host: Host, stackId: int, pid: uint32) returns (addrs: seq<uint64>)
    ensures Innermost(host, stackId, addrs)
    ensures ShowsStack(host, pid, addrs, Render(StackTree(host, stackId, pid), Tight))
  {
    hide *;
    addrs := ShownAddrs(host, stackId);
    ShownAreInnermost(host, stackId);
    StackRoundTrip(host, stackId, pid);
    if host.symbolizeEnabled && host.symbolizerOk {
      FramesShown(host, stackId, pid);
    }
    StackShownMeans(host, stackId, pid, addrs, Render(StackTree(host, stackId, pid), Tight));
  }

  lemma StackShownMeans(host: Host, stackId: int, pid: uint32, addrs: seq<uint64>, text: string)
    requires addrs == ShownAddrs(host, stackId)
    requires if host.symbolizeEnabled && host.symbolizerOk then
               && ReadStack(text, ReadFrame) == Some(Views(ShownFrames(host, stackId, pid)))
               && FramesAnswer(host, pid, addrs, Views(ShownFrames(host, stackId, pid)))
             else ReadStack(text, ReadAddr) == Some(ShownAddrs(host, stackId))
    ensures ShowsStack(host, pid, addrs, text)
  {
    hide ReadStack, ShownAddrs, ShownFrames, Views, ShowsAnswer;
  }

  predicate FramesAnswer(host: Host, pid: uint32, addrs: seq<uint64>, views: seq<FrameView>) {
    if !host.calloc(4 * |addrs|) || host.symbolize(pid, addrs).None? then views == []
    else ShowsAnswer(views, addrs, host.symbolize(pid, addrs).value)
  }

  lemma {:induction false} FramesShown(host: Host, stackId: int, pid: uint32)
    ensures FramesAnswer(host, pid, ShownAddrs(host, stackId), Views(ShownFrames(host, stackId, pid)))
  {
    hide ShownAddrs, Flatten, ViewOf, ShowsAnswer;
    var addrs := ShownAddrs(host, stackId);
    if host.calloc(4 * |addrs|) && host.symbolize(pid, addrs).Some? {
      AnswerShown(addrs, host.symbolize(pid, addrs).value);
    }
  }
}
