# Unified CPU/GPU tracer: a verified model

The tracer is a pipeline with three stages that keep state. Kernel probes on the CUDA runtime and on
the scheduler produce records into two ring buffers; a collector stores both kinds in one bounded
array and sorts it; an emitter turns the sorted events into a Chrome-trace JSON file, with sampled
stacks symbolized through a Rust wrapper. This project models the four core files
(`src/bpf/trace_cuda.bpf.c`, `src/bpf/trace_cpu_sched.bpf.c`, `src/user/unified_trace.c`,
`src/symbolize/blazesym_wrap.rs`) and proves what survives from one stage to the next.

| module | what it holds |
|---|---|
| `Types` | u32/u64 arithmetic, the event structures |
| `CudaApi` | the fourteen runtime calls, their arguments and the registers that carry them |
| `CudaTracer`, `CudaRuns`, `CallTrees`, `Sampling` | the CUDA probes over their three maps; whole runs of them; the refinement to call trees; the sampling law |
| `SchedProbes` | the scheduler handlers, a machine with several CPUs, the intervals a thread really runs |
| `Collector`, `Sorting` | the bounded event array, the ring callbacks; what any sort does to a selection of events |
| `ChromeTrace`, `TraceProofs` | the printed records, stated without running state, and their properties |
| `Emitter` | the emit loop with `cpu_on_time`, `output_count` and `thread_name_written`, and the formats of the records |
| `Pipeline`, `Overlap`, `Ties`, `Drops` | scheduler to trace: exactness; overlapping intervals; equal timestamps; dropped records |
| `GpuTimeline`, `SliceTies`, `SliceProofs`, `Attribution` | CUDA records to printed slices; calls to slices for every outcome of the sort; stacks |
| `Escaping`, `JsonText` | the bounded escaper; JSON trees with the file's exact layout and an independent RFC 8259 reader |
| `DocumentProofs`, `Misreading`, `NameProofs` | when the file parses, what is read of a file that does not, when the names read are the threads' names |
| `Symbolize`, `StackJson`, `StackReader`, `StackViews` | frame expansion, the stack printer, the reader that undoes it; which addresses survive and which frame stands where |
| `StreamRows` | the row of a GPU event |
| `TraceReader`, `TraceFile` | a reader that looks up every field of the file by key; the main results on what it finds |

Code that changes state is imperative: the maps, the event array, the frame array, the escape
buffers and the output file are updated in place, and every such method is proved against a
function that has no running state. The theorems are about those functions. A run of the CUDA
probes is any interleaving of entry and return probes of any threads, in which probes may be missing,
the map may refuse an entry and the ring may refuse an event. A run of the scheduler is any sequence
of switches and wakeups that a machine with several CPUs allows. The sort is any sorted permutation.

The main results end at the reader of the file. The reader knows JSON and the names of the fields, but
nothing of the emitter: it looks up each field by key and turns microseconds, hexadecimal numbers and
sizes back into numbers. It finds the records' own values, with names as the text between the quotes,
if and only if every printed name is a legal string body (`TraceReader.TraceReadIff`). On what it finds,
a thread's begin and end elements are its real on-CPU intervals (`TraceFile.ScheduleRead`), its wakeups
are those of the run (`TraceFile.WakeupsRead`), and each CUDA call has its slice, with the arguments the
runtime was called with (`TraceFile.CallsRead`).

Points where a natural claim is false of the code, each with an input and the exact condition:

- "Everything begun and finished gets its end" fails for `ON ON OFF OFF`, which a machine with two
  idle CPUs produces (`Overlap.OverlapLosesAnEnd`). For every event sequence it holds if and only if
  each such OFF directly follows an ON at a nonzero time on a thread id below 10,000,000
  (`Overlap.EveryEndPrintedIff`). "Every end has its own begin" always holds
  (`TraceProofs.EndsArePaired`).
- For a non-idle thread with strictly increasing timestamps the trace is exact if and only if every
  finished interval started at a nonzero time and the id is below the limit (`Pipeline.ExactIff`).
- Equal timestamps let the sort lose an end (`Ties.TieLosesAnEnd`). The trace is exact for every
  outcome of the sort if and only if that condition holds and no two switches of the thread tie. One
  tie is an exception, because it changes nothing: the thread's whole record is going off and on again
  in one clock reading, which is 0 or belongs to an id beyond the limit (`Ties.AlwaysExactIff`,
  `Ties.TieCanBeHarmless`).
- README.md of the repository promises a stack on 1 in N async calls (line 93). The counter is shared
  by both classes. For every mix, a class has its one attempt in N at every moment if and only if, at
  each of its calls, the count of all calls is a multiple of N whenever the count of its own calls is,
  and only then (`Sampling.OneInNIff`). Whatever else is called, that holds if and only if N is 1: for
  any greater N one call of the other class in front breaks it (`Sampling.AlwaysOneInNIff`). It can
  fail altogether: where every m-th call is asynchronous, some asynchronous call is sampled if and only
  if m and N are coprime (`Sampling.SampledIffCoprime`). An agent that alternates the two classes is the
  case m = 2 (`Sampling.AsyncNeverSampled`, `Sampling.SampledIffOddPeriod`).
- README.md of the repository says `--max-stack-frames N` truncates stacks to N frames (line 94). It
  bounds addresses. A printed stack of n addresses has at most N entries if and only if it holds raw
  addresses, because symbols are off or have no symbolizer, or the frame array could not be allocated,
  or the expansion has at most N frames, or 4n <= N (`StackReader.FrameLimitIff`). Where frames are
  printed that is so for every answer of the symbolizer if and only if 4n <= N
  (`StackReader.LimitHoldsForEveryAnswer`).
- Calls entered at one clock reading may be printed in either order (`SliceTies.TieSwapsCalls`). A
  well-nested thread's slices are its calls in return order for every outcome of the sort if and only
  if calls entered at one clock reading have the same slice (`SliceTies.AlwaysPrintedIff`). In some
  order they are its calls in any case (`SliceTies.LeafCallsPrinted`).
- The comment above `json_escape` says it truncates to `dst_len - 1` bytes; the code stops at
  `dst_len - 2` (`Escaping.LosslessIffFits`), and the terminator is written behind the text.
- A comment says that each unique stream gets its own row and that the default row stays clean
  (src/user/unified_trace.c, lines 377 to 394). Rows are a hash. Two streams of one thread share a row
  if and only if both are the default stream, or neither is and their hashes are equal or both at most 1
  (`StreamRows.SameRowIff`); among 256 consecutive ids that exclude 0 and agree in their upper 32 bits
  exactly one pair does (`StreamRows.OneCollision`). Streams of two threads share a row if and only if
  thread id plus offset agree modulo 2^32 (`StreamRows.RowsMeetIff`). Stream 1 of a thread is drawn on
  the default row of the thread with the next id (`StreamRows.NeighbourRow`), and some stream of thread
  t is drawn on the default row of thread u if and only if u is 1 to 255 above t
  (`StreamRows.DefaultRowTaken`). The slices found on a thread's rows are its own if and only if no other
  thread of its process has CUDA events there (`TraceFile.BandIsThreadIff`).
- Thread names are printed without escaping. The file parses to the tree of the printed records, taken
  as raw text, if and only if every printed name is a legal string body
  (`DocumentProofs.FileParsesIff`). The names a reader decodes are the threads' names if and only if
  no printed name contains a quote, a backslash or a control byte (`NameProofs.NamesReadIffPlain`);
  `a"b` fails the first (`NameProofs.QuoteBreaksFile`), and `a\nb`, with a backslash, only the second
  (`NameProofs.BackslashChangesName`).

## Model

| member | source | states |
|---|---|---|
| CudaTracer.Maps.constructor | src/bpf/trace_cuda.bpf.c:31-54 | loaded maps are empty, with a zero counter per CPU |
| CudaTracer.Maps.MaybeCaptureStack | src/bpf/trace_cuda.bpf.c:84-106 | returns the kernel's stack id when capture is on and the old count is a multiple of the class period, else -1; the counter advances by one, wrapping, whenever capture is on |
| CudaTracer.Maps.RecordEntry | src/bpf/trace_cuda.bpf.c:111-137 | the new state of all three maps is Step of the old one; a call outside the target process is rejected and changes nothing; any other leaves a record with its time, operation, process and own arguments if there is room |
| CudaApi.CallMadeIff | src/bpf/trace_cuda.bpf.c:187-354 | operation number and argument registers identify one runtime call with its arguments |
| CudaTracer.ArgsAreOwn | src/bpf/trace_cuda.bpf.c:187-354 | every entry probe records the call's own size or count, object and stream, and marks it asynchronous iff the call returns early |
| CudaTracer.Maps.SubmitEvent | src/bpf/trace_cuda.bpf.c:142-181 | the same for the return path: missing slot, operation mismatch, ring full and submission |
| CudaRuns.SlotIsLastProbe | src/bpf/trace_cuda.bpf.c:135-179 | in every reachable state a slot is occupied exactly when the thread's last probe was a stored entry, and it holds that entry's record |
| CudaRuns.RingIsReports | src/bpf/trace_cuda.bpf.c:144-179 | the ring is, event for event, made from the reporting entry/return pairs |
| CudaRuns.PairsInOrder | src/bpf/trace_cuda.bpf.c:142-181 | those pairs are genuine and appear in return order |
| CudaRuns.PairsComplete | src/bpf/trace_cuda.bpf.c:142-181 | no return that must be reported is missing |
| CudaRuns.ReportsAreDisjoint | src/bpf/trace_cuda.bpf.c:135-180 | no entry is consumed twice; two pairs of one thread are disjoint stretches of its probes |
| CudaRuns.EveryEventMatches | src/bpf/trace_cuda.bpf.c:135-180 | every event, the last included, spans exactly from its own entry to its own return, on the thread and for the operation of both |
| CudaRuns.DisjointSpans | src/bpf/trace_cuda.bpf.c:135-180 | whatever is missed or dropped, two events of one thread have non-overlapping time spans and use different entries, and both match their own probes |
| CudaRuns.Conservation | src/bpf/trace_cuda.bpf.c:37-42 | entries stored = submitted + ring full + mismatched + overwritten + still occupied; never more than 10240 slots are occupied |
| CudaRuns.FilterAndFlag | src/bpf/trace_cuda.bpf.c:115-135 | every slot and event belongs to the target process if there is one, and has the sampled flag iff its stack id is not negative |
| CudaRuns.InfoFlag | src/bpf/trace_cuda.bpf.c:121-133 | the record made by an entry probe: process, sampled flag, and async exactly for the four asynchronous operations |
| CallTrees.LeafCallsReported | src/bpf/trace_cuda.bpf.c:111-181 | for any interleaving, a well-nested thread's events are, in return order, exactly its childless calls whose own entry was recorded and whose own return found room in the ring, with their own entry time, arguments, flags and return value; all of them iff every one was that lucky; nothing is assumed of other threads |
| CallTrees.ServedIsExact | src/bpf/trace_cuda.bpf.c:111-181 | a thread whose own entries are recorded and whose own returns find room loses no childless call |
| CallTrees.ReportsAreLucky | src/bpf/trace_cuda.bpf.c:135-161 | a thread's reports are its adjacent entry/return pairs of one operation that found room in the map and in the ring |
| CallTrees.NothingLost | src/bpf/trace_cuda.bpf.c:135-161 | the reported calls are all calls iff each found room |
| CallTrees.SlotHoldsInnermost | src/bpf/trace_cuda.bpf.c:111-181 | a slot is occupied iff its thread's innermost open call has made no inner call and its own entry was recorded, and it holds that call's record |
| CallTrees.MismatchUnreachable | src/bpf/trace_cuda.bpf.c:149-155 | on a well-nested thread the operation-mismatch branch is never taken |
| CallTrees.NestedHasTrees | src/bpf/trace_cuda.bpf.c:111-181 | every probe sequence with stack discipline is the trace of some call trees, so the refinement covers all of them |
| CallTrees.AlwaysStored | src/bpf/trace_cuda.bpf.c:37-42 | with at most 10240 calling threads every traced entry is recorded, whatever the ring does |
| Sampling.CounterCountsCalls | src/bpf/trace_cuda.bpf.c:84-106 | the counter of a CPU is the number of unfiltered calls made on it; filtered calls leave it unchanged |
| Sampling.AttemptLaw | src/bpf/trace_cuda.bpf.c:94-101 | a call asks for a stack iff the number of earlier calls on its CPU, of both classes, is a multiple of sample_period_async for operations 6, 10, 13 and 14, of sample_period_sync for all others, with 0 read as 1 |
| Sampling.AttemptBound | src/bpf/trace_cuda.bpf.c:94-101 | n calls of one class make exactly ceil(n/p) attempts; in any mix at most ceil(n/p) of n calls are attempts of that class |
| Sampling.OneInNIff | README.md:93 | for any mix of the two classes, any returns, other CPUs and clock: after every prefix the attempts of a class are ceil(its calls / N), the documented 1 in N, iff at each call of the class the count of all earlier calls is a multiple of N exactly when the count of the class's own earlier calls is |
| Sampling.AlwaysOneInNIff | README.md:93 | for either class and any traced thread, 1 in N holds next to every mix of calls with an advancing clock iff N is 1; for N > 1 one call of the other class in front breaks it |
| Sampling.SampledIffCoprime | src/bpf/trace_cuda.bpf.c:94-101 | for an agent whose every m-th call is asynchronous and that makes m * N calls, some async call is sampled iff m and N have no common divisor |
| Sampling.NeverSampled | src/bpf/trace_cuda.bpf.c:94-101 | with a common divisor of m and N no async call is ever sampled, however long the agent runs |
| Sampling.AsyncNeverSampled | README.md:93 | the case m = 2: an agent that alternates both classes never has an async call sampled when N is even |
| Sampling.SampledIffOddPeriod | README.md:93 | for an agent that alternates long enough, some async call is sampled iff the period is odd |
| Sampling.AgentCycles | README.md:93 | such agents exist for every cycle m and every traced thread, with returns in between and a clock that advances |
| SchedProbes.SchedTracer.TraceSchedSwitch | src/bpf/trace_cpu_sched.bpf.c:51-130 | the ring gains an OFF record iff the outgoing thread is wanted, then an ON record iff the incoming one is, each if its own reservation succeeds; in both modes |
| SchedProbes.SchedTracer.TraceSchedWakeup | src/bpf/trace_cpu_sched.bpf.c:134-163 | the ring gains one wakeup record iff the woken thread is wanted and there is room |
| SchedProbes.StaysExclusive | src/bpf/trace_cpu_sched.bpf.c:51-57 | along every run each non-idle thread runs on at most one CPU |
| SchedProbes.OnlyLastOpen | src/bpf/trace_cpu_sched.bpf.c:51-130 | of a thread's real on-CPU intervals only the last may be unfinished, exactly while the thread runs |
| SchedProbes.OnlyTarget | src/bpf/trace_cpu_sched.bpf.c:51-163 | with a target, no record of another thread gets into the ring |
| Collector.EventStore.HandleCpuEvent | src/user/unified_trace.c:100-112 | the event is appended with its tag unless the array is full |
| Collector.EventStore.HandleGpuEvent | src/user/unified_trace.c:114-126 | the same for CUDA events |
| Collector.EventStore.Poll | src/user/unified_trace.c:799-806 | for any interleaving of the rings the array holds exactly the first 100000 arrivals, in order, with matching tags |
| Collector.EventStore.Qsort | src/user/unified_trace.c:810-811 | the array becomes the chosen sorted permutation of what was stored |
| Collector.CompareIsOrder | src/user/unified_trace.c:240-247 | the comparator is antisymmetric, total and transitive, and ties exactly on equal timestamps |
| Collector.RingLosesSuffix | src/user/unified_trace.c:100-106 | overflow loses only a suffix of the CPU ring |
| Sorting.SortKeeps | src/user/unified_trace.c:810-811 | any sorted permutation, whatever it does with ties, keeps the order of a selection with strictly increasing timestamps, such as one thread's events |
| Sorting.Arrange | src/user/unified_trace.c:810-811 | every sorted rearrangement of a selection is what some sorted permutation of all events leaves of it |
| Pipeline.TraceIsSchedule | src/user/unified_trace.c:325-364 | for every machine run, any mix with GPU records and any tie-break, the begin and end records of a non-idle traced thread are its on-CPU intervals that began after tracing started, one after the other, each with its own CPU, name, stack, state and duration |
| Pipeline.TraceIsEarlierSchedule | src/user/unified_trace.c:100-126 | the same for any number of arrivals: past the array's capacity the track is that of some first steps of the run |
| Pipeline.ExactIff | src/user/unified_trace.c:352-364 | every finished interval has its begin and its end iff every finished interval started at a nonzero time on a thread id below the limit |
| Pipeline.ExactShape | src/user/unified_trace.c:325-364 | under that condition begins and ends alternate one to one with the intervals, at most the last begin stays open, and the printed durations sum to the thread's finished on-CPU time |
| Pipeline.TrackIsMarks | src/user/unified_trace.c:325-364 | the pairing treats each thread as if its events were the only ones |
| Pipeline.MarksAreSpans | src/bpf/trace_cpu_sched.bpf.c:51-130 | at every moment of a run, pairing the reported switches of a thread gives its intervals, and the pending time is the start of the running one |
| Pipeline.SpansGoForward | src/bpf/trace_cpu_sched.bpf.c:71-86 | no finished interval ends before it starts, so no duration wraps |
| Overlap.EveryEndPrintedIff | src/user/unified_trace.c:325-364 | for every event sequence and thread id: as many ends are printed as ONs are matched by an OFF iff every such OFF directly follows an ON at a nonzero time and the id is below the limit; never more |
| Overlap.OverlapLosesAnEnd | src/user/unified_trace.c:325-364 | a machine run in which two CPUs go idle and leave idle: the idle thread owes two ends and gets one, with the duration from the later start to the earlier stop |
| Ties.AlwaysExactIff | src/user/unified_trace.c:240-247 | for a machine run whose clock does not go back, the thread's track is exact for every outcome of the sort iff every finished interval is closable and no two of its switches tie, or the only tie is the harmless one |
| Ties.TieLosesAnEnd | src/user/unified_trace.c:240-247 | a thread that goes on and off in one clock reading: exactness fails for some sort |
| Ties.TieCanBeHarmless | src/user/unified_trace.c:352-353 | a thread that goes off and on again at clock 0: its switches tie and every sort gives the exact track |
| Ties.RunTells | src/bpf/trace_cpu_sched.bpf.c:51-130 | a thread's reported switches are ONs and OFFs in turn, the last one tells whether it runs, and closable intervals show as ONs with a nonzero time |
| Drops.TrackWithDrops | src/bpf/trace_cpu_sched.bpf.c:67-69 | with any dropped records, the track is the pairing of the records that reached the ring |
| Drops.ReportedIsShown | src/bpf/trace_cpu_sched.bpf.c:67-126 | the collected switches are those of the steps whose reservation succeeded, in order |
| Drops.PairIsRealIff | src/bpf/trace_cpu_sched.bpf.c:67-126 | a printed pair of an ON and the OFF shown next is a real on-CPU interval iff no record of the thread was lost between them |
| TraceProofs.EndsArePaired | src/user/unified_trace.c:325-364 | for every event sequence each end directly follows, on its thread, its own begin, and its duration is the distance to it |
| TraceProofs.Accounting | src/user/unified_trace.c:291-451 | output_count = 2 if any CPU event exists, plus ONs, wakeups, GPU events and OFFs that close something |
| TraceProofs.MetadataPosition | src/user/unified_trace.c:301-319 | the two name records appear exactly once, just before the output of the first CPU event, and name its thread |
| TraceProofs.RecordsPrefix | src/user/unified_trace.c:295-451 | output only grows |
| TraceProofs.NoUnderflow | src/user/unified_trace.c:298-354 | after sorting neither subtraction of the loop wraps, and the first event is at time 0 |
| TraceProofs.BaseIsFirst | src/user/unified_trace.c:257-263 | after sorting the minimum is the first event's timestamp |
| TraceProofs.TimelineInOrder | src/user/unified_trace.c:295-451 | the timed records appear in nondecreasing time order |
| ChromeTrace.MinTimestamp | src/user/unified_trace.c:257-263 | the result is a lower bound and is attained |
| ChromeTrace.LastSwitch | src/user/unified_trace.c:325-363 | the position is the thread's last ON or OFF before the given one, or -1 |
| Emitter.FindBase | src/user/unified_trace.c:257-263 | the scan computes MinTimestamp |
| Emitter.NameThread | src/user/unified_trace.c:301-319 | prints the two name records iff a CPU event comes and none came before |
| Emitter.EmitBody | src/user/unified_trace.c:321-450 | with cpu_on_time equal to OnTime before, prints exactly the event's record, counts it, and leaves cpu_on_time equal to OnTime after the event |
| Emitter.EmitEvent | src/user/unified_trace.c:295-451 | one pass of the loop keeps the loop invariant |
| Emitter.PrintNext | src/user/unified_trace.c:307-310 | the separator is printed iff something was printed before, so the array has one separator between two records and none elsewhere |
| Emitter.PrintRecord | src/user/unified_trace.c:306-449 | each of the five formats, printed piece by piece, is the rendering of the record's tree |
| Emitter.PrintThreadName | src/user/unified_trace.c:308-315 | the literal pieces of the metadata format |
| Emitter.PrintBegin | src/user/unified_trace.c:335-349 | the literal pieces of the begin format, with the stack if there is one |
| Emitter.PrintEnd | src/user/unified_trace.c:356-359 | the literal pieces of the end format |
| Emitter.PrintWakeup | src/user/unified_trace.c:368-371 | the literal pieces of the wakeup format |
| Emitter.PrintComplete | src/user/unified_trace.c:399-448 | the literal pieces of the slice format, with the stack if there is one |
| Emitter.PrintGpuArgs | src/user/unified_trace.c:402-437 | the arguments of a slice: stream id, async mark, sizes and pointer appear exactly under their conditions |
| Emitter.PrintSize | src/user/unified_trace.c:425-433 | the size in the unit of its magnitude |
| Emitter.PrintFooter | src/user/unified_trace.c:453-459 | the literal footer completes the rendering of the document tree |
| Emitter.OutputChromeTracingJson | src/user/unified_trace.c:249-468 | the file is exactly FileText of the stored events; untouched if it cannot be opened, only its first two lines if cpu_on_time cannot be allocated |
| Emitter.ProcessTrace | src/user/unified_trace.c:799-814 | collect, sort and print: the file is FileText of the sorted first 100000 arrivals |
| DocumentProofs.FileParsesIff | src/user/unified_trace.c:279-459 | reading the file gives the tree of exactly the printed records, with names as raw text, iff every printed thread name is a legal string body |
| TraceReader.TraceReadIff | src/user/unified_trace.c:279-459 | looking up every field by key, a reader finds phase, times in nanoseconds, ids, row, cpu, duration, state, name, category, arguments, size and stack of every record, iff every printed thread name is a legal string body |
| TraceReader.HumanIsNearest | src/user/unified_trace.c:425-433 | the size for humans is in the largest unit not above it, rounded to the nearest hundredth, half to even |
| TraceReader.EventCountRead | src/user/unified_trace.c:453-459 | the metadata gives the number of events |
| TraceFile.ScheduleRead | src/user/unified_trace.c:325-364 | for every machine run and any number of arrivals: the begin and end elements read for a non-idle traced thread are its on-CPU intervals, with their times, CPU, task name, stack, duration and state |
| TraceFile.CallsRead | src/user/unified_trace.c:376-450 | for any interleaving, number of arrivals and sort: every stored childless call of a well-nested thread has its own slice in the file; if no other thread of the process has CUDA events on its rows, the slices read there are exactly these, in return order if calls entered at one clock reading have the same slice |
| TraceFile.BandIsThreadIff | src/user/unified_trace.c:376-396 | the slices read on a thread's 256 rows are the thread's own iff no other thread of the process has a CUDA event there |
| TraceFile.WakeupsRead | src/bpf/trace_cpu_sched.bpf.c:134-163 | the wakeup elements read for a wanted thread are its wakeups that got into the ring, at their times and in order, whatever the sort does with ties |
| TraceFile.RowNamesRead | src/user/unified_trace.c:301-319 | the rows named in the file are those of the first thread with a CPU event: its own, and the row on which its default stream is drawn |
| TraceFile.StackSeenShows | src/user/unified_trace.c:335-448 | the stack read in an element is the one of its stack id, symbolized for its process |
| NameProofs.NamesReadIffPlain | src/user/unified_trace.c:308-405 | reading the file and decoding the name of every record gives every record its own name iff no printed thread name contains a quote, a backslash or a control byte |
| NameProofs.QuoteBreaksFile | src/user/unified_trace.c:338-338 | a name with a quote: the file is not the intended document |
| NameProofs.BackslashChangesName | src/user/unified_trace.c:338-338 | a name with a backslash and an n: the file is the intended document, but the name read is another one |
| NameProofs.NameFoundIff | src/user/unified_trace.c:308-405 | wherever a record was printed, the name found there is the record's name iff it needs no escaping |
| Misreading.ReadFollows | src/user/unified_trace.c:279-459 | whatever a reader makes of an ill-formed printed tree agrees with it up to the first illegal string body, which it reads as a string that denotes something else |
| Misreading.BodyMisread | src/user/unified_trace.c:338-338 | an unescaped illegal body is never read as a body that denotes it |
| DocumentProofs.RecordsGood | src/user/unified_trace.c:306-449 | everything printed other than thread names is always well formed |
| SliceTies.LeafCallsPrinted | src/user/unified_trace.c:376-450 | from calls to slices, for any number of arrivals, any interleaving and any sort: the slices printed for a well-nested thread are, as a multiset, those of its childless calls that found room, the first ones if not all fit the array; start = entry - base and duration = return - entry as true differences, process, stream row, name, category, result, name of the task, stream id, async mark, size and pointer are the call's own; they are in return order if calls entered at one clock reading have the same slice |
| SliceTies.AlwaysPrintedIff | src/user/unified_trace.c:240-247 | the slices are the calls in return order for every outcome of the sort iff calls entered at one clock reading have the same slice |
| SliceTies.TieSwapsCalls | src/user/unified_trace.c:240-247 | a copy and a launch in one clock reading: some sort prints them the other way round |
| SliceTies.CallsStored | src/user/unified_trace.c:114-126 | of a well-nested thread the array holds exactly its first childless calls that found room, all of them if everything fits, in the order of their entries |
| GpuTimeline.SlicesAreTold | src/user/unified_trace.c:376-450 | every collected CUDA event of a thread is printed as one slice, in order, at its normalised time and on its stream's row |
| SliceTies.NamesOfCall | src/user/unified_trace.c:46-96 | an operation is printed under the function that its probes are attached to, in the category of what that function does, and with a size iff the call has one |
| GpuTimeline.SlicesDisjoint | src/user/unified_trace.c:376-450 | any two slices printed for one thread occupy disjoint stretches of the normalised timeline, whatever was missed or dropped |
| Attribution.StackIffSampled | src/user/unified_trace.c:443-446 | a submitted event becomes one slice, which has a stack key iff the sampled flag was set at entry, iff the entry probe asked for a stack and got one; the stack is that one |
| Attribution.InfoStack | src/bpf/trace_cuda.bpf.c:130-133 | the record of an entry has a stack id iff the probe attempted and the kernel delivered |
| Escaping.JsonEscape | src/user/unified_trace.c:132-150 | the buffer holds the escape of the longest prefix that fits dst_len - 2 bytes, then a NUL, and is otherwise unchanged |
| Escaping.Fit | src/user/unified_trace.c:136-144 | the prefix length is the longest whose whole escape fits, so no escape is split |
| Escaping.StuckMeansLongest | src/user/unified_trace.c:136-144 | the loop's stopping conditions are met only at that prefix |
| Escaping.LosslessIffFits | src/user/unified_trace.c:136-149 | nothing is lost iff the full escape is at most dst_len - 2 bytes |
| Escaping.DecodeEscape | src/user/unified_trace.c:136-149 | the escape is a legal string body and decodes to its source |
| Escaping.EscapeHasNoControl | src/user/unified_trace.c:142-144 | no raw control byte is written |
| Escaping.EscapeInjective | src/user/unified_trace.c:136-149 | two strings with the same escape are equal |
| Escaping.BufferDecodes | src/user/unified_trace.c:149-149 | the C string read from the buffer, whatever it held before, decodes to that longest prefix |
| JsonText.ReadRender | src/user/unified_trace.c:279-459 | reading any well-formed tree's text, in any layout of the file, gives the tree back |
| JsonText.ReadsBackIffWellFormed | src/user/unified_trace.c:279-459 | a printed tree reads back iff it is well formed |
| JsonText.RenderItemsSnoc | src/user/unified_trace.c:332-332 | printing a separator and one more record is rendering the longer array |
| Symbolize.CopyStr | src/symbolize/blazesym_wrap.rs:77-86 | the buffer holds the first min(len, 511) bytes and a NUL, and is otherwise unchanged |
| Symbolize.Basename | src/symbolize/blazesym_wrap.rs:88-90 | the result is the suffix behind the last slash |
| Symbolize.BswResolve | src/symbolize/blazesym_wrap.rs:144-224 | the array receives exactly the first out_cap frames of the flattened expansion, the rest of it is unchanged, and the count is returned; nothing on null, empty or error |
| StackViews.FramesOfAddress | src/symbolize/blazesym_wrap.rs:186-222 | the frames of an address start behind the frames of all addresses before it: first the containing function with its own name, file, line and library, or ??, then the inlined functions in the order of the answer, each with its own name, file and line and marked inlined |
| Symbolize.ExpandTags | src/symbolize/blazesym_wrap.rs:192-213 | every frame has its source address; only the frames behind the first are marked inlined |
| StackJson.ReadStackAddrs | src/user/unified_trace.c:155-172 | the addresses before the first zero, cut at the capacity; none for a negative id, no map or a failed lookup |
| StackJson.EmitStackJson | src/user/unified_trace.c:182-238 | appends exactly the rendering of the stack's tree, in every branch |
| StackViews.StackShown | src/user/unified_trace.c:182-238 | the text printed for a stack, read back: the raw form lists the first addresses of the kernel's entry, up to its first zero, its depth or the limit; with symbols the symbolizer is asked about exactly these, and the frames are the first 4n of its answer, or none if the array or the answer is missing |
| StackViews.InnermostIsUnique | src/user/unified_trace.c:155-200 | that describes one list of addresses |
| StackReader.FrameBound | src/user/unified_trace.c:190-214 | at most 4 * min(addresses, max_stack_frames) frames are shown; when the frame array can be allocated, nothing is lost iff the expansion has at most 4n frames |
| StackReader.FrameLimitIff | src/user/unified_trace.c:190-214 | the array printed for a stack with n shown addresses has at most N entries iff it holds raw addresses, or the frame array cannot be allocated, or the expansion has at most N frames, or 4n <= N |
| StackReader.LimitHoldsForEveryAnswer | README.md:94 | the documented limit holds for every answer of the symbolizer iff no frames are printed (raw addresses, or no frame array) or 4n <= N |
| StackReader.LimitIsOnAddresses | README.md:94 | with a limit of 1, four frames can be shown |
| StackReader.CleanTextSurvives | src/symbolize/blazesym_wrap.rs:77-86 | without control bytes the two bounded copies lose only what the first one cut |
| StackReader.TwoCopiesExact | src/user/unified_trace.c:217-224 | for any string they do so iff the kept part has no NUL and its escape is at most 1022 bytes |
| StackReader.BoundIsTight | src/user/unified_trace.c:217-224 | 511 quotes fill the escape buffer exactly; 511 control bytes overflow it |
| StackReader.SymbolView | src/symbolize/blazesym_wrap.rs:92-106 | what a reader of the trace sees of a resolved symbol, whatever bytes its strings hold: name, base file name, line and base library name, each through both bounded copies, an empty name as ?? |
| StackReader.InlinedView | src/symbolize/blazesym_wrap.rs:198-219 | the same for an inlined function and for an unknown address |
| StreamRows.StreamOffset | src/user/unified_trace.c:387-395 | the offset is below 256, and 0 iff the stream is the default one |
| StreamRows.MixIsExpression | src/user/unified_trace.c:393-393 | the hash is the code's expression on the whole 64-bit id: the low byte of the exclusive or of the id with its upper half |
| StreamRows.RowBand | src/user/unified_trace.c:396-396 | the row is tid + 1000000 + offset in 32-bit arithmetic, and the base row iff the stream id is 0; it lies in tid + 1000000 .. tid + 1000255 iff the sum does not wrap |
| StreamRows.SameRowIff | src/user/unified_trace.c:377-396 | for all stream ids: two streams of one thread share a row iff both are the default one, or neither is and their hashes are equal or both at most 1 |
| StreamRows.RowsMeetIff | src/user/unified_trace.c:396-396 | streams of any two threads share a row iff thread id plus offset agree modulo 2^32 |
| StreamRows.NeighbourRow | src/user/unified_trace.c:394-396 | stream 1 of a thread is drawn on the default row of the thread with the next id |
| StreamRows.DefaultRowTaken | src/user/unified_trace.c:394-396 | some stream of thread t is drawn on the default row of thread u iff u is 1 to 255 above t, modulo 2^32 |
| StreamRows.MixIsOnto | src/user/unified_trace.c:392-393 | in a window of 256 consecutive ids with one upper half every hash value is taken exactly once |
| StreamRows.OneCollision | src/user/unified_trace.c:392-394 | in such a window without id 0 exactly one pair of streams shares a row, at offset 1 |
| StreamRows.XorIsBitwise | src/user/unified_trace.c:393-393 | the arithmetic exclusive or is the bitwise operator on bytes |

## Left out

- Loading, attaching uprobes and tracepoints, signals, argument parsing, opening files and console output: the flags `fileOpened` and `callocOk` and the record `Host` stand for what they decide.
- The interior of blazesym, debug info and perf maps: the symbolizer's answer is an arbitrary value.
- The kernel's answers to one lookup or one symbolization are functions of their arguments, so a map entry that changes while the file is written is not captured.
- printf's conversion of microseconds and sizes through `double`: times are integer nanoseconds printed with three decimals, sizes are rounded to two decimals half to even.
- UTF-8: a `char` is a byte, and `copy_str` may split a character.
- `comm` is the text before the NUL of its 16-byte field.
- Frames are values in the output array; writing through a reference into a frame's buffers is modelled by `CopyStr` on a buffer of its own and by functions on frames.
- CudaApi.ApiCall: has the arguments that the probes read; the kind of a copy and the launch geometry, shared memory and stream of a kernel are not recorded by the tracer.
- Escaping.UnitValue: does not decode `\u` escapes above 0x7F, because the escaper writes them only for control bytes.
- Sampling.CounterCountsCalls: does not model the counter's wrap at 2^64, because a run that long is not reachable; `CudaTracer.Count` wraps as the code does.
- StreamRows.XorIsBitwise: compares the arithmetic exclusive or with Dafny's operator on bytes; on 64-bit ids it is defined bit by bit.
- Each format string is printed in pieces, cut at the commas between members; the pieces are the literal text.
- Thread ids reused by a later thread, and preemption inside one probe: each probe is one step.
- The debug counts of event types before the loop: they only reach the console.
- `trace_exec`, `count_packets`, the printing in `trace_cuda.c`, `bsw_version`, the mock library, the workloads, the Python validators and the scripts: they are outside the path from a probe to the trace file.
