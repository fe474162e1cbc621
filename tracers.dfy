/**
 * The tracer threads: the base run loop shared by every tracer (header once,
 * then one row per sample until `should_exit` or a not-found error), the
 * naming of system ('sys') and process (str(pid)) tracers, and the seven
 * metric tracers whose cached fields the dispatchers read back.
 *
 * Python gives every tracer its own subclass; here one class carries the
 * tracer's class name, and the class name decides the header, the sample it
 * reads, the row it writes and the shape of its cache.
 */
module Tracers {
  import opened Common
  import Decimal
  import Metrics

  const SYSTEM_MEM: string := "SystemMEMTracerThread"
  const SYSTEM_SWAP: string := "SystemSWAPTracerThread"
  const SYSTEM_CPU: string := "SystemCPUTracerThread"
  const PROCESS_MEM: string := "ProcessMEMTracerThread"
  const PROCESS_CHILD: string := "ProcessChildTracerThread"
  const PROCESS_CPU: string := "ProcessCPUTracerThread"
  const PROCESS_STAT: string := "ProcessSTATTracerThread"

  /** The tracer_type each tracer class passes to the base constructor. */
  const TRACER_TYPES: map<string, string> := map[
    SYSTEM_MEM := "mem", SYSTEM_SWAP := "swap", SYSTEM_CPU := "cpu",
    PROCESS_MEM := "mem", PROCESS_CHILD := "child", PROCESS_CPU := "cpu",
    PROCESS_STAT := "stat"]

  /** The tracers whose header, body and cache are part of this model. */
  predicate IsModelled(className: string)
  {
    className in TRACER_TYPES
  }

  /** One psutil sample, as a tracer's print_body reads it. */
  datatype Reading =
    | VirtualMemory(total: int, available: int, buffers: int, cached: int, shared: int)
    | SwapMemory(total: int, used: int)
    | CoresPercent(percents: seq<real>)
    | ChildInfo(children: seq<int>, numThreads: int)
    | MemoryFullInfo(vms: int, rss: int, shared: int, text: int, data: int, swap: int)
    | CpuUse(cpuNum: int, percent: real)
    | Status(status: string)

  /** One iteration's sample and the timestamp written in front of it. */
  datatype Tick = Tick(ts: string, reading: Reading)

  /**
   * One call of print_body: a whole sample, or a not-found error.  The
   * child and process CPU tracers make two psutil calls and store the first
   * result before making the second; `stored` is that first result when it
   * is the second call that fails.
   */
  datatype Step = Sampled(tick: Tick) | Failed(stored: Option<int>)

  /** The `_cached_*` fields of each tracer class. */
  datatype Cached =
    | VmCache(avail: int, total: int, buffered: int, shared: int)
    | SwapCache(total: int, used: int)
    | CoresCache(percents: seq<real>)
    | ChildCache(threads: int, children: int)
    | ResidentCache(rss: real)
    | CpuCache(percent: real, onCpu: int)
    | StatCache(stat: string)
    | Uncached

  /** The sample a tracer class reads; psutil reports at least one core. */
  predicate Fits(className: string, r: Reading)
  {
    || (className == SYSTEM_MEM && r.VirtualMemory?)
    || (className == SYSTEM_SWAP && r.SwapMemory?)
    || (className == SYSTEM_CPU && r.CoresPercent? && |r.percents| > 0)
    || (className == PROCESS_CHILD && r.ChildInfo?)
    || (className == PROCESS_MEM && r.MemoryFullInfo?)
    || (className == PROCESS_CPU && r.CpuUse?)
    || (className == PROCESS_STAT && r.Status?)
  }

  /**
   * The tracers whose print_body stores a field before its second psutil
   * call: the child count before num_threads(), the core before cpu_percent().
   */
  predicate StoresBeforeSecondCall(className: string)
  {
    className == PROCESS_CHILD || className == PROCESS_CPU
  }

  /** A call of print_body a tracer class can make. */
  predicate StepFits(className: string, s: Step)
  {
    match s
    case Sampled(t) => Fits(className, t.reading)
    case Failed(stored) => stored.Some? ==> StoresBeforeSecondCall(className)
  }

  /** The cache shape of a tracer class. */
  predicate CacheFits(className: string, c: Cached)
  {
    if className == SYSTEM_MEM then c.VmCache?
    else if className == SYSTEM_SWAP then c.SwapCache?
    else if className == SYSTEM_CPU then c.CoresCache? && |c.percents| > 0
    else if className == PROCESS_CHILD then c.ChildCache?
    else if className == PROCESS_MEM then c.ResidentCache?
    else if className == PROCESS_CPU then c.CpuCache?
    else if className == PROCESS_STAT then c.StatCache?
    else c.Uncached?
  }

  /** The sentinels each tracer constructor stores before the first sample. */
  function InitialCache(className: string): (c: Cached)
    ensures CacheFits(className, c)
  {
    if className == SYSTEM_MEM then VmCache(-1, -1, -1, -1)
    else if className == SYSTEM_SWAP then SwapCache(-1, -1)
    else if className == SYSTEM_CPU then CoresCache([-0.1])
    else if className == PROCESS_CHILD then ChildCache(-1, -1)
    else if className == PROCESS_MEM then ResidentCache(-1.0)
    else if className == PROCESS_CPU then CpuCache(-1.0, -1)
    else if className == PROCESS_STAT then StatCache(NA)
    else Uncached
  }

  /** The cached fields after print_body has read `r`. */
  function Refresh(r: Reading): Cached
  {
    match r
    case VirtualMemory(total, available, buffers, _, shared) => VmCache(available, total, buffers, shared)
    case SwapMemory(total, used) => SwapCache(total, used)
    case CoresPercent(percents) => CoresCache(percents)
    case ChildInfo(children, numThreads) => ChildCache(numThreads, |children|)
    case MemoryFullInfo(_, rss, _, _, _, _) => ResidentCache(rss as real)
    case CpuUse(cpuNum, percent) => CpuCache(percent, cpuNum)
    case Status(status) => StatCache(status)
  }

  /**
   * The cache after print_body has raised: a child tracer holds the new
   * child count beside the old thread count, a CPU tracer the new core
   * beside the old percentage; nothing else was written.
   */
  function FailedRefresh(c: Cached, stored: Option<int>): Cached
  {
    if stored.None? then c
    else match c
      case ChildCache(threads, _) => ChildCache(threads, stored.value)
      case CpuCache(percent, _) => CpuCache(percent, stored.value)
      case _ => c
  }

  lemma RefreshFits(className: string, r: Reading)
    requires Fits(className, r)
    ensures CacheFits(className, Refresh(r))
  {
  }

  /** str() of an integer field. */
  function IntCell(i: int): Cell
  {
    Text(Decimal.IntToString(i))
  }

  /** The column names `0 .. n-1` of the per-core CPU header. */
  function CoreNames(n: nat): (r: seq<string>)
    ensures |r| == n
    ensures forall i :: 0 <= i < n ==> r[i] == Decimal.NatToString(i)
  {
    if n == 0 then [] else CoreNames(n - 1) + [Decimal.NatToString(n - 1)]
  }

  /** The column names print_header writes for each tracer class; `cores` is psutil.cpu_count(). */
  function HeaderNames(className: string, cores: nat): (names: seq<string>)
    requires IsModelled(className)
    ensures |names| >= 1 && names[0] == "TIME"
    ensures className == SYSTEM_CPU ==> |names| == cores + 1
    ensures className != SYSTEM_CPU ==> |names| >= 2
  {
    if className == SYSTEM_MEM then ["TIME", "TOTAL", "USED", "BUFFERED", "CACHED", "SHARED"]
    else if className == SYSTEM_SWAP then ["TIME", "TOTAL", "USED"]
    else if className == SYSTEM_CPU then ["TIME"] + CoreNames(cores)
    else if className == PROCESS_CHILD then ["TIME", "CHILD_PROCESS_NUMBER", "THREAD_NUMBER"]
    else if className == PROCESS_MEM then ["TIME", "VIRT", "RESIDENT", "SHARED", "TEXT", "DATA", "SWAP"]
    else if className == PROCESS_CPU then ["TIME", "OnCPU", "CPU_PERCENT"]
    else ["TIME", "STAT"]
  }

  /** print_header of each tracer class. */
  function Header(className: string, cores: nat): (h: Row)
    requires IsModelled(className)
    ensures |h| >= 1 && h[0] == Text("TIME")
    ensures forall i :: 0 <= i < |h| ==> h[i].Text?
    ensures className == SYSTEM_CPU ==> |h| == cores + 1
    ensures className != SYSTEM_CPU ==> |h| >= 2
  {
    HeaderRow(HeaderNames(className, cores))
  }

  function RealCells(xs: seq<real>): (r: Row)
    ensures |r| == |xs|
    ensures forall i :: 0 <= i < |xs| ==> r[i] == Num(xs[i])
  {
    if xs == [] then [] else [Num(xs[0])] + RealCells(xs[1..])
  }

  /** The row print_body writes for the sample `r` at time `ts`. */
  function BodyRow(ts: string, r: Reading): (row: Row)
    ensures |row| >= 1 && row[0] == Text(ts)
    ensures r.CoresPercent? ==> |row| == |r.percents| + 1
    ensures !r.CoresPercent? ==> |row| >= 2
  {
    match r
    case VirtualMemory(total, available, buffers, cached, shared) =>
      [Text(ts), IntCell(total), IntCell(total - available), IntCell(buffers), IntCell(cached), IntCell(shared)]
    case SwapMemory(total, used) => [Text(ts), IntCell(total), IntCell(used)]
    case CoresPercent(percents) => [Text(ts)] + RealCells(percents)
    case ChildInfo(children, numThreads) => [Text(ts), IntCell(|children|), IntCell(numThreads)]
    case MemoryFullInfo(vms, rss, shared, text, data, swap) =>
      [Text(ts), IntCell(vms), IntCell(rss), IntCell(shared), IntCell(text), IntCell(data), IntCell(swap)]
    case CpuUse(cpuNum, percent) => [Text(ts), IntCell(cpuNum), Num(percent)]
    case Status(status) => [Text(ts), Text(status)]
  }

  /**
   * Header and rows agree in width: always for the fixed-width tracers, and
   * for the per-core CPU tracer exactly when psutil reports one percentage
   * per counted core.
   */
  lemma HeaderMatchesBody(className: string, cores: nat, ts: string, r: Reading)
    requires IsModelled(className) && Fits(className, r)
    ensures className != SYSTEM_CPU ==> |BodyRow(ts, r)| == |Header(className, cores)|
    ensures className == SYSTEM_CPU ==>
              (|BodyRow(ts, r)| == |Header(className, cores)| <==> |r.percents| == cores)
  {
  }

  /** get_cached_vm_info: (available, total, buffered, shared). */
  function VmInfo(c: Cached): (int, int, int, int)
    requires c.VmCache?
  {
    (c.avail, c.total, c.buffered, c.shared)
  }

  /** get_cached_swap_info: (total - used, used), the free swap first. */
  function SwapInfo(c: Cached): (int, int)
    requires c.SwapCache?
  {
    (c.total - c.used, c.used)
  }

  /** get_cached_cpu_percent of the system tracer: the list as cached. */
  function CoresInfo(c: Cached): seq<real>
    requires c.CoresCache?
  {
    c.percents
  }

  /** get_cached_thread_child_process_num: (threads, children). */
  function ThreadChildNum(c: Cached): (int, int)
    requires c.ChildCache?
  {
    (c.threads, c.children)
  }

  function ResidentMem(c: Cached): real
    requires c.ResidentCache?
  {
    c.rss
  }

  /** get_cached_cpu_percent of the process tracer. */
  function CpuPercent(c: Cached): real
    requires c.CpuCache?
  {
    c.percent
  }

  function StatInfo(c: Cached): string
    requires c.StatCache?
  {
    c.stat
  }

  /**
   * The getters give back the latest sample in their own order: memory as
   * (available, total, buffers, shared), swap as (free, used), the child
   * tracer as (threads, children) although its row writes children first.
   */
  lemma GettersReadBackSample(r: Reading)
    ensures r.VirtualMemory? ==> VmInfo(Refresh(r)) == (r.available, r.total, r.buffers, r.shared)
    ensures r.SwapMemory? ==> SwapInfo(Refresh(r)) == (r.total - r.used, r.used)
    ensures r.SwapMemory? ==> SwapInfo(Refresh(r)).0 + SwapInfo(Refresh(r)).1 == r.total
    ensures r.CoresPercent? ==> CoresInfo(Refresh(r)) == r.percents
    ensures r.ChildInfo? ==> ThreadChildNum(Refresh(r)) == (r.numThreads, |r.children|)
    ensures r.MemoryFullInfo? ==> ResidentMem(Refresh(r)) == r.rss as real
    ensures r.CpuUse? ==> CpuPercent(Refresh(r)) == r.percent
    ensures r.Status? ==> StatInfo(Refresh(r)) == r.status
  {
  }

  /** Before any sample the swap getter reports (0, -1): total and used are both -1. */
  lemma SwapSentinel()
    ensures SwapInfo(InitialCache(SYSTEM_SWAP)) == (0, -1)
    ensures VmInfo(InitialCache(SYSTEM_MEM)) == (-1, -1, -1, -1)
    ensures ThreadChildNum(InitialCache(PROCESS_CHILD)) == (-1, -1)
  {
  }

  /** The USED column of the memory row reads back as total minus available. */
  lemma UsedColumnIsTotalMinusAvailable(ts: string, r: Reading)
    requires r.VirtualMemory?
    ensures Decimal.ParseInt(BodyRow(ts, r)[2].s) == r.total - r.available
  {
    Decimal.IntRoundTrip(r.total - r.available);
  }

  /** The child row reads back children first, then threads, as its header says. */
  lemma ChildRowOrder(ts: string, r: Reading)
    requires r.ChildInfo?
    ensures Header(PROCESS_CHILD, 0)[1] == Text("CHILD_PROCESS_NUMBER")
    ensures Decimal.ParseInt(BodyRow(ts, r)[1].s) == |r.children|
    ensures Decimal.ParseInt(BodyRow(ts, r)[2].s) == r.numThreads
  {
    Decimal.IntRoundTrip(|r.children|);
    Decimal.IntRoundTrip(r.numThreads);
  }

  /** The samples the run loop consumes: those before the first not-found error. */
  function PresentPrefix(steps: seq<Step>): seq<Tick>
  {
    if steps == [] || steps[0].Failed? then [] else [steps[0].tick] + PresentPrefix(steps[1..])
  }

  /**
   * The consumed samples are exactly the leading whole ones: each is the
   * sample at its position, and the next position is a failure or the end.
   */
  lemma {:induction false} PresentPrefixIsLeadingRun(steps: seq<Step>)
    ensures |PresentPrefix(steps)| <= |steps|
    ensures forall i :: 0 <= i < |PresentPrefix(steps)| ==> steps[i] == Sampled(PresentPrefix(steps)[i])
    ensures |PresentPrefix(steps)| == |steps| || steps[|PresentPrefix(steps)|].Failed?
  {
    if steps != [] && steps[0].Sampled? {
      PresentPrefixIsLeadingRun(steps[1..]);
    }
  }

  /** The rows that `row` makes of the samples `ticks`, one per sample, in order. */
  function RowsBy(ticks: seq<Tick>, row: (string, Reading) -> Row): (r: seq<Row>)
    ensures |r| == |ticks|
    ensures forall i :: 0 <= i < |ticks| ==> r[i] == row(ticks[i].ts, ticks[i].reading)
  {
    if ticks == [] then []
    else
      var n := |ticks| - 1;
      assert forall i :: 0 <= i < n ==> ticks[..n][i] == ticks[i];
      RowsBy(ticks[..n], row) + [row(ticks[n].ts, ticks[n].reading)]
  }

  /** The body rows of the samples `ticks`: the i-th is print_body's row for the i-th sample. */
  function Rows(ticks: seq<Tick>): (r: seq<Row>)
    ensures |r| == |ticks|
    ensures forall i :: 0 <= i < |ticks| ==> r[i] == BodyRow(ticks[i].ts, ticks[i].reading)
  {
    RowsBy(ticks, BodyRow)
  }

  /** The cache after the whole samples `ticks`, starting from `c`. */
  function CacheAfter(c: Cached, ticks: seq<Tick>): Cached
  {
    if ticks == [] then c else Refresh(ticks[|ticks| - 1].reading)
  }

  /**
   * The cache at the end of a run over `steps` from `c`: each whole sample
   * replaces it, and the first failing print_body leaves what it stored.
   */
  function CacheAfterRun(c: Cached, steps: seq<Step>): Cached
    decreases steps
  {
    if steps == [] then c
    else match steps[0]
      case Sampled(t) => CacheAfterRun(Refresh(t.reading), steps[1..])
      case Failed(stored) => FailedRefresh(c, stored)
  }

  /**
   * A run leaves the last whole sample in the cache (the starting cache
   * when there is none), and when it ends on a failure, what the failing
   * print_body stored is written over that sample.
   */
  lemma {:induction false} CacheAfterRunIsLastSample(c: Cached, steps: seq<Step>)
    ensures |PresentPrefix(steps)| <= |steps|
    ensures |PresentPrefix(steps)| == |steps| ==> CacheAfterRun(c, steps) == CacheAfter(c, PresentPrefix(steps))
    ensures |PresentPrefix(steps)| < |steps| ==>
              && steps[|PresentPrefix(steps)|].Failed?
              && CacheAfterRun(c, steps) == FailedRefresh(CacheAfter(c, PresentPrefix(steps)), steps[|PresentPrefix(steps)|].stored)
    decreases steps
  {
    PresentPrefixIsLeadingRun(steps);
    if steps != [] && steps[0].Sampled? {
      var t := steps[0].tick;
      var rest := PresentPrefix(steps[1..]);
      CacheAfterRunIsLastSample(Refresh(t.reading), steps[1..]);
      assert PresentPrefix(steps) == [t] + rest;
      assert CacheAfter(c, [t] + rest) == CacheAfter(Refresh(t.reading), rest);
    }
  }

  /**
   * A tracer whose process exits between its two psutil calls is left with
   * a torn sample: the child tracer's getter returns the thread count of
   * the last whole sample beside the new child count, and the CPU tracer
   * holds the new core beside the last whole sample's percentage.
   */
  lemma TornSample(className: string, c: Cached, steps: seq<Step>, n: int)
    requires StoresBeforeSecondCall(className) && CacheFits(className, c)
    requires forall i :: 0 <= i < |steps| ==> StepFits(className, steps[i])
    requires |PresentPrefix(steps)| < |steps| && steps[|PresentPrefix(steps)|] == Failed(Some(n))
    ensures CacheFits(className, CacheAfter(c, PresentPrefix(steps)))
    ensures CacheFits(className, CacheAfterRun(c, steps))
    ensures className == PROCESS_CHILD ==>
              ThreadChildNum(CacheAfterRun(c, steps)) == (ThreadChildNum(CacheAfter(c, PresentPrefix(steps))).0, n)
    ensures className == PROCESS_CPU ==>
              CacheAfterRun(c, steps) == CpuCache(CpuPercent(CacheAfter(c, PresentPrefix(steps))), n)
  {
    CacheAfterRunIsLastSample(c, steps);
    PresentPrefixIsLeadingRun(steps);
    var present := PresentPrefix(steps);
    if present != [] {
      var k := |present| - 1;
      assert steps[k] == Sampled(present[k]);
      RefreshFits(className, present[k].reading);
    }
  }

  class TracerThread {
    const className: string
    const basename: string
    /** 'sys' for system tracers, str(trace_pid) for process tracers. */
    const tracee: string
    const thread: Thread
    var cache: Cached
    /** The lines of the output file, header included. */
    var sink: seq<Row>

    predicate Valid()
      reads this
    {
      CacheFits(className, cache)
    }

    /** The base constructor: nothing written yet, should_exit False, sentinel cache. */
    constructor (className: string, basename: string, tracee: string)
      ensures this.className == className && this.basename == basename && this.tracee == tracee
      ensures fresh(thread) && thread.className == className && !thread.shouldExit
      ensures cache == InitialCache(className) && sink == []
      ensures Valid()
    {
      this.className := className;
      this.basename := basename;
      this.tracee := tracee;
      thread := new Thread(className);
      cache := InitialCache(className);
      sink := [];
    }

    /** The output file: basename.tracee.tracer_type.tsv. */
    function OutFile(): string
      requires IsModelled(className)
    {
      basename + "." + tracee + "." + TRACER_TYPES[className] + ".tsv"
    }

    /**
     * print_body: read one sample into the cache and return the row it
     * writes, or raise the not-found error, leaving in the cache what was
     * stored before the call that failed.
     */
    method PrintBody(s: Step) returns (row: Result<Row>)
      requires Valid() && StepFits(className, s)
      modifies this`cache
      ensures row.Err? <==> s.Failed?
      ensures row.Err? ==> row.fault == NotFound && cache == FailedRefresh(old(cache), s.stored)
      ensures row.Ok? ==> row.value == BodyRow(s.tick.ts, s.tick.reading) && cache == Refresh(s.tick.reading)
      ensures sink == old(sink)
      ensures Valid()
    {
      match s
      case Sampled(t) =>
        RefreshFits(className, t.reading);
        cache := Refresh(t.reading);
        row := Ok(BodyRow(t.ts, t.reading));
      case Failed(stored) =>
        cache := FailedRefresh(cache, stored);
        row := Err(NotFound);
    }

    /**
     * run_body.  Opening the file truncates it, the header is written once,
     * then every iteration writes one row until should_exit is seen or
     * print_body fails with a not-found error, which ends the loop at once.
     * `steps` is one entry per iteration; once it is used up the loop
     * raises should_exit itself, standing for the stop request another
     * thread sends.
     */
    method RunBody(cores: nat, steps: seq<Step>)
      requires Valid() && IsModelled(className)
      requires forall i :: 0 <= i < |steps| ==> StepFits(className, steps[i])
      modifies this`cache, this`sink, thread
      ensures Valid()
      ensures old(thread.shouldExit) ==> sink == [Header(className, cores)] && cache == old(cache)
      ensures !old(thread.shouldExit) ==>
                && sink == [Header(className, cores)] + Rows(PresentPrefix(steps))
                && cache == CacheAfterRun(old(cache), steps)
    {
      PresentPrefixIsLeadingRun(steps);
      ghost var present := PresentPrefix(steps);
      var header := Header(className, cores);
      sink := [header];
      var i := 0;
      while !thread.shouldExit
        invariant Valid()
        invariant 0 <= i <= |present|
        invariant sink == [header] + Rows(present[..i])
        invariant CacheAfterRun(cache, steps[i..]) == CacheAfterRun(old(cache), steps)
        invariant old(thread.shouldExit) ==> thread.shouldExit && i == 0 && cache == old(cache)
        invariant thread.shouldExit ==> old(thread.shouldExit) || i == |steps|
        decreases |steps| - i + (if thread.shouldExit then 0 else 1)
      {
        if i == |steps| {
          thread.shouldExit := true;
        } else if steps[i].Failed? {
          assert i == |present| && present[..i] == present;
          assert steps[i..][0] == steps[i];
          var _ := PrintBody(steps[i]);
          return;
        } else {
          ConsumeTick(steps[i].tick, steps, present, i, old(cache), header);
          i := i + 1;
        }
      }
      if old(thread.shouldExit) {
        assert present[..i] == [];
      } else {
        assert present[..i] == present;
        assert steps[i..] == [];
      }
    }

    /** One iteration of run that samples: print_body's row is appended and the sample cached. */
    method ConsumeTick(t: Tick, ghost steps: seq<Step>, ghost present: seq<Tick>, ghost i: nat, ghost c0: Cached, ghost header: Row)
      requires Valid() && Fits(className, t.reading)
      requires i < |present| && present[i] == t && i < |steps| && steps[i] == Sampled(t)
      requires sink == [header] + Rows(present[..i])
      requires CacheAfterRun(cache, steps[i..]) == CacheAfterRun(c0, steps)
      modifies this`cache, this`sink
      ensures Valid()
      ensures sink == [header] + Rows(present[..i + 1])
      ensures CacheAfterRun(cache, steps[i + 1..]) == CacheAfterRun(c0, steps)
    {
      NextTick(steps, present, i, t, cache);
      var row := PrintBody(Sampled(t));
      sink := sink + [row.value];
    }
  }

  /** One more consumed sample adds its row and replaces the cache the rest of the run starts from. */
  lemma NextTick(steps: seq<Step>, present: seq<Tick>, i: nat, t: Tick, c: Cached)
    requires i < |present| && present[i] == t && i < |steps| && steps[i] == Sampled(t)
    ensures Rows(present[..i + 1]) == Rows(present[..i]) + [BodyRow(t.ts, t.reading)]
    ensures CacheAfterRun(c, steps[i..]) == CacheAfterRun(Refresh(t.reading), steps[i + 1..])
  {
    assert present[..i + 1][..i] == present[..i];
    assert steps[i..][1..] == steps[i + 1..];
  }

  /** BaseSystemTracerThread: the tracee is 'sys'. */
  method NewSystemTracer(className: string, basename: string) returns (t: TracerThread)
    ensures fresh(t) && fresh(t.thread) && t.thread.className == className
    ensures t.className == className && t.basename == basename && t.tracee == "sys"
    ensures t.cache == InitialCache(className) && t.sink == [] && !t.thread.shouldExit
    ensures t.Valid()
  {
    t := new TracerThread(className, basename, "sys");
  }

  /**
   * BaseProcessTracerThread: the tracee is str(trace_pid); the process lookup
   * re-raises a not-found error, and then no tracer exists.
   */
  method NewProcessTracer(className: string, basename: string, pid: int, snap: Metrics.Snapshot)
    returns (r: Result<TracerThread>)
    ensures r.Err? <==> pid !in snap
    ensures r.Err? ==> r.fault == NotFound
    ensures r.Ok? ==> fresh(r.value) && fresh(r.value.thread) && r.value.thread.className == className
    ensures r.Ok? ==> r.value.className == className && r.value.basename == basename
    ensures r.Ok? ==> r.value.tracee == Decimal.IntToString(pid)
    ensures r.Ok? ==> r.value.cache == InitialCache(className) && r.value.sink == [] && !r.value.thread.shouldExit
    ensures r.Ok? ==> r.value.Valid()
  {
    if pid !in snap {
      return Err(NotFound);
    }
    var t := new TracerThread(className, basename, Decimal.IntToString(pid));
    r := Ok(t);
  }

  function FileName(basename: string, tracee: string, tracerType: string): string
  {
    basename + "." + tracee + "." + tracerType + ".tsv"
  }

  /** A process tracer never writes to the file of a system tracer. */
  lemma ProcessAndSystemFilesDiffer(basename: string, pid: int, t1: string, t2: string)
    ensures FileName(basename, Decimal.IntToString(pid), t1) != FileName(basename, "sys", t2)
  {
    var a := FileName(basename, Decimal.IntToString(pid), t1);
    var b := FileName(basename, "sys", t2);
    var k := |basename| + 1;
    assert a[k] == Decimal.IntToString(pid)[0];
    assert b[k] == 's';
  }

  /**
   * Two process tracers of the same type tracing different pids write to
   * different files, whatever the pids' lengths.
   */
  lemma DistinctPidsDistinctFiles(basename: string, p1: int, p2: int, t: string)
    requires p1 != p2
    ensures FileName(basename, Decimal.IntToString(p1), t) != FileName(basename, Decimal.IntToString(p2), t)
  {
    var s1 := Decimal.IntToString(p1);
    var s2 := Decimal.IntToString(p2);
    var f1 := FileName(basename, s1, t);
    var f2 := FileName(basename, s2, t);
    var k := |basename| + 1;
    Decimal.IntToStringInjective(p1, p2);
    if |s1| == |s2| {
      var j :| 0 <= j < |s1| && s1[j] != s2[j];
      assert f1[k + j] == s1[j];
      assert f2[k + j] == s2[j];
    } else if |s1| < |s2| {
      assert f1[k + |s1|] == '.';
      assert f2[k + |s1|] == s2[|s1|];
    } else {
      assert f2[k + |s2|] == '.';
      assert f1[k + |s2|] == s1[|s2|];
    }
  }
}
