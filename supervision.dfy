/**
 * The supervision layer of the `_private` generation: the dispatcher
 * controller (a registry of live dispatchers keyed by pid), the base
 * dispatcher with its thread pool keyed by class name, the process dispatcher
 * that follows one pid and spawns a dispatcher per newly seen child, and the
 * system dispatcher.  The `dt_mvc` generation has the same controller and
 * base dispatcher and shares this model.
 *
 * Each operation is one atomic step against a psutil snapshot; threads,
 * sleeps and locks are abstracted away.  The ghost `steps` log records what a
 * dispatcher has done, in order.
 */
module Supervision {
  import opened Common
  import Decimal
  import Metrics
  import Units
  import Tracers
  import TracerLoader
  import MountTable

  const PROCESS_DISPATCHER: string := "ProcessTracerDispatcherThread"
  const SYSTEM_DISPATCHER: string := "SystemTracerDispatcherThread"

  datatype Kind = ProcessKind | SystemKind

  function ClassOf(kind: Kind): string
  {
    if kind == ProcessKind then PROCESS_DISPATCHER else SYSTEM_DISPATCHER
  }

  /** The keys of the frontend caches. */
  datatype Field =
    | Pid | Ppid | Name | CpuPercent | Stat | CpuTime | ResidentMemory | NumThreads | NumChildren
    | VmAvail | VmTotal | VmPercent | Buffered | SharedMem | SwapAvail | SwapTotal | SwapPercent

  /** The key string under which the display looks each field up. */
  function Label(f: Field): string
  {
    match f
    case Pid => "PID"
    case Ppid => "PPID"
    case Name => "NAME"
    case CpuPercent => "CPU%"
    case Stat => "STAT"
    case CpuTime => "CPU_TIME"
    case ResidentMemory => "RESIDENT_MEM"
    case NumThreads => "NUM_THREADS"
    case NumChildren => "NUM_CHILD_PROCESS"
    case VmAvail => "VM_AVAIL"
    case VmTotal => "VM_TOTAL"
    case VmPercent => "VM_PERCENT"
    case Buffered => "BUFFERED"
    case SharedMem => "SHARED"
    case SwapAvail => "SWAP_AVAIL"
    case SwapTotal => "SWAP_TOTAL"
    case SwapPercent => "SWAP_PERCENT"
  }

  const PID: Field := Pid
  const PPID: Field := Ppid
  const NAME: Field := Name
  const CPU_PCT: Field := CpuPercent
  const STAT: Field := Stat
  const CPU_TIME: Field := CpuTime
  const RESIDENT_MEM: Field := ResidentMemory
  const NUM_THREADS: Field := NumThreads
  const NUM_CHILD: Field := NumChildren
  const VM_AVAIL: Field := VmAvail
  const VM_TOTAL: Field := VmTotal
  const VM_PERCENT: Field := VmPercent
  const BUFFERED: Field := Buffered
  const SHARED: Field := SharedMem
  const SWAP_AVAIL: Field := SwapAvail
  const SWAP_TOTAL: Field := SwapTotal
  const SWAP_PERCENT: Field := SwapPercent

  const PROCESS_FIELDS: set<Field> :=
    {PID, PPID, NAME, CPU_PCT, STAT, CPU_TIME, RESIDENT_MEM, NUM_THREADS, NUM_CHILD}
  const SYSTEM_FIELDS: set<Field> :=
    {CPU_PCT, VM_AVAIL, VM_TOTAL, VM_PERCENT, BUFFERED, SHARED, SWAP_AVAIL, SWAP_TOTAL, SWAP_PERCENT}

  function FieldsOf(kind: Kind): set<Field>
  {
    if kind == ProcessKind then PROCESS_FIELDS else SYSTEM_FIELDS
  }

  /** `_frontend_cache`: field name to displayed value. */
  type FrontendCache = map<Field, Cell>

  /** The tracer caches a dispatcher can read, by tracer class name. */
  type Observed = map<string, Tracers.Cached>

  predicate WellObserved(obs: Observed)
  {
    forall k :: k in obs ==> Tracers.CacheFits(k, obs[k])
  }

  /** What a dispatcher has done, in order. */
  datatype Step =
    | Registered
    | CacheSetUp
    | MountTableWritten
    | TracersStarted
    | EndingHook
    | Deregistered
    | PoolFlagged
    | PoolCleared

  /** sigterm: before_ending, deregistration, flagging the pool, clearing it. */
  const SIGTERM_STEPS: seq<Step> := [EndingHook, Deregistered, PoolFlagged, PoolCleared]

  /**
   * How one iteration of a run loop ends: the loop goes on, it breaks on a
   * psutil not-found error, or an exception it does not catch escapes.
   */
  datatype RoundEnd = Continue | Break | Raise(fault: Fault)

  /*
   * ---------------------------------------------------------------------
   * Loading tracers
   * ---------------------------------------------------------------------
   */

  /**
   * get_tracer_class, as written, resolves `name` in the `_private` tracer
   * packages.  The names in a `loadable` set are meant to be of this kind
   * (and their classes to construct).
   */
  predicate Loads(importable: TracerLoader.Importable, name: string)
  {
    TracerLoader.GetTracerClass(TracerLoader.PRIVATE_TRACER_PATHS, importable, name).Ok?
  }

  /**
   * A name loads exactly when the first tracer package that imports defines
   * it: while std_tracer imports, a class only additional_tracer defines
   * never loads.
   */
  lemma LoadsFromFirstPackage(importable: TracerLoader.Importable, name: string)
    ensures var std, extra := TracerLoader.PRIVATE_TRACER_PATHS[0], TracerLoader.PRIVATE_TRACER_PATHS[1];
            && (std in importable ==> (Loads(importable, name) <==> TracerLoader.Defines(importable, std, name)))
            && (std !in importable ==> (Loads(importable, name) <==> TracerLoader.Defines(importable, extra, name)))
  {
    TracerLoader.GetTracerClassSearchesFirstImportable(TracerLoader.PRIVATE_TRACER_PATHS, importable, name);
  }

  /*
   * ---------------------------------------------------------------------
   * Frontend caches as values
   * ---------------------------------------------------------------------
   */

  /**
   * _setup_cache of the process dispatcher once psutil.Process(pid) has
   * succeeded: the identity fields, CPU time "0", NA elsewhere.
   */
  function ProcessCacheAtSetup(pid: int, view: Metrics.ProcessView): (c: FrontendCache)
    ensures c.Keys == PROCESS_FIELDS
  {
    map[PID := Text(Decimal.IntToString(pid)), PPID := Text(Decimal.IntToString(view.ppid)),
        NAME := Text(view.name), CPU_PCT := Text(NA), STAT := Text(NA), CPU_TIME := Text("0"),
        RESIDENT_MEM := Text(NA), NUM_THREADS := Text(NA), NUM_CHILD := Text(NA)]
  }

  /** The identity fields read back as the pid, the parent pid and the name. */
  lemma ProcessCacheAtSetupReadsBack(pid: int, view: Metrics.ProcessView)
    ensures Decimal.ParseInt(ProcessCacheAtSetup(pid, view)[PID].s) == pid
    ensures Decimal.ParseInt(ProcessCacheAtSetup(pid, view)[PPID].s) == view.ppid
    ensures ProcessCacheAtSetup(pid, view)[NAME] == Text(view.name)
    ensures Decimal.ParseInt(ProcessCacheAtSetup(pid, view)[CPU_TIME].s) == 0
    ensures forall k :: k in PROCESS_FIELDS - {PID, PPID, NAME, CPU_TIME} ==> ProcessCacheAtSetup(pid, view)[k] == Text(NA)
  {
    Decimal.IntRoundTrip(pid);
    Decimal.IntRoundTrip(view.ppid);
    Decimal.IntRoundTrip(0);
  }

  /** _setup_cache of the system dispatcher: every field NA. */
  function SystemCacheAtSetup(): (c: FrontendCache)
    ensures c.Keys == SYSTEM_FIELDS
    ensures forall k :: k in c ==> c[k] == Text(NA)
  {
    map k | k in SYSTEM_FIELDS :: Text(NA)
  }

  /**
   * The STAT refresh as written: it tests for a pool entry named "STAT",
   * which no tracer class has, and would then read the entry of
   * ProcessSTATTracerThread (a KeyError when that is absent).
   */
  function StatRefreshAsWritten(poolKeys: set<string>, obs: Observed, c: FrontendCache): (r: Result<FrontendCache>)
    requires WellObserved(obs)
    ensures r.Err? <==> StatGuardBreaks(poolKeys, obs)
    ensures r.Err? ==> r.fault == KeyError
    ensures Label(STAT) !in poolKeys ==> r == Ok(c)
    ensures r.Ok? && STAT in c ==> r.value.Keys == c.Keys
    ensures r.Ok? ==> forall k :: k in c && k != STAT ==> k in r.value && r.value[k] == c[k]
    ensures r.Ok? && Label(STAT) in poolKeys ==> STAT in r.value && r.value[STAT] == Text(obs[Tracers.PROCESS_STAT].stat)
  {
    if Label(STAT) in poolKeys then
      if Tracers.PROCESS_STAT in obs then Ok(c[STAT := Text(Tracers.StatInfo(obs[Tracers.PROCESS_STAT]))])
      else Err(KeyError)
    else Ok(c)
  }

  /**
   * The pool holds an entry named "STAT" but no stat tracer, so the STAT
   * line of _update_cache raises KeyError.
   */
  predicate StatGuardBreaks(poolKeys: set<string>, obs: Observed)
  {
    Label(STAT) in poolKeys && Tracers.PROCESS_STAT !in obs
  }

  /** The STAT refresh as intended: guarded by the stat tracer's own class name. */
  function StatRefresh(obs: Observed, c: FrontendCache): (r: FrontendCache)
    requires WellObserved(obs)
    ensures STAT in c ==> r.Keys == c.Keys
  {
    if Tracers.PROCESS_STAT in obs then c[STAT := Text(Tracers.StatInfo(obs[Tracers.PROCESS_STAT]))] else c
  }

  /**
   * As written, a running stat tracer never reaches the frontend: with the
   * pool holding ProcessSTATTracerThread (and no "STAT"), the STAT field
   * stays NA, where the intended refresh shows the cached status.
   */
  lemma StatNeverShown()
    ensures var obs := map[Tracers.PROCESS_STAT := Tracers.StatCache("S")];
            var c := ProcessCacheAtSetup(7, Metrics.ProcessView("sh", 1, [], None, "S", true));
            && WellObserved(obs)
            && StatRefreshAsWritten({Tracers.PROCESS_STAT}, obs, c) == Ok(c)
            && c[STAT] == Text(NA)
            && StatRefresh(obs, c)[STAT] == Text("S")
  {
  }

  /** The intended refresh shows the stat tracer's status exactly when it runs. */
  lemma StatRefreshShowsStatus(obs: Observed, c: FrontendCache)
    requires WellObserved(obs) && STAT in c
    ensures Tracers.PROCESS_STAT in obs ==> StatRefresh(obs, c)[STAT] == Text(obs[Tracers.PROCESS_STAT].stat)
    ensures Tracers.PROCESS_STAT !in obs ==> StatRefresh(obs, c) == c
    ensures StatRefresh(obs, c).Keys == c.Keys
  {
  }

  /**
   * The lines of the process dispatcher's _update_cache before its STAT
   * line, after the CPU-time watermark has become `cpuTime`: every field
   * whose tracer is in the pool takes that tracer's cached value.
   */
  function RefreshBeforeStat(c: FrontendCache, obs: Observed, cpuTime: real): (r: FrontendCache)
    requires WellObserved(obs)
    ensures c.Keys == PROCESS_FIELDS ==> r.Keys == PROCESS_FIELDS
  {
    var c1 := c[CPU_TIME := Num(cpuTime)];
    var c2 := if Tracers.PROCESS_CPU in obs then c1[CPU_PCT := Num(Tracers.CpuPercent(obs[Tracers.PROCESS_CPU]))] else c1;
    var c3 := if Tracers.PROCESS_MEM in obs
              then c2[RESIDENT_MEM := Units.HumanBytes(Tracers.ResidentMem(obs[Tracers.PROCESS_MEM]))] else c2;
    if Tracers.PROCESS_CHILD in obs
    then var n := Tracers.ThreadChildNum(obs[Tracers.PROCESS_CHILD]);
         c3[NUM_THREADS := Tracers.IntCell(n.0)][NUM_CHILD := Tracers.IntCell(n.1)]
    else c3
  }

  /**
   * _update_cache of the process dispatcher as written: the fields above,
   * then the STAT line, which tests the pool for "STAT" and can raise
   * KeyError (the fields written before it stay written).
   */
  function RefreshProcessFields(c: FrontendCache, obs: Observed, cpuTime: real, poolKeys: set<string>): (r: Result<FrontendCache>)
    requires WellObserved(obs)
    ensures r.Err? <==> StatGuardBreaks(poolKeys, obs)
    ensures r.Err? ==> r.fault == KeyError
    ensures c.Keys == PROCESS_FIELDS && r.Ok? ==> r.value.Keys == PROCESS_FIELDS
  {
    StatRefreshAsWritten(poolKeys, obs, RefreshBeforeStat(c, obs, cpuTime))
  }

  /**
   * The cache _update_cache leaves behind: the refreshed one, or, when the
   * STAT line raises, the one with the fields before STAT already written.
   */
  function RefreshedCache(c: FrontendCache, obs: Observed, cpuTime: real, poolKeys: set<string>): (r: FrontendCache)
    requires WellObserved(obs)
    ensures c.Keys == PROCESS_FIELDS ==> r.Keys == PROCESS_FIELDS
    ensures StatGuardBreaks(poolKeys, obs) ==> r == RefreshBeforeStat(c, obs, cpuTime)
    ensures !StatGuardBreaks(poolKeys, obs) ==> Ok(r) == RefreshProcessFields(c, obs, cpuTime, poolKeys)
  {
    var r := RefreshProcessFields(c, obs, cpuTime, poolKeys);
    if r.Ok? then r.value else RefreshBeforeStat(c, obs, cpuTime)
  }

  /**
   * The lines before STAT take each field from its own tracer only: PID,
   * PPID, NAME and STAT are left alone, CPU_TIME shows the watermark, a
   * field whose tracer is absent keeps its value, and one whose tracer runs
   * shows that tracer's cached reading (threads and children in the
   * getter's order).
   */
  lemma BeforeStatTakesFieldsFromTracers(c: FrontendCache, obs: Observed, cpuTime: real)
    requires WellObserved(obs) && c.Keys == PROCESS_FIELDS
    ensures var r := RefreshBeforeStat(c, obs, cpuTime);
            && r[PID] == c[PID] && r[PPID] == c[PPID] && r[NAME] == c[NAME] && r[STAT] == c[STAT]
            && r[CPU_TIME] == Num(cpuTime)
            && r[CPU_PCT] == (if Tracers.PROCESS_CPU in obs then Num(obs[Tracers.PROCESS_CPU].percent) else c[CPU_PCT])
            && r[RESIDENT_MEM] == (if Tracers.PROCESS_MEM in obs
                                   then Units.HumanBytes(obs[Tracers.PROCESS_MEM].rss) else c[RESIDENT_MEM])
            && r[NUM_THREADS] == (if Tracers.PROCESS_CHILD in obs
                                  then Tracers.IntCell(obs[Tracers.PROCESS_CHILD].threads) else c[NUM_THREADS])
            && r[NUM_CHILD] == (if Tracers.PROCESS_CHILD in obs
                                then Tracers.IntCell(obs[Tracers.PROCESS_CHILD].children) else c[NUM_CHILD])
  {
  }

  /**
   * The whole process refresh as written: KeyError exactly when the pool
   * has a "STAT" entry but no stat tracer; otherwise every field but STAT
   * is as the lines before it left it, and STAT shows the stat tracer's
   * status only when the pool has a "STAT" entry, which no tracer class
   * is named, so in practice STAT keeps its value.
   */
  lemma ProcessRefreshTakesFieldsFromTracers(c: FrontendCache, obs: Observed, cpuTime: real, poolKeys: set<string>)
    requires WellObserved(obs) && c.Keys == PROCESS_FIELDS
    ensures var r := RefreshProcessFields(c, obs, cpuTime, poolKeys);
            var b := RefreshBeforeStat(c, obs, cpuTime);
            && (r.Err? <==> Label(STAT) in poolKeys && Tracers.PROCESS_STAT !in obs)
            && (r.Err? ==> r.fault == KeyError)
            && (r.Ok? ==> forall k :: k in PROCESS_FIELDS && k != STAT ==> r.value[k] == b[k])
            && (r.Ok? ==> r.value[STAT] == (if Label(STAT) in poolKeys then Text(obs[Tracers.PROCESS_STAT].stat) else c[STAT]))
  {
    var b := RefreshBeforeStat(c, obs, cpuTime);
    assert b[STAT] == c[STAT];
  }

  /** Refreshing twice from unchanged tracers gives the same cache as once, and fails alike. */
  lemma ProcessRefreshIsIdempotent(c: FrontendCache, obs: Observed, cpuTime: real, poolKeys: set<string>)
    requires WellObserved(obs)
    ensures RefreshBeforeStat(RefreshBeforeStat(c, obs, cpuTime), obs, cpuTime) == RefreshBeforeStat(c, obs, cpuTime)
    ensures var r := RefreshProcessFields(c, obs, cpuTime, poolKeys);
            r.Ok? ==> RefreshProcessFields(r.value, obs, cpuTime, poolKeys) == r
  {
    var b := RefreshBeforeStat(c, obs, cpuTime);
    if Label(STAT) in poolKeys && Tracers.PROCESS_STAT in obs {
      var x := Text(Tracers.StatInfo(obs[Tracers.PROCESS_STAT]));
      BeforeStatIgnoresStat(b, obs, cpuTime, x);
      assert RefreshBeforeStat(b, obs, cpuTime) == b;
      assert RefreshBeforeStat(b, obs, cpuTime)[STAT := x][STAT := x] == b[STAT := x];
    } else {
      assert RefreshBeforeStat(b, obs, cpuTime) == b;
    }
  }

  /** The lines before STAT neither read nor write STAT. */
  lemma BeforeStatIgnoresStat(c: FrontendCache, obs: Observed, cpuTime: real, x: Cell)
    requires WellObserved(obs)
    ensures RefreshBeforeStat(c[STAT := x], obs, cpuTime) == RefreshBeforeStat(c, obs, cpuTime)[STAT := x]
  {
  }

  /**
   * The swap fields as written: SWAP_TOTAL shows the second element of
   * get_cached_swap_info, which is the used swap, and SWAP_PERCENT divides
   * free swap by used swap.
   */
  function SwapRefreshAsWritten(s: Tracers.Cached, c: FrontendCache): FrontendCache
    requires s.SwapCache?
  {
    var info := Tracers.SwapInfo(s);
    c[SWAP_AVAIL := Units.HumanBytes(info.0 as real)]
     [SWAP_TOTAL := Units.HumanBytes(info.1 as real)]
     [SWAP_PERCENT := Units.UsagePercent(info.0 as real, info.1 as real)]
  }

  /**
   * The swap fields as intended, following the memory fields: SWAP_TOTAL
   * shows free plus used, and SWAP_PERCENT the free share of the total.
   */
  function SwapRefresh(s: Tracers.Cached, c: FrontendCache): FrontendCache
    requires s.SwapCache?
  {
    var info := Tracers.SwapInfo(s);
    c[SWAP_AVAIL := Units.HumanBytes(info.0 as real)]
     [SWAP_TOTAL := Units.HumanBytes((info.0 + info.1) as real)]
     [SWAP_PERCENT := Units.UsagePercent(info.0 as real, (info.0 + info.1) as real)]
  }

  /**
   * The intended swap fields show the cached total, and the free percentage
   * lies between 0 and 100 whenever the used swap is within the total;
   * a zero total shows "0.00%" as VM_PERCENT does.
   */
  lemma SwapRefreshShowsTotalAndFreeShare(s: Tracers.Cached, c: FrontendCache)
    requires s.SwapCache?
    ensures SwapRefresh(s, c)[SWAP_TOTAL] == Units.HumanBytes(s.total as real)
    ensures SwapRefresh(s, c)[SWAP_AVAIL] == Units.HumanBytes((s.total - s.used) as real)
    ensures s.total == 0 <==> SwapRefresh(s, c)[SWAP_PERCENT] == Text("0.00%")
    ensures 0 <= s.used <= s.total && s.total > 0 ==>
              var p := SwapRefresh(s, c)[SWAP_PERCENT];
              p.Percent? && 0.0 <= p.x <= 100.0 && p.x * s.total as real == (s.total - s.used) as real * 100.0
  {
    SwapRefreshLookups(s, c);
    var p := Units.UsagePercent((s.total - s.used) as real, s.total as real);
    if 0 <= s.used <= s.total && s.total > 0 {
      PercentBetween((s.total - s.used) as real, s.total as real, p.x);
    }
  }

  /** The three swap fields after the intended refresh, read back from the cache. */
  lemma SwapRefreshLookups(s: Tracers.Cached, c: FrontendCache)
    requires s.SwapCache?
    ensures SwapRefresh(s, c)[SWAP_TOTAL] == Units.HumanBytes(s.total as real)
    ensures SwapRefresh(s, c)[SWAP_AVAIL] == Units.HumanBytes((s.total - s.used) as real)
    ensures SwapRefresh(s, c)[SWAP_PERCENT] == Units.UsagePercent((s.total - s.used) as real, s.total as real)
  {
    assert (s.total - s.used) + s.used == s.total;
  }

  lemma PercentBetween(part: real, total: real, x: real)
    requires 0.0 <= part <= total && total > 0.0 && x * total == part * 100.0
    ensures 0.0 <= x <= 100.0
  {
  }

  /**
   * As written, with 100 bytes of swap of which 25 are used, SWAP_TOTAL
   * shows 25 B instead of 100 B and SWAP_PERCENT shows 300%.
   */
  lemma SwapFieldsMisreported()
    ensures var s := Tracers.SwapCache(100, 25);
            var c := SystemCacheAtSetup();
            && SwapRefreshAsWritten(s, c)[SWAP_TOTAL] == Scaled(25.0, "B")
            && SwapRefresh(s, c)[SWAP_TOTAL] == Scaled(100.0, "B")
            && SwapRefreshAsWritten(s, c)[SWAP_PERCENT] == Percent(300.0)
  {
    Units.NoDivisionWhenSmall(25.0, 1024.0);
    Units.NoDivisionWhenSmall(100.0, 1024.0);
  }

  /** The CPU part of the system _update_cache: the mean of the cores. */
  function CpuStage(c: FrontendCache, obs: Observed): FrontendCache
    requires WellObserved(obs)
  {
    if Tracers.SYSTEM_CPU in obs
    then c[CPU_PCT := Percent(Units.Mean(Tracers.CoresInfo(obs[Tracers.SYSTEM_CPU])))] else c
  }

  /** The memory part of the system _update_cache. */
  function MemStage(c: FrontendCache, obs: Observed): FrontendCache
    requires WellObserved(obs)
  {
    if Tracers.SYSTEM_MEM in obs
    then var m := Tracers.VmInfo(obs[Tracers.SYSTEM_MEM]);
         c[VM_AVAIL := Units.HumanBytes(m.0 as real)]
          [VM_TOTAL := Units.HumanBytes(m.1 as real)]
          [VM_PERCENT := Units.UsagePercent(m.0 as real, m.1 as real)]
          [BUFFERED := Units.HumanBytes(m.2 as real)]
          [SHARED := Units.HumanBytes(m.3 as real)]
    else c
  }

  /** The swap part of the system _update_cache, with the swap fields as written. */
  function SwapStage(c: FrontendCache, obs: Observed): FrontendCache
    requires WellObserved(obs)
  {
    if Tracers.SYSTEM_SWAP in obs then SwapRefreshAsWritten(obs[Tracers.SYSTEM_SWAP], c) else c
  }

  /** _update_cache of the system dispatcher: CPU, then memory, then swap. */
  function RefreshSystemFields(c: FrontendCache, obs: Observed): (r: FrontendCache)
    requires WellObserved(obs)
    ensures c.Keys == SYSTEM_FIELDS ==> r.Keys == SYSTEM_FIELDS
  {
    SwapStage(MemStage(CpuStage(c, obs), obs), obs)
  }

  /** The CPU stage sets CPU% to the mean of the cores; the VM and swap fields keep their values. */
  lemma CpuStageFields(c: FrontendCache, obs: Observed, lo: real, hi: real)
    requires WellObserved(obs) && c.Keys == SYSTEM_FIELDS
    ensures var r := CpuStage(c, obs);
            && r.Keys == SYSTEM_FIELDS
            && r[VM_AVAIL] == c[VM_AVAIL] && r[VM_TOTAL] == c[VM_TOTAL] && r[VM_PERCENT] == c[VM_PERCENT]
            && r[BUFFERED] == c[BUFFERED] && r[SHARED] == c[SHARED]
            && r[SWAP_AVAIL] == c[SWAP_AVAIL] && r[SWAP_TOTAL] == c[SWAP_TOTAL] && r[SWAP_PERCENT] == c[SWAP_PERCENT]
    ensures Tracers.SYSTEM_CPU !in obs ==> CpuStage(c, obs) == c
    ensures Tracers.SYSTEM_CPU in obs && (forall i :: 0 <= i < |obs[Tracers.SYSTEM_CPU].percents| ==>
                                           lo <= obs[Tracers.SYSTEM_CPU].percents[i] <= hi)
            ==> CpuStage(c, obs)[CPU_PCT].Percent? && lo <= CpuStage(c, obs)[CPU_PCT].x <= hi
  {
    if Tracers.SYSTEM_CPU in obs {
      var cores := obs[Tracers.SYSTEM_CPU].percents;
      if forall i :: 0 <= i < |cores| ==> lo <= cores[i] <= hi {
        Units.MeanBounds(cores, lo, hi);
      }
    }
  }

  /** The memory stage sets the VM fields from the memory tracer; CPU% and the swap fields keep their values. */
  lemma MemStageFields(c: FrontendCache, obs: Observed)
    requires WellObserved(obs) && c.Keys == SYSTEM_FIELDS
    ensures var r := MemStage(c, obs);
            && r.Keys == SYSTEM_FIELDS
            && r[CPU_PCT] == c[CPU_PCT]
            && r[SWAP_AVAIL] == c[SWAP_AVAIL] && r[SWAP_TOTAL] == c[SWAP_TOTAL] && r[SWAP_PERCENT] == c[SWAP_PERCENT]
    ensures Tracers.SYSTEM_MEM !in obs ==> MemStage(c, obs) == c
    ensures Tracers.SYSTEM_MEM in obs ==>
              var v := obs[Tracers.SYSTEM_MEM];
              var r := MemStage(c, obs);
              && r[VM_AVAIL] == Units.HumanBytes(v.avail as real)
              && r[VM_TOTAL] == Units.HumanBytes(v.total as real)
              && r[VM_PERCENT] == Units.UsagePercent(v.avail as real, v.total as real)
  {
  }

  /**
   * The swap stage sets the swap fields from the swap tracer as written:
   * SWAP_AVAIL the free swap, SWAP_TOTAL the used swap and SWAP_PERCENT
   * free over used; CPU% and the VM fields keep their values.
   */
  lemma SwapStageFields(c: FrontendCache, obs: Observed)
    requires WellObserved(obs) && c.Keys == SYSTEM_FIELDS
    ensures var r := SwapStage(c, obs);
            && r[CPU_PCT] == c[CPU_PCT]
            && r[VM_AVAIL] == c[VM_AVAIL] && r[VM_TOTAL] == c[VM_TOTAL] && r[VM_PERCENT] == c[VM_PERCENT]
            && r[BUFFERED] == c[BUFFERED] && r[SHARED] == c[SHARED]
    ensures Tracers.SYSTEM_SWAP !in obs ==> SwapStage(c, obs) == c
    ensures Tracers.SYSTEM_SWAP in obs ==>
              var s := obs[Tracers.SYSTEM_SWAP];
              var r := SwapStage(c, obs);
              && r[SWAP_AVAIL] == Units.HumanBytes((s.total - s.used) as real)
              && r[SWAP_TOTAL] == Units.HumanBytes(s.used as real)
              && r[SWAP_PERCENT] == Units.UsagePercent((s.total - s.used) as real, s.used as real)
  {
  }

  /**
   * The system refresh: CPU% is the mean of the per-core percentages (so it
   * lies between the least and the greatest core), the VM fields come from
   * the memory tracer, the swap fields are those of SwapRefreshAsWritten
   * (the used swap shown as the total), and a field whose tracer is absent
   * keeps its value.
   */
  lemma SystemRefreshTakesFieldsFromTracers(c: FrontendCache, obs: Observed, lo: real, hi: real)
    requires WellObserved(obs) && c.Keys == SYSTEM_FIELDS
    ensures var r := RefreshSystemFields(c, obs);
            && (Tracers.SYSTEM_CPU !in obs ==> r[CPU_PCT] == c[CPU_PCT])
            && (Tracers.SYSTEM_CPU in obs && (forall i :: 0 <= i < |obs[Tracers.SYSTEM_CPU].percents| ==>
                                                lo <= obs[Tracers.SYSTEM_CPU].percents[i] <= hi)
                ==> r[CPU_PCT].Percent? && lo <= r[CPU_PCT].x <= hi)
            && (Tracers.SYSTEM_MEM !in obs ==>
                  && r[VM_AVAIL] == c[VM_AVAIL] && r[VM_TOTAL] == c[VM_TOTAL] && r[VM_PERCENT] == c[VM_PERCENT]
                  && r[BUFFERED] == c[BUFFERED] && r[SHARED] == c[SHARED])
            && (Tracers.SYSTEM_MEM in obs ==>
                  var v := obs[Tracers.SYSTEM_MEM];
                  && r[VM_AVAIL] == Units.HumanBytes(v.avail as real)
                  && r[VM_TOTAL] == Units.HumanBytes(v.total as real)
                  && r[VM_PERCENT] == Units.UsagePercent(v.avail as real, v.total as real))
            && (Tracers.SYSTEM_SWAP !in obs ==>
                  r[SWAP_AVAIL] == c[SWAP_AVAIL] && r[SWAP_TOTAL] == c[SWAP_TOTAL] && r[SWAP_PERCENT] == c[SWAP_PERCENT])
            && (Tracers.SYSTEM_SWAP in obs ==>
                  var s := obs[Tracers.SYSTEM_SWAP];
                  && r[SWAP_AVAIL] == Units.HumanBytes((s.total - s.used) as real)
                  && r[SWAP_TOTAL] == Units.HumanBytes(s.used as real)
                  && r[SWAP_PERCENT] == Units.UsagePercent((s.total - s.used) as real, s.used as real))
  {
    var c1 := CpuStage(c, obs);
    var c2 := MemStage(c1, obs);
    CpuStageFields(c, obs, lo, hi);
    MemStageFields(c1, obs);
    SwapStageFields(c2, obs);
  }

  /**
   * VM_PERCENT after the system refresh is the available share of the total
   * memory, and "0.00%" when the total is zero.
   */
  lemma VmPercentIsAvailableShare(c: FrontendCache, obs: Observed)
    requires WellObserved(obs) && c.Keys == SYSTEM_FIELDS && Tracers.SYSTEM_MEM in obs
    ensures var r := RefreshSystemFields(c, obs);
            var v := obs[Tracers.SYSTEM_MEM];
            && (v.total == 0 <==> r[VM_PERCENT] == Text("0.00%"))
            && (v.total != 0 ==> r[VM_PERCENT].Percent? && r[VM_PERCENT].x * v.total as real == v.avail as real * 100.0)
  {
    SystemRefreshTakesFieldsFromTracers(c, obs, 0.0, 0.0);
    var v := obs[Tracers.SYSTEM_MEM];
    var u := Units.UsagePercent(v.avail as real, v.total as real);
    assert RefreshSystemFields(c, obs)[VM_PERCENT] == u;
  }

  /** Refreshing twice from unchanged tracers gives the same cache as once. */
  lemma SystemRefreshIsIdempotent(c: FrontendCache, obs: Observed)
    requires WellObserved(obs)
    ensures RefreshSystemFields(RefreshSystemFields(c, obs), obs) == RefreshSystemFields(c, obs)
  {
  }

  /** One CPU-time reading per iteration of the process run loop. */
  function CpuTimeReadings(schedule: seq<Metrics.Snapshot>, pid: int): (r: seq<real>)
    ensures |r| == |schedule|
    ensures forall i :: 0 <= i < |schedule| ==> r[i] == Metrics.TotalCpuTime(Metrics.CpuReading(schedule[i], pid))
  {
    seq(|schedule|, i requires 0 <= i < |schedule| => Metrics.TotalCpuTime(Metrics.CpuReading(schedule[i], pid)))
  }

  /*
   * ---------------------------------------------------------------------
   * The thread pool
   * ---------------------------------------------------------------------
   */

  /** A thread kept in a dispatcher's pool: a tracer or a child dispatcher. */
  datatype Pooled = Tracer(t: Tracers.TracerThread) | Child(d: Dispatcher)
  {
    /** `thread.__class__.__name__`, the pool key. */
    function ClassName(): string
    {
      match this
      case Tracer(t) => t.className
      case Child(d) => ClassOf(d.kind)
    }

    /** The object whose should_exit sigterm raises. */
    function Handle(): Thread
    {
      match this
      case Tracer(t) => t.thread
      case Child(d) => d.thread
    }
  }

  /*
   * ---------------------------------------------------------------------
   * DispatcherController
   * ---------------------------------------------------------------------
   */

  class Controller {
    /** The active dispatchers by pid. */
    var dispatchers: map<int, Dispatcher>
    /** Every pid ever registered; never shrinks. */
    var allPids: set<int>

    /** Every active pid has been recorded. */
    predicate Valid()
      reads this
    {
      dispatchers.Keys <= allPids
    }

    constructor ()
      ensures dispatchers == map[] && allPids == {}
      ensures Valid()
    {
      dispatchers := map[];
      allPids := {};
    }

    function Threads(): set<Thread>
      reads this
    {
      set p | p in dispatchers :: dispatchers[p].thread
    }

    /** get_current_active_pids: the registered pids, all of them recorded. */
    function ActivePids(): (r: set<int>)
      reads this
      ensures Valid() ==> r <= allPids
      ensures forall p :: p in r <==> p in dispatchers
    {
      dispatchers.Keys
    }

    /** register_dispatcher: a later registration under the same pid replaces the earlier. */
    method Register(pid: int, d: Dispatcher)
      requires Valid()
      modifies this
      ensures dispatchers == old(dispatchers)[pid := d]
      ensures allPids == old(allPids) + {pid}
      ensures Valid()
    {
      dispatchers := dispatchers[pid := d];
      allPids := allPids + {pid};
    }

    /** remove_dispatcher: an absent pid is ignored; all_pids keeps the pid. */
    method Remove(pid: int)
      requires Valid()
      modifies this
      ensures dispatchers == old(dispatchers) - {pid}
      ensures allPids == old(allPids)
      ensures Valid()
    {
      if pid in dispatchers {
        dispatchers := dispatchers - {pid};
      }
    }

    /** terminate_all_dispatchers: flag every registered dispatcher, then forget them. */
    method TerminateAll()
      requires Valid()
      modifies this, Threads()
      ensures forall p :: p in old(dispatchers) ==> old(dispatchers)[p].thread.shouldExit
      ensures dispatchers == map[] && allPids == old(allPids)
      ensures Valid()
    {
      var pids := dispatchers.Keys;
      while pids != {}
        invariant pids <= dispatchers.Keys
        invariant dispatchers == old(dispatchers) && allPids == old(allPids)
        invariant forall p :: p in dispatchers && p !in pids ==> dispatchers[p].thread.shouldExit
        decreases pids
      {
        NonEmptyHasMember(pids);
        var p :| p in pids;
        dispatchers[p].thread.shouldExit := true;
        pids := pids - {p};
      }
      dispatchers := map[];
    }

    /**
     * collect_all_process_info: every non-system dispatcher's frontend cache
     * by pid; a dispatcher whose construction failed before its cache was
     * set up makes the whole call fail with an AttributeError.
     */
    method CollectAllProcessInfo() returns (r: Result<map<int, FrontendCache>>)
      ensures r.Err? <==> exists p :: p in dispatchers && p != SYSTEM_PID && dispatchers[p].cache.None?
      ensures r.Err? ==> r.fault == AttributeError
      ensures r.Ok? ==> r.value.Keys == dispatchers.Keys - {SYSTEM_PID}
      ensures r.Ok? ==> forall p :: p in r.value ==> dispatchers[p].cache == Some(r.value[p])
    {
      var pids := dispatchers.Keys;
      var acc: map<int, FrontendCache> := map[];
      while pids != {}
        invariant pids <= dispatchers.Keys
        invariant acc.Keys == dispatchers.Keys - pids - {SYSTEM_PID}
        invariant forall p :: p in acc ==> dispatchers[p].cache == Some(acc[p])
        decreases pids
      {
        NonEmptyHasMember(pids);
        var p :| p in pids;
        if p != SYSTEM_PID {
          var d := dispatchers[p];
          if d.cache.None? {
            return Err(AttributeError);
          }
          acc := acc[p := d.cache.value];
        }
        pids := pids - {p};
      }
      return Ok(acc);
    }

    /**
     * collect_system_info: the system dispatcher's cache; a KeyError when no
     * system dispatcher is registered, an AttributeError before its setup.
     */
    method CollectSystemInfo() returns (r: Result<FrontendCache>)
      ensures SYSTEM_PID !in dispatchers <==> r == Err(KeyError)
      ensures r.Err? ==> r.fault == KeyError || r.fault == AttributeError
      ensures SYSTEM_PID in dispatchers ==> (r.Ok? <==> dispatchers[SYSTEM_PID].cache.Some?)
      ensures r.Ok? ==> dispatchers[SYSTEM_PID].cache == Some(r.value)
    {
      if SYSTEM_PID !in dispatchers {
        return Err(KeyError);
      }
      var d := dispatchers[SYSTEM_PID];
      if d.cache.None? {
        return Err(AttributeError);
      }
      return Ok(d.cache.value);
    }
  }

  /** Removing a pid twice is removing it once, and removing an absent pid changes nothing. */
  lemma RemoveIsIdempotent(m: map<int, Dispatcher>, pid: int)
    ensures (m - {pid}) - {pid} == m - {pid}
    ensures pid !in m ==> m - {pid} == m
  {
    assert pid !in m ==> (forall p :: p in m - {pid} <==> p in m);
  }

  /*
   * ---------------------------------------------------------------------
   * Dispatchers
   * ---------------------------------------------------------------------
   */

  class Dispatcher {
    const tracePid: int
    const kind: Kind
    const basename: string
    const tracersToLoad: seq<string>
    const controller: Controller
    const thread: Thread
    /** The tracer and child-dispatcher threads by class name. */
    var threadPool: map<string, Pooled>
    /** `_frontend_cache`; None until _setup_cache has run. */
    var cache: Option<FrontendCache>
    /** `_cached_last_cpu_time`. */
    var lastCpuTime: real
    /** What before_ending wrote to `<basename>.<pid>.cputime`. */
    var cpuTimeFile: Option<real>
    /** The lines of `<basename>.mnt.tsv`. */
    var mountTable: seq<Row>
    ghost var steps: seq<Step>

    function PoolTracers(): set<Tracers.TracerThread>
      reads this`threadPool
    {
      set k | k in threadPool && threadPool[k].Tracer? :: threadPool[k].t
    }

    function PoolHandles(): set<Thread>
      reads this`threadPool
    {
      set k | k in threadPool :: threadPool[k].Handle()
    }

    ghost predicate Valid()
      reads this`threadPool, this`cache, PoolTracers()
    {
      PoolValid() && CacheShaped()
    }

    /** The pool part of Valid: thread class, system pid, and the pool's entries. */
    ghost predicate PoolValid()
      reads this`threadPool, PoolTracers()
    {
      && thread.className == ClassOf(kind)
      && (kind == SystemKind ==> tracePid == SYSTEM_PID)
      && (forall k :: k in threadPool ==> threadPool[k].ClassName() == k)
      && (forall k :: k in threadPool && threadPool[k].Tracer? ==> threadPool[k].t.Valid())
    }

    /** The cache part of Valid: a set-up cache has exactly its kind's fields. */
    ghost predicate CacheShaped()
      reads this`cache
    {
      cache.Some? ==> cache.value.Keys == FieldsOf(kind)
    }

    /** The caches of the tracers in the pool, by class name. */
    function Observe(): (obs: Observed)
      reads this`threadPool, PoolTracers()`cache
      ensures obs.Keys <= threadPool.Keys
    {
      map k | k in threadPool && threadPool[k].Tracer? :: threadPool[k].t.cache
    }

    lemma ObserveIsWellFormed()
      requires Valid()
      ensures WellObserved(Observe())
    {
    }

    /** What a tracer started by this dispatcher traces. */
    function Tracee(): string
    {
      if kind == ProcessKind then Decimal.IntToString(tracePid) else "sys"
    }

    /**
     * The base constructor: an empty pool, should_exit False, and the
     * dispatcher registered under its pid before anything else can fail.
     */
    constructor (tracePid: int, kind: Kind, basename: string, tracersToLoad: seq<string>, controller: Controller)
      requires controller.Valid()
      requires kind == SystemKind ==> tracePid == SYSTEM_PID
      modifies controller
      ensures this.tracePid == tracePid && this.kind == kind && this.basename == basename
      ensures this.tracersToLoad == tracersToLoad && this.controller == controller
      ensures fresh(thread) && !thread.shouldExit
      ensures threadPool == map[] && cache.None? && lastCpuTime == 0.0 && cpuTimeFile.None? && mountTable == []
      ensures steps == [Registered]
      ensures controller.dispatchers == old(controller.dispatchers)[tracePid := this]
      ensures controller.allPids == old(controller.allPids) + {tracePid}
      ensures controller.Valid() && Valid()
    {
      this.tracePid := tracePid;
      this.kind := kind;
      this.basename := basename;
      this.tracersToLoad := tracersToLoad;
      this.controller := controller;
      thread := new Thread(ClassOf(kind));
      threadPool := map[];
      cache := None;
      lastCpuTime := 0.0;
      cpuTimeFile := None;
      mountTable := [];
      steps := [Registered];
      new;
      controller.Register(tracePid, this);
    }

    /** append_threadpool: keyed by class name, so a thread replaces any earlier one of its class. */
    method AppendThreadpool(p: Pooled)
      requires Valid()
      requires p.Tracer? ==> p.t.Valid()
      modifies this`threadPool
      ensures threadPool == old(threadPool)[p.ClassName() := p]
      ensures Valid()
    {
      threadPool := threadPool[p.ClassName() := p];
    }

    /** A tracer as start_tracers constructs it for this dispatcher, before its first sample. */
    predicate Unstarted(t: Tracers.TracerThread)
      reads t, t.thread
    {
      t.tracee == Tracee() && t.basename == basename && t.cache == Tracers.InitialCache(t.className)
      && !t.thread.shouldExit
    }

    /** A tracer start_tracers has just constructed and pooled under `k`. */
    twostate predicate NewTracer(k: string)
      reads this`threadPool
    {
      k in threadPool && threadPool[k].Tracer? && fresh(threadPool[k].t) && fresh(threadPool[k].t.thread)
    }

    /**
     * `name` is one that start_tracers manages to construct from `names`:
     * get_tracer_class resolves it (it is in `loadable`), and for a process
     * dispatcher the pid is still alive (otherwise the tracer's constructor
     * raises and is skipped).
     */
    predicate Started(names: seq<string>, loadable: set<string>, snap: Metrics.Snapshot, name: string)
    {
      name in names && (kind == SystemKind || tracePid in snap) && name in loadable
    }

    /** One iteration of start_tracers: construct `name` and pool it, or skip it. */
    method StartTracer(name: string, loadable: set<string>, snap: Metrics.Snapshot)
      requires Valid()
      modifies this`threadPool
      ensures Valid()
      ensures var starts := Started([name], loadable, snap, name);
              && (starts ==> NewTracer(name) && Unstarted(threadPool[name].t) && threadPool.Keys == old(threadPool).Keys + {name})
              && (!starts ==> threadPool == old(threadPool))
              && (forall k :: k in old(threadPool) && k != name ==> threadPool[k] == old(threadPool)[k])
    {
      if name in loadable {
        if kind == ProcessKind {
          var r := Tracers.NewProcessTracer(name, basename, tracePid, snap);
          if r.Ok? {
            AppendThreadpool(Tracer(r.value));
          }
        } else {
          var t := Tracers.NewSystemTracer(name, basename);
          AppendThreadpool(Tracer(t));
        }
      }
    }

    /**
     * start_tracers: every name of tracers_to_load that loads is constructed
     * with this dispatcher's tracee and pooled under its name; a name that
     * fails is skipped.  Tracers already in the pool under other names stay.
     */
    method StartTracers(loadable: set<string>, snap: Metrics.Snapshot)
      requires Valid()
      modifies this`threadPool, this`steps
      ensures Valid()
      ensures steps == old(steps) + [TracersStarted]
      ensures forall k :: k in threadPool <==> k in old(threadPool) || Started(tracersToLoad, loadable, snap, k)
      ensures forall k :: k in threadPool && !Started(tracersToLoad, loadable, snap, k) ==> threadPool[k] == old(threadPool)[k]
      ensures forall k :: Started(tracersToLoad, loadable, snap, k) ==> NewTracer(k) && Unstarted(threadPool[k].t)
    {
      var i := 0;
      ghost var started: set<string> := {};
      while i < |tracersToLoad|
        invariant 0 <= i <= |tracersToLoad|
        invariant Valid() && steps == old(steps)
        invariant forall k :: k in started <==> Started(tracersToLoad[..i], loadable, snap, k)
        invariant forall k :: k in threadPool <==> k in old(threadPool) || k in started
        invariant forall k :: k in threadPool && k !in started ==> threadPool[k] == old(threadPool)[k]
        invariant forall k :: k in started ==> NewTracer(k) && Unstarted(threadPool[k].t)
      {
        var name := tracersToLoad[i];
        assert forall k :: k in tracersToLoad[..i + 1] <==> k in tracersToLoad[..i] || k == name;
        StartTracer(name, loadable, snap);
        if Started([name], loadable, snap, name) {
          started := started + {name};
        }
        i := i + 1;
      }
      assert tracersToLoad[..i] == tracersToLoad;
      steps := steps + [TracersStarted];
    }

    /** before_ending: the process dispatcher records its CPU time; the system one does nothing. */
    method BeforeEnding()
      modifies this`cpuTimeFile
      ensures kind == ProcessKind ==> cpuTimeFile == Some(lastCpuTime)
      ensures kind == SystemKind ==> cpuTimeFile == old(cpuTimeFile)
    {
      if kind == ProcessKind {
        cpuTimeFile := Some(lastCpuTime);
      }
    }

    /**
     * sigterm: before_ending, then deregistration from the controller, then
     * should_exit raised on every pooled thread, then an empty pool.
     */
    method Sigterm()
      requires Valid() && controller.Valid()
      modifies this`threadPool, this`steps, this`cpuTimeFile, controller, PoolHandles()
      ensures steps == old(steps) + SIGTERM_STEPS
      ensures kind == ProcessKind ==> cpuTimeFile == Some(lastCpuTime)
      ensures kind == SystemKind ==> cpuTimeFile == old(cpuTimeFile)
      ensures controller.dispatchers == old(controller.dispatchers) - {tracePid}
      ensures controller.allPids == old(controller.allPids)
      ensures forall k :: k in old(threadPool) ==> old(threadPool)[k].Handle().shouldExit
      ensures threadPool == map[]
      ensures Valid() && controller.Valid()
    {
      BeforeEnding();
      steps := steps + [EndingHook];
      controller.Remove(tracePid);
      steps := steps + [Deregistered];
      var names := threadPool.Keys;
      while names != {}
        invariant names <= threadPool.Keys
        invariant threadPool == old(threadPool)
        invariant steps == old(steps) + [EndingHook, Deregistered]
        invariant kind == ProcessKind ==> cpuTimeFile == Some(lastCpuTime)
        invariant kind == SystemKind ==> cpuTimeFile == old(cpuTimeFile)
        invariant controller.dispatchers == old(controller.dispatchers) - {tracePid}
        invariant controller.allPids == old(controller.allPids)
        invariant controller.Valid()
        invariant forall k :: k in threadPool && k !in names ==> threadPool[k].Handle().shouldExit
        decreases names
      {
        var k :| k in names;
        threadPool[k].Handle().shouldExit := true;
        names := names - {k};
      }
      steps := steps + [PoolFlagged];
      threadPool := map[];
      steps := steps + [PoolCleared];
    }

    /*
     * The process dispatcher
     */

    /** _setup_cache of the process dispatcher. */
    method SetupProcessCache(view: Metrics.ProcessView)
      requires Valid() && kind == ProcessKind
      modifies this`cache, this`lastCpuTime, this`steps
      ensures cache == Some(ProcessCacheAtSetup(tracePid, view)) && lastCpuTime == 0.0
      ensures steps == old(steps) + [CacheSetUp]
      ensures Valid()
    {
      lastCpuTime := 0.0;
      cache := Some(ProcessCacheAtSetup(tracePid, view));
      steps := steps + [CacheSetUp];
    }

    /** The STAT line of _update_cache raises: the pool has "STAT" but no stat tracer. */
    predicate StatLineRaises()
      reads this`threadPool
    {
      Label(STAT) in threadPool && Tracers.PROCESS_STAT !in threadPool
    }

    /** Only a tracer can sit under the stat tracer's class name, so the STAT line's outcome is read off the pool. */
    lemma StatGuardOnPool()
      requires PoolValid()
      ensures WellObserved(Observe())
      ensures StatGuardBreaks(threadPool.Keys, Observe()) <==> StatLineRaises()
    {
      assert Tracers.PROCESS_STAT in threadPool ==> threadPool[Tracers.PROCESS_STAT].Tracer?;
    }

    /**
     * _update_cache of the process dispatcher: the CPU-time watermark takes
     * the new reading if it is larger, then the cache is refreshed from it
     * and from the pooled tracers; a KeyError from the STAT line escapes,
     * after the fields before it have been written.
     */
    method UpdateProcessCache(snap: Metrics.Snapshot) returns (e: Option<Fault>)
      requires Valid() && kind == ProcessKind && cache.Some?
      modifies this`cache, this`lastCpuTime
      ensures lastCpuTime == Metrics.Max(old(lastCpuTime), Metrics.TotalCpuTime(Metrics.CpuReading(snap, tracePid)))
      ensures cache == Some(RefreshedCache(old(cache.value), old(Observe()), lastCpuTime, threadPool.Keys))
      ensures e == if StatLineRaises() then Some(KeyError) else None
      ensures Valid() && cache.Some?
    {
      e := RefreshFields(Metrics.Max(lastCpuTime, Metrics.TotalCpuTime(Metrics.CpuReading(snap, tracePid))));
    }

    /**
     * The lines of _update_cache from the watermark on, reading the pooled
     * tracers' caches once: the CPU time becomes `cpuTime`, each field whose
     * tracer is pooled takes that tracer's cached value, then the STAT line
     * runs and can raise KeyError, after the fields before it are written.
     */
    method RefreshFields(cpuTime: real) returns (e: Option<Fault>)
      requires PoolValid() && cache.Some?
      modifies this`cache, this`lastCpuTime
      ensures lastCpuTime == cpuTime
      ensures WellObserved(old(Observe()))
      ensures cache == Some(RefreshedCache(old(cache.value), old(Observe()), cpuTime, threadPool.Keys))
      ensures e == if StatLineRaises() then Some(KeyError) else None
    {
      StatGuardOnPool();
      var obs := Observe();
      e := if StatGuardBreaks(threadPool.Keys, obs) then Some(KeyError) else None;
      lastCpuTime := cpuTime;
      cache := Some(RefreshedCache(cache.value, obs, cpuTime, threadPool.Keys));
    }

    /** A child dispatcher this dispatcher has just spawned for `p`, with its cache set up or not. */
    predicate ChildOf(d: Dispatcher, p: int)
      reads d, d.thread
    {
      && d.tracePid == p && d.kind == ProcessKind && d.controller == controller
      && d.basename == basename && d.tracersToLoad == tracersToLoad && !d.thread.shouldExit
    }

    /** `p` is listed by psutil as a child of the traced process. */
    predicate IsChild(snap: Metrics.Snapshot, p: int)
    {
      tracePid in snap && p in snap[tracePid].children
    }

    /** Every child listed for the traced process is registered, or alive and readable. */
    predicate ChildrenAccounted(snap: Metrics.Snapshot, registered: set<int>)
    {
      tracePid in snap ==> forall p :: p in snap[tracePid].children ==> p in registered || Metrics.Recordable(snap, p)
    }

    /** Every thread the pool now holds was held before or has just been created. */
    twostate predicate HandlesKeptOrFresh()
      reads this`threadPool
    {
      forall h :: h in PoolHandles() ==> h in old(PoolHandles()) || fresh(h)
    }

    /**
     * The pool has changed at most in its child-dispatcher slot, which then
     * holds a dispatcher created since.
     */
    twostate predicate PoolGainsChildOnly()
      reads this`threadPool
    {
      && old(threadPool).Keys <= threadPool.Keys <= old(threadPool).Keys + {PROCESS_DISPATCHER}
      && (forall k :: k in threadPool && k != PROCESS_DISPATCHER ==> threadPool[k] == old(threadPool)[k])
      && (PROCESS_DISPATCHER in threadPool ==>
            (PROCESS_DISPATCHER in old(threadPool) && threadPool[PROCESS_DISPATCHER] == old(threadPool)[PROCESS_DISPATCHER])
            || (threadPool[PROCESS_DISPATCHER].Child? && fresh(threadPool[PROCESS_DISPATCHER].d)
                && fresh(threadPool[PROCESS_DISPATCHER].d.thread)))
    }

    /**
     * One iteration of _detect_process: a child that is not active yet gets
     * a dispatcher, which registers itself and, when the child is alive,
     * takes the pool's child-dispatcher slot.  `failed` reports that the
     * constructor raised, because the child had already exited (which leaves
     * its registration without a cache) or psutil cannot read it (which
     * leaves it with a cache and no tracers).
     */
    method SpawnChild(c: int, snap: Metrics.Snapshot, loadable: set<string>) returns (failed: bool)
      requires Valid() && kind == ProcessKind && controller.Valid()
      modifies this`threadPool, controller
      ensures Valid() && controller.Valid()
      ensures failed <==> c !in old(controller.dispatchers) && !Metrics.Recordable(snap, c)
      ensures controller.dispatchers.Keys == old(controller.dispatchers).Keys + {c}
      ensures c in old(controller.dispatchers) ==>
                controller.dispatchers == old(controller.dispatchers) && controller.allPids == old(controller.allPids)
                && threadPool == old(threadPool)
      ensures c !in old(controller.dispatchers) ==>
                && c in controller.dispatchers
                && controller.dispatchers == old(controller.dispatchers)[c := controller.dispatchers[c]]
                && controller.allPids == old(controller.allPids) + {c}
                && fresh(controller.dispatchers[c]) && fresh(controller.dispatchers[c].thread)
                && ChildOf(controller.dispatchers[c], c)
                && (controller.dispatchers[c].cache.Some? <==> c in snap)
                && (failed ==> controller.dispatchers[c].threadPool == map[])
                && threadPool == if failed then old(threadPool)
                                 else old(threadPool)[PROCESS_DISPATCHER := Child(controller.dispatchers[c])]
    {
      failed := false;
      if c !in controller.ActivePids() {
        var nd := NewProcessDispatcher(c, basename, tracersToLoad, controller, loadable, snap);
        if nd.Err? {
          failed := true;
        } else {
          AppendThreadpool(Child(nd.value));
        }
      }
    }

    /**
     * A child psutil lists stays registered with no tracers, and with a
     * cache exactly when it is still alive: its dispatcher's constructor
     * raised after registering it.
     */
    ghost predicate StaleChild(snap: Metrics.Snapshot)
      reads controller, controller.dispatchers.Values
    {
      exists p :: && p in controller.dispatchers && IsChild(snap, p) && !Metrics.Recordable(snap, p)
                  && controller.dispatchers[p].threadPool == map[]
                  && (controller.dispatchers[p].cache.Some? <==> p in snap)
    }

    /**
     * The traced process has gone, or a child psutil lists for it has gone
     * or cannot be read.
     */
    predicate Untraceable(snap: Metrics.Snapshot)
    {
      tracePid !in snap || exists p :: p in snap[tracePid].children && !Metrics.Recordable(snap, p)
    }

    /**
     * _detect_process as written: a dispatcher for every child that is not
     * active yet, pooled as it is created.  A child that has already exited,
     * or that psutil cannot read, makes its dispatcher's constructor raise
     * after registering it, and the error propagates: the remaining children
     * are skipped, the stale registration stays behind without tracers, and
     * the caller's run loop ends.
     */
    method DetectProcessAsWritten(snap: Metrics.Snapshot, loadable: set<string>) returns (r: Option<Fault>)
      requires Valid() && kind == ProcessKind && controller.Valid()
      modifies this`threadPool, controller
      ensures Valid() && controller.Valid()
      ensures r.Some? ==> r.value == NotFound
      ensures tracePid !in snap ==> r.Some? && threadPool == old(threadPool)
                                    && controller.dispatchers == old(controller.dispatchers)
      ensures r.None? <==> tracePid in snap && forall p :: IsChild(snap, p) ==> p in old(controller.dispatchers) || Metrics.Recordable(snap, p)
      ensures r.None? ==> forall p :: IsChild(snap, p) ==> p in controller.dispatchers
      ensures r.None? ==> forall p :: p in controller.dispatchers && p !in old(controller.dispatchers) ==>
                            IsChild(snap, p) && controller.dispatchers[p].cache.Some?
      ensures r.Some? && tracePid in snap ==> StaleChild(snap)
      ensures PoolGainsChildOnly()
    {
      if tracePid !in snap {
        return Some(NotFound);
      }
      var children := snap[tracePid].children;
      var i := 0;
      while i < |children|
        invariant 0 <= i <= |children|
        invariant Valid() && controller.Valid()
        invariant old(controller.dispatchers).Keys <= controller.dispatchers.Keys
        invariant forall p :: p in controller.dispatchers && p !in old(controller.dispatchers) ==>
                    p in children[..i] && Metrics.Recordable(snap, p) && controller.dispatchers[p].cache.Some?
        invariant forall j :: 0 <= j < i ==> children[j] in controller.dispatchers
        invariant PoolGainsChildOnly()
      {
        var c := children[i];
        assert forall p :: p in children[..i + 1] <==> p in children[..i] || p == c;
        ghost var registered := controller.dispatchers.Keys;
        var failed := SpawnChild(c, snap, loadable);
        assert registered <= controller.dispatchers.Keys;
        if failed {
          assert IsChild(snap, c) && c in controller.dispatchers && !Metrics.Recordable(snap, c);
          return Some(NotFound);
        }
        i := i + 1;
      }
      assert children[..i] == children;
      return None;
    }

    /**
     * One iteration of the intended _detect_process: SpawnChild, and a child
     * whose dispatcher could not be constructed is deregistered again.
     * Afterwards the child is registered exactly when it already was or is
     * alive and readable.
     */
    method AdmitChild(c: int, snap: Metrics.Snapshot, loadable: set<string>)
      requires Valid() && kind == ProcessKind && controller.Valid()
      modifies this`threadPool, controller
      ensures Valid() && controller.Valid()
      ensures forall p :: p in old(controller.dispatchers) ==>
                p in controller.dispatchers && controller.dispatchers[p] == old(controller.dispatchers)[p]
      ensures forall p :: p in controller.dispatchers && p !in old(controller.dispatchers) ==>
                p == c && Metrics.Recordable(snap, c) && fresh(controller.dispatchers[p])
                && ChildOf(controller.dispatchers[p], p) && controller.dispatchers[p].cache.Some?
      ensures c in controller.dispatchers <==> c in old(controller.dispatchers) || Metrics.Recordable(snap, c)
      ensures controller.allPids == old(controller.allPids) + (if c in old(controller.dispatchers) then {} else {c})
      ensures PoolGainsChildOnly()
    {
      var failed := SpawnChild(c, snap, loadable);
      if failed {
        controller.Remove(c);
      }
    }

    /**
     * The registry after _detect_process has visited children[..i], against
     * the registry `d0` and the pid set `a0` it started from: earlier
     * entries are kept, every new entry is a visited child that is alive and
     * readable, a visited child is registered exactly when it was already or
     * is alive and readable,
     * and `all_pids` gained exactly the visited children that were new.
     */
    ghost predicate Admitted(children: seq<int>, i: nat, snap: Metrics.Snapshot, d0: map<int, Dispatcher>, a0: set<int>)
      requires i <= |children|
      reads controller
    {
      && (forall p :: p in d0 ==> p in controller.dispatchers && controller.dispatchers[p] == d0[p])
      && (forall p :: p in controller.dispatchers && p !in d0 ==> p in children[..i] && Metrics.Recordable(snap, p))
      && (forall p :: p in children[..i] ==> (p in controller.dispatchers <==> p in d0 || Metrics.Recordable(snap, p)))
      && (forall p :: p in controller.allPids <==> p in a0 || (p in children[..i] && p !in d0))
    }

    /** One child of _detect_process, admitted as AdmitChild does. */
    method AdmitNext(children: seq<int>, i: nat, snap: Metrics.Snapshot, loadable: set<string>,
                     ghost d0: map<int, Dispatcher>, ghost a0: set<int>)
      requires Valid() && kind == ProcessKind && controller.Valid()
      requires i < |children| && Admitted(children, i, snap, d0, a0)
      modifies this`threadPool, controller
      ensures Valid() && controller.Valid()
      ensures Admitted(children, i + 1, snap, d0, a0)
      ensures forall p :: p in old(controller.dispatchers) ==>
                p in controller.dispatchers && controller.dispatchers[p] == old(controller.dispatchers)[p]
      ensures forall p :: p in controller.dispatchers && p !in old(controller.dispatchers) ==>
                fresh(controller.dispatchers[p]) && ChildOf(controller.dispatchers[p], p) && controller.dispatchers[p].cache.Some?
      ensures PoolGainsChildOnly()
    {
      var c := children[i];
      assert forall p :: p in children[..i + 1] <==> p in children[..i] || p == c;
      AdmitChild(c, snap, loadable);
    }

    /**
     * _detect_process as intended: a child whose dispatcher cannot be
     * constructed is deregistered again and skipped, and only the traced process's own
     * disappearance is reported.  At most one child dispatcher stays in the
     * pool however many are spawned, since the pool is keyed by class name.
     */
    method DetectProcess(snap: Metrics.Snapshot, loadable: set<string>) returns (r: Option<Fault>)
      requires Valid() && kind == ProcessKind && controller.Valid()
      modifies this`threadPool, controller
      ensures Valid() && controller.Valid()
      ensures r.Some? <==> tracePid !in snap
      ensures r.Some? ==> r.value == NotFound && threadPool == old(threadPool)
                          && controller.dispatchers == old(controller.dispatchers)
                          && controller.allPids == old(controller.allPids)
      ensures forall p :: p in old(controller.dispatchers) ==>
                p in controller.dispatchers && controller.dispatchers[p] == old(controller.dispatchers)[p]
      ensures forall p :: p in controller.dispatchers && p !in old(controller.dispatchers) ==>
                IsChild(snap, p) && Metrics.Recordable(snap, p) && fresh(controller.dispatchers[p])
                && ChildOf(controller.dispatchers[p], p) && controller.dispatchers[p].cache.Some?
      ensures forall p :: IsChild(snap, p) ==>
                (p in controller.dispatchers <==> p in old(controller.dispatchers) || Metrics.Recordable(snap, p))
      ensures forall p :: p in controller.allPids <==>
                p in old(controller.allPids) || (IsChild(snap, p) && p !in old(controller.dispatchers))
      ensures PoolGainsChildOnly()
    {
      if tracePid !in snap {
        return Some(NotFound);
      }
      var children := snap[tracePid].children;
      ghost var d0, a0 := controller.dispatchers, controller.allPids;
      var i := 0;
      while i < |children|
        invariant 0 <= i <= |children|
        invariant Valid() && controller.Valid()
        invariant Admitted(children, i, snap, d0, a0)
        invariant forall p :: p in controller.dispatchers && p !in d0 ==>
                    fresh(controller.dispatchers[p]) && ChildOf(controller.dispatchers[p], p)
                    && controller.dispatchers[p].cache.Some?
        invariant PoolGainsChildOnly()
      {
        AdmitNext(children, i, snap, loadable, d0, a0);
        i := i + 1;
      }
      assert children[..i] == children;
      return None;
    }

    /**
     * One iteration of the process dispatcher's run_body: _update_cache,
     * whose KeyError escapes the loop, then _detect_process, whose not-found
     * error breaks it.  Detection fails when the process has gone or a
     * listed child that was not active had already exited or cannot be
     * read, which leaves that child registered without tracers.
     */
    method ProcessRound(snap: Metrics.Snapshot, loadable: set<string>) returns (end: RoundEnd)
      requires Valid() && kind == ProcessKind && cache.Some? && controller.Valid()
      modifies this`threadPool, this`cache, this`lastCpuTime, controller
      ensures Valid() && controller.Valid() && cache.Some?
      ensures lastCpuTime == Metrics.Watermark(old(lastCpuTime), [Metrics.TotalCpuTime(Metrics.CpuReading(snap, tracePid))])
      ensures end.Raise? <==> old(StatLineRaises())
      ensures end.Raise? ==> end.fault == KeyError && threadPool == old(threadPool)
                             && controller.dispatchers == old(controller.dispatchers)
      ensures end.Continue? <==> !old(StatLineRaises()) && tracePid in snap
                                 && ChildrenAccounted(snap, old(controller.dispatchers.Keys))
      ensures end.Break? ==> Untraceable(snap) && (tracePid in snap ==> StaleChild(snap))
      ensures PoolGainsChildOnly() && StatLineRaises() == old(StatLineRaises())
    {
      var e := UpdateProcessCache(snap);
      Metrics.WatermarkOfOne(old(lastCpuTime), Metrics.TotalCpuTime(Metrics.CpuReading(snap, tracePid)));
      if e.Some? {
        return Raise(e.value);
      }
      var r := DetectProcessAsWritten(snap, loadable);
      StatLineKept();
      end := if r.Some? then Break else Continue;
    }

    /** A pool that gains only its child-dispatcher slot holds only old threads and new ones. */
    twostate lemma HandlesFollowPool()
      requires PoolGainsChildOnly()
      ensures HandlesKeptOrFresh()
    {
      forall h | h in PoolHandles()
        ensures h in old(PoolHandles()) || fresh(h)
      {
        var k :| k in threadPool && threadPool[k].Handle() == h;
        if !(k in old(threadPool) && threadPool[k] == old(threadPool)[k]) {
          assert k == PROCESS_DISPATCHER && threadPool[k].Child?;
        }
      }
    }

    /** A pool that gains only its child-dispatcher slot keeps the STAT line's outcome. */
    twostate lemma StatLineKept()
      requires PoolGainsChildOnly()
      ensures StatLineRaises() == old(StatLineRaises())
    {
    }

    /**
     * The iterations of the process dispatcher's run_body loop while
     * should_exit stays down: each refreshes the cache and then looks for new
     * children, until the snapshots run out, detection breaks the loop or
     * _update_cache raises.  `i` is the number of iterations that ran.
     */
    method Rounds(schedule: seq<Metrics.Snapshot>, loadable: set<string>) returns (i: nat, end: RoundEnd)
      requires Valid() && kind == ProcessKind && cache.Some? && controller.Valid()
      modifies this`threadPool, this`cache, this`lastCpuTime, controller
      ensures i <= |schedule| && (thread.shouldExit ==> i == 0 && end.Continue?)
      ensures end.Continue? ==> thread.shouldExit || i == |schedule|
      ensures end.Raise? <==> i == 1 && old(StatLineRaises())
      ensures i > 0 && old(StatLineRaises()) ==> end.Raise?
      ensures end.Raise? || i == 0 ==> threadPool == old(threadPool) && controller.dispatchers == old(controller.dispatchers)
      ensures end.Break? ==> i > 0 && Untraceable(schedule[i - 1])
                             && (tracePid in schedule[i - 1] ==> StaleChild(schedule[i - 1]))
      ensures forall j :: 0 <= j < i - 1 ==> tracePid in schedule[j]
      ensures lastCpuTime == Metrics.Watermark(old(lastCpuTime), CpuTimeReadings(schedule, tracePid)[..i])
      ensures Valid() && controller.Valid() && cache.Some?
      ensures PoolGainsChildOnly()
    {
      ghost var readings := CpuTimeReadings(schedule, tracePid);
      ghost var raises, pool, registry := StatLineRaises(), threadPool, controller.dispatchers;
      i := 0;
      end := Continue;
      while i < |schedule| && !thread.shouldExit && end.Continue?
        invariant 0 <= i <= |schedule| && (thread.shouldExit ==> i == 0)
        invariant Valid() && controller.Valid() && cache.Some?
        invariant end.Raise? <==> i == 1 && raises
        invariant StatLineRaises() == raises
        invariant end.Raise? || i == 0 ==> threadPool == pool && controller.dispatchers == registry
        invariant i > 0 ==> !raises || end.Raise?
        invariant end.Break? ==> i > 0 && Untraceable(schedule[i - 1])
                                 && (tracePid in schedule[i - 1] ==> StaleChild(schedule[i - 1]))
        invariant forall j :: 0 <= j < i - 1 ==> tracePid in schedule[j]
        invariant end.Continue? && i > 0 ==> tracePid in schedule[i - 1]
        invariant lastCpuTime == Metrics.Watermark(old(lastCpuTime), readings[..i])
        invariant PoolGainsChildOnly()
      {
        assert forall j :: 0 <= j < i ==> tracePid in schedule[j];
        end := ProcessRound(schedule[i], loadable);
        Metrics.WatermarkChain(old(lastCpuTime), readings, i);
        i := i + 1;
      }
    }

    /**
     * The loop of the process dispatcher's run_body: the rounds above, then
     * should_exit raised after the last snapshot, standing for the stop
     * request.  The loop ends early when detection breaks it, or when
     * _update_cache raises, which ends run_body without its sigterm.
     * `rounds` is the number of iterations that ran.
     */
    method ProcessLoop(schedule: seq<Metrics.Snapshot>, loadable: set<string>) returns (ghost rounds: nat, raised: bool)
      requires Valid() && kind == ProcessKind && cache.Some? && controller.Valid()
      modifies this`threadPool, this`cache, this`lastCpuTime, thread, controller
      ensures rounds <= |schedule| && (old(thread.shouldExit) ==> rounds == 0 && !raised)
      ensures raised <==> !old(thread.shouldExit) && |schedule| > 0 && old(StatLineRaises())
      ensures raised ==> rounds == 1 && threadPool == old(threadPool) && controller.dispatchers == old(controller.dispatchers)
      ensures forall j :: 0 <= j < rounds - 1 ==> tracePid in schedule[j]
      ensures !old(thread.shouldExit) && !raised && rounds < |schedule| ==>
                rounds > 0 && Untraceable(schedule[rounds - 1])
                && (tracePid in schedule[rounds - 1] ==> StaleChild(schedule[rounds - 1]))
      ensures lastCpuTime == Metrics.Watermark(old(lastCpuTime), CpuTimeReadings(schedule, tracePid)[..rounds])
      ensures Valid() && controller.Valid() && cache.Some?
      ensures PoolGainsChildOnly()
      ensures HandlesKeptOrFresh()
    {
      var i, end := Rounds(schedule, loadable);
      if end.Continue? && !thread.shouldExit {
        // the stop request that follows the last snapshot
        thread.shouldExit := true;
      }
      HandlesFollowPool();
      rounds := i;
      raised := end.Raise?;
    }

    /**
     * run_body of the process dispatcher: the loop above, then sigterm,
     * unless _update_cache raised, which leaves the dispatcher registered
     * with its pool as it was.  A child that made detection fail stays
     * registered without a cache after sigterm.
     */
    method RunProcessBody(schedule: seq<Metrics.Snapshot>, loadable: set<string>) returns (ghost rounds: nat, r: Option<Fault>)
      requires Valid() && kind == ProcessKind && cache.Some? && controller.Valid()
      modifies this`threadPool, this`cache, this`lastCpuTime, this`steps, this`cpuTimeFile, thread, controller, PoolHandles()
      ensures rounds <= |schedule| && (old(thread.shouldExit) ==> rounds == 0 && r.None?)
      ensures r.Some? <==> !old(thread.shouldExit) && |schedule| > 0 && old(StatLineRaises())
      ensures forall j :: 0 <= j < rounds - 1 ==> tracePid in schedule[j]
      ensures lastCpuTime == Metrics.Watermark(old(lastCpuTime), CpuTimeReadings(schedule, tracePid)[..rounds])
      ensures r.Some? ==> r.value == KeyError && rounds == 1 && steps == old(steps)
                          && threadPool == old(threadPool) && controller.dispatchers == old(controller.dispatchers)
      ensures r.None? ==> && steps == old(steps) + SIGTERM_STEPS
                          && cpuTimeFile == Some(lastCpuTime)
                          && tracePid !in controller.dispatchers
                          && threadPool == map[]
                          && (forall k :: k in old(threadPool) && k != PROCESS_DISPATCHER ==> old(threadPool)[k].Handle().shouldExit)
      ensures r.None? && !old(thread.shouldExit) && rounds < |schedule| ==>
                rounds > 0 && Untraceable(schedule[rounds - 1])
                && (tracePid in schedule[rounds - 1] && !IsChild(schedule[rounds - 1], tracePid) ==>
                      StaleChild(schedule[rounds - 1]))
      ensures Valid() && controller.Valid() && cache.Some?
    {
      var raised;
      rounds, raised := ProcessLoop(schedule, loadable);
      if raised {
        return rounds, Some(KeyError);
      }
      ghost var stale := !old(thread.shouldExit) && rounds < |schedule| && tracePid in schedule[rounds - 1]
                         && !IsChild(schedule[rounds - 1], tracePid);
      ghost var snap := if stale then schedule[rounds - 1] else map[];
      ghost var p: int := 0;
      if stale {
        p :| && p in controller.dispatchers && IsChild(snap, p) && !Metrics.Recordable(snap, p)
             && controller.dispatchers[p].threadPool == map[]
             && (controller.dispatchers[p].cache.Some? <==> p in snap);
      }
      ghost var dp := if stale then controller.dispatchers[p] else this;
      Sigterm();
      if stale {
        assert p in controller.dispatchers && controller.dispatchers[p] == dp;
      }
      r := None;
    }

    /*
     * The system dispatcher
     */

    /** _setup_cache of the system dispatcher. */
    method SetupSystemCache()
      requires Valid() && kind == SystemKind
      modifies this`cache, this`steps
      ensures cache == Some(SystemCacheAtSetup())
      ensures steps == old(steps) + [CacheSetUp]
      ensures Valid()
    {
      cache := Some(SystemCacheAtSetup());
      steps := steps + [CacheSetUp];
    }

    /** _write_mnt: the mount table of the partitions psutil lists. */
    method WriteMountTable(partitions: seq<MountTable.Partition>)
      modifies this`mountTable, this`steps
      ensures |mountTable| == |partitions| + 1 && mountTable[0] == HeaderRow(MountTable.MNT_COLUMNS)
      ensures forall i :: 0 <= i < |partitions| ==> mountTable[i + 1] == MountTable.MountRow(partitions[i])
      ensures steps == old(steps) + [MountTableWritten]
    {
      mountTable := MountTable.WriteMnt(partitions);
      steps := steps + [MountTableWritten];
    }

    /** _update_cache of the system dispatcher. */
    method UpdateSystemCache()
      requires Valid() && kind == SystemKind && cache.Some?
      modifies this`cache
      ensures cache == Some(RefreshSystemFields(old(cache.value), Observe()))
      ensures Observe() == old(Observe())
      ensures Valid()
    {
      ObserveIsWellFormed();
      cache := Some(RefreshSystemFields(cache.value, Observe()));
    }

    /**
     * run_body of the system dispatcher: refresh the cache until should_exit
     * is raised, `rounds` iterations standing for the time until the stop
     * request.  It never calls sigterm: the frame leaves the dispatcher
     * registered and its pool untouched.
     */
    method RunSystemBody(rounds: nat)
      requires Valid() && kind == SystemKind && cache.Some?
      modifies this`cache, thread
      ensures thread.shouldExit
      ensures old(thread.shouldExit) || rounds == 0 ==> cache == old(cache)
      ensures !old(thread.shouldExit) && rounds > 0 ==> cache == Some(RefreshSystemFields(old(cache.value), Observe()))
      ensures Valid()
    {
      ObserveIsWellFormed();
      var i := 0;
      while !thread.shouldExit
        invariant Valid() && cache.Some?
        invariant i <= rounds
        invariant old(thread.shouldExit) ==> i == 0
        invariant thread.shouldExit ==> old(thread.shouldExit) || i == rounds
        invariant Observe() == old(Observe())
        invariant cache == if i == 0 then old(cache) else Some(RefreshSystemFields(old(cache.value), Observe()))
        decreases rounds - i + (if thread.shouldExit then 0 else 1)
      {
        if i == rounds {
          thread.shouldExit := true;
        } else {
          if i > 0 {
            SystemRefreshIsIdempotent(old(cache.value), Observe());
          }
          UpdateSystemCache();
          i := i + 1;
        }
      }
    }
  }

  /*
   * ---------------------------------------------------------------------
   * Dispatcher constructors
   * ---------------------------------------------------------------------
   */

  /**
   * ProcessTracerDispatcherThread(): the base constructor registers the pid
   * first; psutil.Process and _setup_cache then fail for a pid that is not
   * alive, leaving the registration behind without a cache.  The registry,
   * environment and memory-map writers come next and re-raise when psutil
   * cannot read the process, leaving the registration behind with its cache
   * but no tracers.  Otherwise the tracers are started with the pid among
   * their arguments.
   */
  method NewProcessDispatcher(pid: int, basename: string, tracersToLoad: seq<string>, controller: Controller,
                              loadable: set<string>, snap: Metrics.Snapshot) returns (r: Result<Dispatcher>)
    requires controller.Valid()
    modifies controller
    ensures controller.Valid()
    ensures pid in controller.dispatchers
    ensures controller.dispatchers == old(controller.dispatchers)[pid := controller.dispatchers[pid]]
    ensures controller.allPids == old(controller.allPids) + {pid}
    ensures var d := controller.dispatchers[pid];
            && fresh(d) && fresh(d.thread) && !d.thread.shouldExit && d.Valid()
            && d.tracePid == pid && d.kind == ProcessKind && d.controller == controller
            && d.basename == basename && d.tracersToLoad == tracersToLoad
    ensures r.Err? <==> !Metrics.Recordable(snap, pid)
    ensures r.Err? ==> r.fault == NotFound
    ensures r.Err? ==> var d := controller.dispatchers[pid];
                       && d.threadPool == map[]
                       && (pid !in snap ==> d.cache.None? && d.steps == [Registered])
                       && (pid in snap ==> d.cache == Some(ProcessCacheAtSetup(pid, snap[pid])) && d.steps == [Registered, CacheSetUp])
    ensures r.Ok? ==> r.value == controller.dispatchers[pid]
    ensures r.Ok? ==> var d := r.value;
                      && d.cache == Some(ProcessCacheAtSetup(pid, snap[pid])) && d.lastCpuTime == 0.0
                      && d.steps == [Registered, CacheSetUp, TracersStarted]
                      && (forall k :: k in d.threadPool <==> d.Started(tracersToLoad, loadable, snap, k))
                      && (forall k :: k in d.threadPool ==>
                            d.threadPool[k].Tracer? && fresh(d.threadPool[k].t) && fresh(d.threadPool[k].t.thread)
                            && d.Unstarted(d.threadPool[k].t))
  {
    var d := new Dispatcher(pid, ProcessKind, basename, tracersToLoad, controller);
    if pid !in snap {
      return Err(NotFound);
    }
    d.SetupProcessCache(snap[pid]);
    if !snap[pid].readable {
      return Err(NotFound);
    }
    d.StartTracers(loadable, snap);
    return Ok(d);
  }

  /**
   * SystemTracerDispatcherThread(): registered under the system pid, then
   * the cache, then the mount table, then the tracers.
   */
  method NewSystemDispatcher(basename: string, tracersToLoad: seq<string>, controller: Controller,
                             loadable: set<string>, partitions: seq<MountTable.Partition>) returns (d: Dispatcher)
    requires controller.Valid()
    modifies controller
    ensures controller.Valid()
    ensures controller.dispatchers == old(controller.dispatchers)[SYSTEM_PID := d]
    ensures controller.allPids == old(controller.allPids) + {SYSTEM_PID}
    ensures fresh(d) && fresh(d.thread) && !d.thread.shouldExit && d.Valid()
    ensures d.tracePid == SYSTEM_PID && d.kind == SystemKind && d.controller == controller
    ensures d.cache == Some(SystemCacheAtSetup())
    ensures |d.mountTable| == |partitions| + 1 && d.mountTable[0] == HeaderRow(MountTable.MNT_COLUMNS)
    ensures forall i :: 0 <= i < |partitions| ==> d.mountTable[i + 1] == MountTable.MountRow(partitions[i])
    ensures d.steps == [Registered, CacheSetUp, MountTableWritten, TracersStarted]
    ensures forall k :: k in d.threadPool <==> k in tracersToLoad && k in loadable
    ensures forall k :: k in d.threadPool ==>
              d.threadPool[k].Tracer? && fresh(d.threadPool[k].t) && d.threadPool[k].t.tracee == "sys"
              && d.Unstarted(d.threadPool[k].t)
  {
    d := new Dispatcher(SYSTEM_PID, SystemKind, basename, tracersToLoad, controller);
    d.SetupSystemCache();
    d.WriteMountTable(partitions);
    d.StartTracers(loadable, map[]);
  }

  /** A parent (pid 10) listing one child (pid 11) that has already exited. */
  function ShortLivedChildSnapshot(): (snap: Metrics.Snapshot)
    ensures 10 in snap && 11 !in snap
    ensures forall p :: p in snap[10].children <==> p == 11
  {
    map[10 := Metrics.ProcessView("parent", 1, [11], Some(Metrics.CpuTimes(0.5, 0.25)), "S", true)]
  }

  /**
   * As written, detection under the parent of ShortLivedChildSnapshot fails,
   * the child stays registered without a cache, and collect_all_process_info
   * then fails for every caller.
   */
  method ShortLivedChildAsWritten() returns (detectFails: bool, staleLeft: bool, collectFails: bool)
    ensures detectFails && staleLeft && collectFails
  {
    var snap := ShortLivedChildSnapshot();
    var ctl := new Controller();
    var parent := NewProcessDispatcher(10, "run", [], ctl, {}, snap);
    var d := parent.value;
    var r := d.DetectProcessAsWritten(snap, {});
    detectFails := r.Some?;
    staleLeft := 11 in ctl.dispatchers && ctl.dispatchers[11].cache.None?;
    var info := ctl.CollectAllProcessInfo();
    collectFails := info.Err?;
  }

  /**
   * The corrected detection under the same parent succeeds, leaves no trace
   * of the child, and the collection succeeds.
   */
  method ShortLivedChildCorrected() returns (detectFails: bool, staleLeft: bool, collectFails: bool)
    ensures !detectFails && !staleLeft && !collectFails
  {
    var snap := ShortLivedChildSnapshot();
    var ctl := new Controller();
    var parent := NewProcessDispatcher(10, "run", [], ctl, {}, snap);
    var d := parent.value;
    var r := d.DetectProcess(snap, {});
    detectFails := r.Some?;
    staleLeft := 11 in ctl.dispatchers;
    var info := ctl.CollectAllProcessInfo();
    collectFails := info.Err?;
  }
}
