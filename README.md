# pid_monitor supervision, modelled in Dafny

This project models the supervision bookkeeping of `pid_monitor`, the process profiler of labw_proc_profiler. That bookkeeping covers:

- the **dispatchers**: one thread per traced process and one system-wide thread;
- the **registry** that maps pids to live dispatchers;
- the **tracer threads** that the dispatchers start and stop;
- the **frontend caches** that the dispatchers fill from their tracers for display.

It also models the helpers these rely on: tracer lookup and listing, unit and percentage formatting, `get_total_cpu_time` and the mount-table writer.

The repository contains four generations of this code. Each is modelled where it differs from the others:

| generation | source directory | modules |
|---|---|---|
| oldest | `pid_monitor/` (`dt_base.py`, `std_dispatcher.py`, `dt_utils.py`, `__init__.py`) | `Legacy`, plus `TracerLoader` (get_tracer and the legacy list_tracer), `Units` (legacy to_human_readable) and `Tracers` (dt_base tracers) |
| dt_mvc | `pid_monitor/dt_mvc/` | `DtMvc` (module-level registry, base constructor); its DispatcherController and sigterm are the same as the `_private` ones and share `Supervision` |
| `_private` | `pid_monitor/_private/` | `Supervision`, `Tracers`, `TracerLoader`, `Units`, `Metrics` |
| `_dt_mvc` | `pid_monitor/_dt_mvc/` | `NextGen` (dispatchers), `FrontendCaches`, `Probes` (the CPU and STAT tracers) |

`Common`, `Decimal` (Python `str()` of an integer), `Metrics` (the psutil oracle) and `MountTable` (`_write_mnt`, which has the same body in three generations) are shared.

Every operation is one atomic step, so threads, sleeps and mutexes are abstracted away. The traced process can still exit in the middle of a tracer's `print_body`: a call that fails is a `Tracers.Step` that carries what was stored before the failing psutil call.

**psutil.** psutil is an oracle. A `Metrics.Snapshot` maps each live pid to what psutil reports about it. A pid missing from the snapshot stands for any of the not-found errors. A live pid whose `readable` flag is false is one whose command line, executable, working directory, environment or memory maps psutil refuses (AccessDenied). The registry, environment and mapfile writes of a new process dispatcher raise that error. `Metrics.Recordable` holds for a pid that is live and readable.

**Run loops.** A run loop takes a schedule with one snapshot or sample per iteration. When the schedule is used up, the loop raises `should_exit` itself. This stands for the stop request that another thread sends.

**Thread identity.** `should_exit` lives in a shared `Common.Thread` object, so a child dispatcher in its parent's pool and in the registry is the same thread.

**Cache keys.** The keys of a `_private` frontend cache are the enumeration `Supervision.Field`. `Supervision.Label` gives each field the key string the source uses ("PID", "CPU%", "NUM_CHILD_PROCESS", ...).

**Tracer loading.** The parameter `loadable` is the set of tracer names that `get_tracer_class` resolves and whose classes can be constructed. `Supervision.Loads` says which names the as-written search resolves, and `Supervision.LoadsFromFirstPackage` proves that a class only additional_tracer defines never resolves while std_tracer imports. The members take `loadable` as given and do not check it against `Loads`, because construction is outside the model.

The operational members (the constructors, refreshes, run loops and listings the dispatchers use) follow the code as written, including where it departs from what it evidently intends. Each such departure is listed under "## Findings" with a member that exhibits it and a corrected definition, proved to have the intended property, beside it. The corrected definitions (`StatRefresh`, `SwapRefresh`, `Dispatcher.DetectProcess`, `FindTracerClass`, `ListModule`, `ListTracer`) are not used by the operational members. The as-written `_private` listing is `ListTracerAsWritten`.

- **Failed construction.** The base constructor registers a process dispatcher before psutil looks the pid up. Nothing deregisters it when that lookup fails, or when a registry, environment or mapfile write after it fails.
  - `Supervision.NewProcessDispatcher`: a dispatcher for a pid that has gone stays registered without a cache; one whose details psutil refuses stays registered with a cache and no tracers.
  - `NextGen.NewProcessDispatcher`: the dispatcher stays registered without a frontend cache.
  - `Legacy.NewProcessDispatcher`: nothing is registered, but a live pid whose details psutil refuses is already in `_ALL_PIDS`.
  - In all three generations the as-written detection ends with the error when a child fails this way, and the parent's run loop stops.
- **Torn samples.** The child tracer stores the child count before it calls `num_threads()`, and the `_private` CPU tracer stores the core before it calls `cpu_percent()`. When the process exits between the two calls, `run_body` returns with the first field new and the second left from the last whole sample.
  - `Tracers.TracerThread.RunBody` ends with the cache `Tracers.CacheAfterRun`.
  - `Tracers.TornSample` shows that the child getter then returns the old thread count beside the new child count, which the process dispatcher shows as NUM_THREADS and NUM_CHILD_PROCESS.
- **Percentage of a zero total.**
  - The `_private` system dispatcher shows "0.00%" (`Units.UsagePercent`).
  - The `_dt_mvc` frontend cache shows "NA" (`Units.PercentToStr`).
  - `Units.PercentRulesAgreeOffZero` relates the two.

## Model

| member | source | states |
|---|---|---|
| Common.HeaderRow | src/pid_monitor/_private/dt_mvc/std_dispatcher.py:291-313 | a header row has one text cell per column name, in order |
| Common.Thread.constructor | src/pid_monitor/dt_mvc/base_tracer_class.py:34-48 | a new thread carries its class name and has should_exit False |
| Decimal.DigitChar | src/pid_monitor/dt_mvc/base_tracer_class.py:113 | each decimal digit prints as a character '0'..'9' |
| Decimal.NatToString | src/pid_monitor/dt_mvc/base_tracer_class.py:113 | str() of a natural is a non-empty string of digits |
| Decimal.IntToString | src/pid_monitor/dt_mvc/base_tracer_class.py:113 | str() of any integer is non-empty and made of digits and '-' |
| Decimal.IntRoundTrip | src/pid_monitor/_private/dt_mvc/std_dispatcher.py:201-205 | `ParseInt` reads back every printed integer: int(str(i)) == i, so the PID and PPID fields read back |
| Decimal.NatRoundTrip | src/pid_monitor/_private/dt_mvc/std_dispatcher.py:201-205 | `ParseNat` reads back every printed natural: int(str(n)) == n |
| Decimal.IntToStringInjective | src/pid_monitor/dt_mvc/base_tracer_class.py:113 | two different pids never print alike |
| Decimal.IntToStringIsNotSys | src/pid_monitor/dt_mvc/base_tracer_class.py:97 | no printed pid equals the system tracee "sys" |
| Metrics.SystemPidIsNoProcess | src/pid_monitor/_private/__init__.py:11 | the sentinel pid -1 is never a live process or a child in a well-formed snapshot |
| Metrics.CpuReading | src/pid_monitor/_private/__init__.py:28-37 | cpu_times() of a pid that is not alive fails |
| Metrics.TotalCpuTimeSignalsFailure | src/pid_monitor/_private/__init__.py:28-37 | get_total_cpu_time (`TotalCpuTime`) is -1 exactly when psutil fails, is otherwise user + system time, and is never negative then; the same body at src/pid_monitor/__init__.py:62-71; the same body at src/pid_monitor/_dt_mvc/std_dispatcher/process_tracer_dispatcher.py:20-29 |
| Metrics.Max | src/pid_monitor/_private/dt_mvc/std_dispatcher.py:208-211 | max is at least both arguments and equal to one of them |
| Metrics.WatermarkIsMaximum | src/pid_monitor/_private/dt_mvc/std_dispatcher.py:208-211 | the cached CPU time after a run of readings (`Watermark`) is at least its start and every reading, and equals one of them |
| Metrics.WatermarkNeverDecreases | src/pid_monitor/_private/dt_mvc/std_dispatcher.py:208-211 | one more reading never lowers the cached CPU time |
| Metrics.FailedReadingsAreAbsorbed | src/pid_monitor/_private/dt_mvc/std_dispatcher.py:208-214 | failed readings (-1) leave a watermark that starts at 0 at 0 |
| MountTable.WriteMnt | src/pid_monitor/_private/dt_mvc/std_dispatcher.py:291-313 | the mount table is the six-column header and then one six-field row per partition, in psutil's order; the same body at src/pid_monitor/std_dispatcher.py:183-205; the same body at src/pid_monitor/_dt_mvc/std_dispatcher/system_tracer_dispatcher.py:41-63 |
| MountTable.MountRowSizesReadBack | src/pid_monitor/_private/dt_mvc/std_dispatcher.py:291-313 | the TOTAL and USED columns of a mount row (`MountRow`) read back as the partition's sizes |
| Units.Prefixes | src/pid_monitor/_private/__init__.py:48-61 | a prefix list with seven entries exists exactly for bases 1000 and 1024 |
| Units.LegacyUnits | src/pid_monitor/__init__.py:82-91 | a unit list with seven entries exists exactly for bases 1000 and 1024 |
| Units.ScaleIsScaling | src/pid_monitor/_private/__init__.py:62-67 | the scaling loop (`ScaleFrom`) divides exactly, only while the value exceeds the base, and stops at a value not above the base or at the last prefix |
| Units.ScalingIsUnique | src/pid_monitor/_private/__init__.py:62-67 | that declarative description has only one solution, so it determines the loop's result |
| Units.StepNotAbove | src/pid_monitor/_private/__init__.py:62-67 | no scaling of a number takes more divisions than another |
| Units.StoppedBelowNextPower | src/pid_monitor/_private/__init__.py:62-67 | a scaling that stops before the last prefix leaves num at most base^(step+1) |
| Units.NoDivisionWhenSmall | src/pid_monitor/_private/__init__.py:62-67 | a number not above the base keeps its value and the first prefix |
| Units.HumanBytesIsTheScaling | src/pid_monitor/_private/__init__.py:48-69 | to_human_readable with base 1024 and suffix "B" (`HumanBytes`) shows the one scaling of the number: value * 1024^step == num, the value at most 1024 unless the prefixes ran out |
| Units.ToHumanReadable | src/pid_monitor/_private/__init__.py:48-69 | ValueError exactly for a base other than 1000 or 1024; otherwise the scaled value with its prefix and the suffix; the same body at src/pid_monitor/_dt_mvc/frontend_cache/system_frontend_cache.py:1-22 |
| Units.LegacyToHumanReadable | src/pid_monitor/__init__.py:82-99 | the oldest copy: ValueError for other bases; otherwise the scaled value with its unit |
| Units.LegacyUnitsAreDefaultSuffix | src/pid_monitor/__init__.py:86-91 | each oldest unit is the newer prefix followed by "B", so both copies agree with the default suffix |
| Units.PercentToStr | src/pid_monitor/_dt_mvc/frontend_cache/system_frontend_cache.py:25-29 | "NA" exactly for a zero total; otherwise the percentage num/total*100 |
| Units.UsagePercent | src/pid_monitor/_private/dt_mvc/std_dispatcher.py:324-327 | "0.00%" exactly for a zero total; otherwise the percentage part/total*100 |
| Units.PercentRulesAgreeOffZero | src/pid_monitor/_private/dt_mvc/std_dispatcher.py:324-327 | the two percentage rules agree except on a zero total, where they differ |
| Units.SumBounds | src/pid_monitor/_private/dt_mvc/std_dispatcher.py:316-319 | a sum of n values within [lo, hi] lies within [n*lo, n*hi] |
| Units.MeanBounds | src/pid_monitor/_private/dt_mvc/std_dispatcher.py:316-319 | the mean (`Mean`) of the per-core percentages lies between their bounds |
| TracerLoader.GetAttr | src/pid_monitor/_private/dt_mvc/tracer_loader.py:14-20 | getattr finds a member of that name, or reports that the module has none |
| TracerLoader.FindMember | src/pid_monitor/_private/dt_mvc/tracer_loader.py:14-20 | a search of a member list finds one of that name, or there is none |
| TracerLoader.FirstImportable | src/pid_monitor/_private/dt_mvc/tracer_loader.py:14-20 | the first path that imports, with none before it; or no path imports |
| TracerLoader.GetTracerClassSearchesFirstImportable | src/pid_monitor/_private/dt_mvc/tracer_loader.py:10-20 | get_tracer_class returns the name from the first importable module; AttributeError when that module lacks it; ModuleNotFoundError exactly when no path imports; the same body at src/pid_monitor/dt_utils.py:20-30 |
| TracerLoader.GetTracerClass | src/pid_monitor/_private/dt_mvc/tracer_loader.py:10-20 | a found class is the one asked for; the only failures are ModuleNotFoundError and AttributeError; ModuleNotFoundError exactly when no path imports; the same body at src/pid_monitor/dt_utils.py:20-30 |
| TracerLoader.FindTracerClass | src/pid_monitor/_private/dt_mvc/tracer_loader.py:10-20 | the corrected search returns a member of that name from an importable module, and fails only with ModuleNotFoundError |
| TracerLoader.FindTracerClassIsComplete | src/pid_monitor/_private/dt_mvc/tracer_loader.py:4-20 | the corrected search succeeds exactly when some importable path defines the name, and then takes it from the first such path |
| TracerLoader.AdditionalTracersAreUnreachable | src/pid_monitor/_private/dt_mvc/tracer_loader.py:4-20 | a class defined only in the additional-tracers module is never found as written, but is found by the corrected search |
| TracerLoader.SearchesAgreeOnFirstModule | src/pid_monitor/_private/dt_mvc/tracer_loader.py:10-20 | the corrected search changes nothing when the first importable module defines the name |
| TracerLoader.TrimLeft | src/pid_monitor/_private/dt_mvc/tracer_loader.py:32-35 | removes exactly the leading whitespace |
| TracerLoader.TrimRight | src/pid_monitor/_private/dt_mvc/tracer_loader.py:32-35 | removes exactly the trailing whitespace |
| TracerLoader.Strip | src/pid_monitor/_private/dt_mvc/tracer_loader.py:32-35 | str.strip() leaves no whitespace at either end and is empty exactly for a blank string |
| TracerLoader.StripEmptyOnlyIfBlank | src/pid_monitor/_private/dt_mvc/tracer_loader.py:32-35 | stripping empties a string exactly when it is all whitespace |
| TracerLoader.FirstLine | src/pid_monitor/_private/dt_mvc/tracer_loader.py:33 | the first line is a prefix with no line break, ending at the first break or at the end |
| TracerLoader.ListModuleLegacy | src/pid_monitor/dt_utils.py:58-63 | the oldest listing of one module is the filter-map `Select` keeping the members whose name contains "Tracer" and does not start with "Base", each with its stripped docstring or "No docs available" |
| TracerLoader.ListModuleLegacyFilters | src/pid_monitor/dt_utils.py:59 | every listed name contains "Tracer", does not start with "Base", and is a member of the module |
| TracerLoader.SelectPositions | src/pid_monitor/dt_utils.py:58-63 | a filter-map lists exactly the kept members, each once, in their order, each rendered by the entry function |
| TracerLoader.ListModuleLegacyListsEveryTracer | src/pid_monitor/dt_utils.py:58-63 | every member whose name contains "Tracer" and does not start with "Base" is listed exactly once, in member order, with its stripped docstring or "No docs available"; no other member is listed |
| TracerLoader.ListTracerLegacy | src/pid_monitor/dt_utils.py:51-65 | the oldest list_tracer is the concatenation, in path order, of `ListModuleLegacy` of every module that imports; every name it yields contains "Tracer", does not start with "Base", and is declared by one of those modules |
| TracerLoader.ListTracerLegacyListsEveryTracer | src/pid_monitor/dt_utils.py:51-65 | every member of an importable module whose name contains "Tracer" and does not start with "Base" is listed, with its stripped docstring or "No docs available" |
| TracerLoader.DocLine | src/pid_monitor/_private/dt_mvc/tracer_loader.py:32-35 | the documentation of a listed tracer: "No docs available" without a docstring; otherwise one non-blank line that is the stripped docstring up to its first line break |
| TracerLoader.ListModule | src/pid_monitor/_private/dt_mvc/tracer_loader.py:30-35 | the corrected listing of one module is the filter-map `Select` keeping the members whose name contains "Tracer", each with its `DocLine` |
| TracerLoader.ListModuleListsEveryTracer | src/pid_monitor/_private/dt_mvc/tracer_loader.py:30-35 | every member whose name contains "Tracer" (Base classes included) is listed exactly once, in member order, with its documentation line; no other member is listed |
| TracerLoader.ListModuleAsWritten | src/pid_monitor/_private/dt_mvc/tracer_loader.py:30-35 | the generator as written raises only IndexError, exactly when some "Tracer" member has a whitespace-only docstring; what it yielded is a prefix of the corrected listing |
| TracerLoader.ListTracer | src/pid_monitor/_private/dt_mvc/tracer_loader.py:23-37 | the corrected list_tracer is the concatenation, in path order, of `ListModule` of every module that imports; every name it yields contains "Tracer" and is documented by one non-blank line or "No docs available" |
| TracerLoader.ListTracerListsEveryTracer | src/pid_monitor/_private/dt_mvc/tracer_loader.py:23-37 | every member of an importable module whose name contains "Tracer" is listed by the corrected list_tracer, with its `DocLine` |
| TracerLoader.ListTracerAsWritten | src/pid_monitor/_private/dt_mvc/tracer_loader.py:23-37 | list_tracer as written: only IndexError escapes; what it yields is a prefix of the corrected listing, and all of it when nothing escapes |
| TracerLoader.ListTracerAsWrittenEscapes | src/pid_monitor/_private/dt_mvc/tracer_loader.py:27-37 | the as-written list_tracer runs to its end exactly when the as-written listing of every importable module does |
| TracerLoader.BlankDocstringHidesLaterModules | src/pid_monitor/_private/dt_mvc/tracer_loader.py:27-37 | a blank docstring in std_tracer stops the as-written listing with IndexError before additional_tracer, while the corrected one lists both tracers |
| TracerLoader.ListModuleDocsAreOneLine | src/pid_monitor/_private/dt_mvc/tracer_loader.py:31-35 | every listed name contains "Tracer", Base classes included, and each is documented by one non-blank line or "No docs available" |
| TracerLoader.ListingsAgreeWithoutBlankDocs | src/pid_monitor/_private/dt_mvc/tracer_loader.py:23-37 | where the generator as written does not raise, it yields exactly the corrected listing |
| TracerLoader.BlankDocstringEscapes | src/pid_monitor/_private/dt_mvc/tracer_loader.py:33 | a whitespace-only docstring stops the listing as written with IndexError; the corrected listing shows "No docs available" |
| Tracers.InitialCache | src/pid_monitor/_private/dt_mvc/std_tracer/system_swap_tracer_thread.py:17-20 | each tracer's constructor stores sentinels of the shape its getters read; likewise for the child tracer at src/pid_monitor/_private/dt_mvc/std_tracer/process_child_tracer_thread.py:13-16 |
| Tracers.RefreshFits | src/pid_monitor/_private/dt_mvc/std_tracer/system_mem_tracer_thread.py:46-59 | after a sample (`Refresh`), the cache keeps its tracer's shape |
| Tracers.CoreNames | src/pid_monitor/_private/dt_mvc/std_tracer/system_cpu_tracer_thread.py:21-27 | the per-core header names are "0" .. "n-1" |
| Tracers.RealCells | src/pid_monitor/_private/dt_mvc/std_tracer/system_cpu_tracer_thread.py:32-38 | one numeric cell per core percentage, in order |
| Tracers.Header | src/pid_monitor/_private/dt_mvc/std_tracer/system_cpu_tracer_thread.py:21-27 | every header is text and starts with TIME; the per-core header has one column per core after it, every other header at least one |
| Tracers.BodyRow | src/pid_monitor/_private/dt_mvc/std_tracer/system_cpu_tracer_thread.py:32-38 | every row starts with its timestamp; the per-core row has one cell per core percentage after it, every other row at least one |
| Tracers.HeaderMatchesBody | src/pid_monitor/_private/dt_mvc/std_tracer/system_cpu_tracer_thread.py:21-38 | each row is as wide as the header: always for fixed-width tracers, and for the per-core tracer exactly when psutil reports one value per counted core |
| Tracers.GettersReadBackSample | src/pid_monitor/_private/dt_mvc/std_tracer/system_mem_tracer_thread.py:28-34 | each getter returns the latest sample in its own order; swap free + used is the total; at src/pid_monitor/_private/dt_mvc/std_tracer/system_swap_tracer_thread.py:22-23, the swap getter returns (total - used, used) |
| Tracers.SwapSentinel | src/pid_monitor/_private/dt_mvc/std_tracer/system_swap_tracer_thread.py:17-23 | before any sample, the swap getter reports (0, -1); the memory and child getters report -1s |
| Tracers.UsedColumnIsTotalMinusAvailable | src/pid_monitor/_private/dt_mvc/std_tracer/system_mem_tracer_thread.py:46-59 | the USED column reads back as total minus available |
| Tracers.ChildRowOrder | src/pid_monitor/_private/dt_mvc/std_tracer/process_child_tracer_thread.py:18-35 | the row writes children then threads, as the header says, while the getter returns threads first |
| Tracers.PresentPrefixIsLeadingRun | src/pid_monitor/dt_mvc/base_tracer_class.py:60-66 | the run loop consumes exactly the leading whole samples, and stops at the first print_body that raises a not-found error |
| Tracers.Rows | src/pid_monitor/dt_mvc/base_tracer_class.py:60-68 | one body row per consumed sample, the i-th being print_body's row for the i-th sample, so the rows keep the samples' order |
| Tracers.TracerThread.ConsumeTick | src/pid_monitor/dt_mvc/base_tracer_class.py:60-66 | one sampling iteration appends print_body's row, and the rest of the run starts from that sample's cache |
| Tracers.TracerThread.constructor | src/pid_monitor/dt_mvc/base_tracer_class.py:34-48 | nothing written, should_exit False, the tracer's sentinel cache |
| Tracers.TracerThread.PrintBody | src/pid_monitor/_private/dt_mvc/std_tracer/process_child_tracer_thread.py:25-32 | print_body raises exactly on a failed step, leaving in the cache the field stored before the failing call; otherwise it caches the whole sample and returns its row; the same order at src/pid_monitor/_private/dt_mvc/std_tracer/process_cpu_tracer_thread.py:27-34 |
| Tracers.TracerThread.RunBody | src/pid_monitor/dt_mvc/base_tracer_class.py:55-68 | the file holds the header once, then one row per whole sample up to the first not-found error; the cache is `CacheAfterRun`, which includes a torn last sample; the same body at src/pid_monitor/dt_base.py:49-62 |
| Tracers.NextTick | src/pid_monitor/dt_mvc/base_tracer_class.py:60-68 | one more sample adds its row and becomes the cache the rest of the run starts from |
| Tracers.CacheAfterRunIsLastSample | src/pid_monitor/dt_mvc/base_tracer_class.py:60-66 | a run leaves the last whole sample in the cache, with what a failing print_body stored written over it |
| Tracers.TornSample | src/pid_monitor/_private/dt_mvc/std_tracer/process_child_tracer_thread.py:25-35 | after a failure between the two psutil calls, the child getter returns the last whole sample's thread count beside the new child count; the CPU tracer holds the new core beside the old percentage (src/pid_monitor/_private/dt_mvc/std_tracer/process_cpu_tracer_thread.py:27-29) |
| Tracers.NewSystemTracer | src/pid_monitor/dt_mvc/base_tracer_class.py:88-100 | a system tracer traces "sys" and starts unflagged with its sentinel cache |
| Tracers.NewProcessTracer | src/pid_monitor/dt_mvc/base_tracer_class.py:103-123 | a process tracer traces str(pid); the lookup re-raises not-found exactly when the pid is not alive; the same body at src/pid_monitor/dt_base.py:86-95 |
| Tracers.ProcessAndSystemFilesDiffer | src/pid_monitor/dt_mvc/base_tracer_class.py:56 | a process tracer never writes the file of a system tracer |
| Tracers.DistinctPidsDistinctFiles | src/pid_monitor/dt_mvc/base_tracer_class.py:56 | tracers of the same type on different pids write different files |
| Supervision.ProcessCacheAtSetup | src/pid_monitor/_private/dt_mvc/std_dispatcher.py:184-205 | the process cache has exactly the nine process fields |
| Supervision.ProcessCacheAtSetupReadsBack | src/pid_monitor/_private/dt_mvc/std_dispatcher.py:184-205 | PID, PPID and NAME read back as the process's own; CPU_TIME reads 0; every other field is NA |
| Supervision.SystemCacheAtSetup | src/pid_monitor/_private/dt_mvc/std_dispatcher.py:246-257 | the system cache has exactly the nine system fields, all NA |
| Supervision.StatRefreshAsWritten | src/pid_monitor/_private/dt_mvc/std_dispatcher.py:232-233 | the STAT line as written: KeyError exactly when the pool has a "STAT" entry and no stat tracer; without a "STAT" entry the cache is unchanged; otherwise STAT shows the status and no other field changes |
| Supervision.StatNeverShown | src/pid_monitor/_private/dt_mvc/std_dispatcher.py:232-233 | with the STAT tracer running, the STAT field stays NA as written, while the intended refresh shows the status |
| Supervision.StatRefreshShowsStatus | src/pid_monitor/_private/dt_mvc/std_dispatcher.py:232-233 | the corrected STAT refresh (`StatRefresh`) shows the tracer's status exactly when that tracer runs, and otherwise changes nothing |
| Supervision.RefreshBeforeStat | src/pid_monitor/_private/dt_mvc/std_dispatcher.py:212-231 | the lines before STAT keep the set of process fields |
| Supervision.BeforeStatTakesFieldsFromTracers | src/pid_monitor/_private/dt_mvc/std_dispatcher.py:212-231 | the lines before STAT leave PID, PPID, NAME and STAT alone; CPU_TIME shows the watermark; every other field shows its own tracer's cached value, or keeps its value when that tracer is absent |
| Supervision.BeforeStatIgnoresStat | src/pid_monitor/_private/dt_mvc/std_dispatcher.py:212-231 | the lines before STAT neither read nor write STAT |
| Supervision.RefreshProcessFields | src/pid_monitor/_private/dt_mvc/std_dispatcher.py:208-233 | the process refresh as written: KeyError exactly when the pool has "STAT" and no stat tracer; otherwise the set of fields is kept |
| Supervision.ProcessRefreshTakesFieldsFromTracers | src/pid_monitor/_private/dt_mvc/std_dispatcher.py:212-233 | as written: KeyError exactly when the pool has "STAT" and no stat tracer; otherwise every field but STAT is as the lines before STAT left it, and STAT shows the status only when the pool has a "STAT" entry, keeping its value otherwise |
| Supervision.ProcessRefreshIsIdempotent | src/pid_monitor/_private/dt_mvc/std_dispatcher.py:208-233 | refreshing twice from unchanged tracers equals refreshing once, both for the lines before STAT and for the whole refresh as written when it succeeds |
| Supervision.VmPercentIsAvailableShare | src/pid_monitor/_private/dt_mvc/std_dispatcher.py:322-327 | VM% reads "0.00%" exactly when the total is zero; otherwise it is the available share, available * 100 / total |
| Supervision.CpuStageFields | src/pid_monitor/_private/dt_mvc/std_dispatcher.py:316-319 | the CPU stage (`CpuStage`) writes only CPU%, a value between the least and the greatest core, and is the identity without a CPU tracer |
| Supervision.MemStageFields | src/pid_monitor/_private/dt_mvc/std_dispatcher.py:320-329 | the memory stage (`MemStage`) writes only the VM, buffered and shared fields, the VM ones from the memory reading, and is the identity without a memory tracer |
| Supervision.SwapStageFields | src/pid_monitor/_private/dt_mvc/std_dispatcher.py:330-337 | the swap stage as written (`SwapStage`, through `SwapRefreshAsWritten`) writes only the swap fields: SWAP_AVAIL the free swap, SWAP_TOTAL the used swap, SWAP_PERCENT free over used; it is the identity without a swap tracer |
| Supervision.SwapRefreshLookups | src/pid_monitor/_private/dt_mvc/std_dispatcher.py:330-337 | the corrected swap fields (`SwapRefresh`) are the total, the free bytes (total - used) and the free share of the total |
| Supervision.SwapRefreshShowsTotalAndFreeShare | src/pid_monitor/_private/dt_mvc/std_dispatcher.py:330-337 | the corrected swap fields (`SwapRefresh`) show the total, the free bytes, and a free share within 0..100 |
| Supervision.SwapFieldsMisreported | src/pid_monitor/_private/dt_mvc/std_dispatcher.py:330-337 | as written, 25 used of 100 shows SWAP_TOTAL 25 B and SWAP_PERCENT 300% |
| Supervision.RefreshSystemFields | src/pid_monitor/_private/dt_mvc/std_dispatcher.py:315-337 | the system refresh keeps the set of fields |
| Supervision.SystemRefreshTakesFieldsFromTracers | src/pid_monitor/_private/dt_mvc/std_dispatcher.py:315-337 | CPU% lies between the least and the greatest core; VM fields come from the memory tracer, VM% being the percent of available over total; the swap fields are as written (free, used shown as total, free over used); each stage whose tracer is absent leaves its fields alone |
| Supervision.SystemRefreshIsIdempotent | src/pid_monitor/_private/dt_mvc/std_dispatcher.py:315-337 | refreshing twice from unchanged tracers equals refreshing once |
| Supervision.CpuTimeReadings | src/pid_monitor/_private/dt_mvc/std_dispatcher.py:84-91 | one get_total_cpu_time reading per iteration of the run loop |
| Supervision.Controller.constructor | src/pid_monitor/_private/dt_mvc/base_dispatcher_class.py:166-168 | no dispatchers and no recorded pids |
| Supervision.Controller.ActivePids | src/pid_monitor/_private/dt_mvc/base_dispatcher_class.py:183-184 | the active pids are exactly the registered ones, all recorded in all_pids |
| Supervision.Controller.Register | src/pid_monitor/_private/dt_mvc/base_dispatcher_class.py:186-188 | the pid maps to the dispatcher and joins all_pids; the same body at src/pid_monitor/dt_mvc/base_dispatcher_class.py:174-176 |
| Supervision.Controller.Remove | src/pid_monitor/_private/dt_mvc/base_dispatcher_class.py:200-204 | the pid is removed and an absent pid is ignored; all_pids keeps it; the same body at src/pid_monitor/dt_mvc/base_dispatcher_class.py:188-192 |
| Supervision.RemoveIsIdempotent | src/pid_monitor/_private/dt_mvc/base_dispatcher_class.py:200-204 | removing twice equals removing once, and removing an absent pid changes nothing |
| Supervision.Controller.TerminateAll | src/pid_monitor/_private/dt_mvc/base_dispatcher_class.py:170-181 | every registered dispatcher is flagged, then the registry is empty; all_pids is kept; the same body at src/pid_monitor/dt_mvc/base_dispatcher_class.py:158-169 |
| Supervision.Controller.CollectAllProcessInfo | src/pid_monitor/_private/dt_mvc/base_dispatcher_class.py:190-195 | AttributeError exactly when a non-system dispatcher has no cache; otherwise every non-system pid's cache |
| Supervision.Controller.CollectSystemInfo | src/pid_monitor/_private/dt_mvc/base_dispatcher_class.py:197-198 | KeyError exactly without a system dispatcher; AttributeError before its setup; otherwise its cache |
| Supervision.Dispatcher.Observe | src/pid_monitor/_private/dt_mvc/std_dispatcher.py:208-233 | the dispatcher reads only caches of pooled tracers |
| Supervision.Dispatcher.ObserveIsWellFormed | src/pid_monitor/_private/dt_mvc/std_dispatcher.py:208-233 | every pooled tracer's cache has its class's shape |
| Supervision.Dispatcher.constructor | src/pid_monitor/_private/dt_mvc/base_dispatcher_class.py:42-66 | an empty pool, no cache, should_exit False, and the dispatcher registered under its pid before anything else |
| Supervision.Dispatcher.AppendThreadpool | src/pid_monitor/_private/dt_mvc/base_dispatcher_class.py:74-75 | the pool maps the thread's class name to it, replacing any earlier thread of that class |
| Supervision.Dispatcher.StartTracer | src/pid_monitor/_private/dt_mvc/base_dispatcher_class.py:77-93 | one name: pooled as a fresh unstarted tracer when it loads and the pid is alive, otherwise skipped |
| Supervision.Dispatcher.StartTracers | src/pid_monitor/_private/dt_mvc/base_dispatcher_class.py:77-93 | exactly the names that load (and whose pid is alive) join the pool as fresh unstarted tracers; other entries stay; the same body at src/pid_monitor/dt_mvc/base_dispatcher_class.py:67-81 |
| Supervision.Dispatcher.BeforeEnding | src/pid_monitor/_private/dt_mvc/std_dispatcher.py:175-182 | the process dispatcher writes its cached CPU time; at src/pid_monitor/_private/dt_mvc/std_dispatcher.py:259-261, the system dispatcher does nothing |
| Supervision.Dispatcher.Sigterm | src/pid_monitor/_private/dt_mvc/base_dispatcher_class.py:123-141 | before_ending, deregistration, every pooled thread flagged, an empty pool, in that order; the same body at src/pid_monitor/dt_mvc/base_dispatcher_class.py:111-129 |
| Supervision.Dispatcher.SetupProcessCache | src/pid_monitor/_private/dt_mvc/std_dispatcher.py:184-205 | CPU time 0 and the setup cache of the process |
| Supervision.Dispatcher.StatGuardOnPool | src/pid_monitor/_private/dt_mvc/std_dispatcher.py:232-233 | the STAT line raises exactly when the pool holds an entry "STAT" and no stat tracer |
| Supervision.Dispatcher.UpdateProcessCache | src/pid_monitor/_private/dt_mvc/std_dispatcher.py:207-233 | the CPU time becomes the max of old and new readings, then the fields refresh from the pooled tracers as written; KeyError exactly when the STAT line raises, after the fields before it are written |
| Supervision.Dispatcher.RefreshFields | src/pid_monitor/_private/dt_mvc/std_dispatcher.py:212-233 | reading the pooled tracers' caches once (which fit their classes), the CPU time becomes the given watermark and the frontend cache becomes `RefreshedCache` of the old one; the fault is KeyError exactly when the pool holds "STAT" and no stat tracer |
| Supervision.LoadsFromFirstPackage | src/pid_monitor/_private/dt_mvc/tracer_loader.py:10-20 | a name loads exactly when the first `_private` tracer package that imports defines it, so a class only additional_tracer defines never loads while std_tracer imports |
| Supervision.RefreshedCache | src/pid_monitor/_private/dt_mvc/std_dispatcher.py:212-233 | the cache _update_cache leaves behind keeps the set of process fields; when the STAT line raises it is the cache with the fields before STAT written, otherwise the full as-written refresh |
| Supervision.Dispatcher.SpawnChild | src/pid_monitor/_private/dt_mvc/std_dispatcher.py:159-170 | an inactive child gets a fresh registered dispatcher, with a cache exactly when it is alive; `failed` exactly when it had exited or psutil refuses its details, and then it has no tracers and is not pooled; otherwise it is pooled |
| Supervision.Dispatcher.DetectProcessAsWritten | src/pid_monitor/_private/dt_mvc/std_dispatcher.py:153-173 | succeeds exactly when the process lives and every unregistered child is alive and readable; a failure with the process alive leaves a listed child that is not alive and readable registered with no tracers, and with a cache exactly when it is alive |
| Supervision.Dispatcher.DetectProcess | src/pid_monitor/_private/dt_mvc/std_dispatcher.py:153-173 | fails exactly when the traced process is gone; afterwards a child is registered iff it was already or is alive and readable; new entries are fresh children with caches; existing entries are unchanged |
| Supervision.Dispatcher.ProcessRound | src/pid_monitor/_private/dt_mvc/std_dispatcher.py:84-91 | one iteration: the watermark takes the new reading; a KeyError from the STAT line ends the loop; otherwise detection as written, which continues exactly when the process lives and every listed child is registered or alive and readable, and on a break with the process alive leaves a failed child registered without tracers |
| Supervision.Dispatcher.RunProcessBody | src/pid_monitor/_private/dt_mvc/std_dispatcher.py:76-92 | a KeyError from the STAT line escapes, skipping sigterm, exactly when a round ran with a pool whose STAT line raises; otherwise the loop stops at the stop request or when a round finds the process gone or a child that is neither registered nor alive and readable (leaving that child registered without tracers, unless the process lists itself), the written CPU time is the maximum reading, and the dispatcher is deregistered with an empty pool and its tracers flagged |
| Supervision.Dispatcher.SetupSystemCache | src/pid_monitor/_private/dt_mvc/std_dispatcher.py:246-257 | the system cache with every field NA |
| Supervision.Dispatcher.WriteMountTable | src/pid_monitor/_private/dt_mvc/std_dispatcher.py:291-313 | the dispatcher's mount table is the header and then one row per partition |
| Supervision.Dispatcher.UpdateSystemCache | src/pid_monitor/_private/dt_mvc/std_dispatcher.py:315-337 | the system fields refresh from the pooled tracers |
| Supervision.Dispatcher.RunSystemBody | src/pid_monitor/_private/dt_mvc/std_dispatcher.py:286-289 | the loop ends flagged, with the cache refreshed once or more (idempotent) unless no iteration ran; it never deregisters |
| Supervision.NewProcessDispatcher | src/pid_monitor/_private/dt_mvc/std_dispatcher.py:34-74 | the pid is always registered; NotFound exactly when it is not alive or psutil refuses its details; a gone pid leaves a cacheless entry, a refused one an entry with its cache and no tracers; otherwise cache set up, CPU time 0, tracers started |
| Supervision.NewSystemDispatcher | src/pid_monitor/_private/dt_mvc/std_dispatcher.py:266-284 | registered under -1, then the cache, the mount table and the tracers, in that order |
| Supervision.ShortLivedChildSnapshot | src/pid_monitor/_private/dt_mvc/std_dispatcher.py:153-173 | a parent, pid 10, alive and listing only child 11, which is not alive |
| Supervision.ShortLivedChildAsWritten | src/pid_monitor/_private/dt_mvc/std_dispatcher.py:153-173 | as written, detection under that parent fails, pid 11 stays registered without a cache, and collecting process info then fails |
| Supervision.ShortLivedChildCorrected | src/pid_monitor/_private/dt_mvc/std_dispatcher.py:153-173 | with corrected detection, the same parent's detection succeeds, pid 11 is not registered, and collecting succeeds |
| Supervision.Dispatcher.AdmitChild | src/pid_monitor/_private/dt_mvc/std_dispatcher.py:159-170 | an unregistered child joins the registry iff it is alive and readable, as a fresh child dispatcher with a cache, and joins `allPids` either way; a failed one is deregistered again; existing entries stay |
| Supervision.Dispatcher.AdmitNext | src/pid_monitor/_private/dt_mvc/std_dispatcher.py:158-170 | one iteration of the children loop keeps the detection invariant: every visited child is registered iff it was already or is alive, and the pid set grows by exactly the new entries |
| Supervision.Dispatcher.Rounds | src/pid_monitor/_private/dt_mvc/std_dispatcher.py:84-91 | the iterations run until the schedule ends, the stop request, a break by detection or a KeyError, which can only come in the first iteration; the CPU time is the watermark of the readings taken |
| Supervision.Dispatcher.ProcessLoop | src/pid_monitor/_private/dt_mvc/std_dispatcher.py:84-91 | rounds run while no stop was requested, the process and every listed child are alive or registered, and the STAT line does not raise; KeyError exactly when a round ran with a pool whose STAT line raises; the cached CPU time is the maximum over the rounds' readings; the pool gains only child dispatchers |
| DtMvc.ModuleRegistry.constructor | src/pid_monitor/dt_mvc/dispatcher_controller.py:9 | the module-level dict starts empty |
| DtMvc.ModuleRegistry.ActivePids | src/pid_monitor/dt_mvc/dispatcher_controller.py:27-28 | the active pids are exactly the registered ones |
| DtMvc.ModuleRegistry.Register | src/pid_monitor/dt_mvc/dispatcher_controller.py:31-32 | the pid maps to the dispatcher; other entries are unchanged |
| DtMvc.ModuleRegistry.Remove | src/pid_monitor/dt_mvc/dispatcher_controller.py:47-51 | the pid is gone; an absent pid leaves the dict unchanged |
| DtMvc.ModuleRegistry.TerminateAll | src/pid_monitor/dt_mvc/dispatcher_controller.py:13-24 | every entry flagged, then the dict empty |
| DtMvc.ModuleRegistry.CollectAllProcessInfo | src/pid_monitor/dt_mvc/dispatcher_controller.py:35-40 | every entry except the system pid |
| DtMvc.ModuleRegistry.CollectSystemInfo | src/pid_monitor/dt_mvc/dispatcher_controller.py:43-44 | KeyError exactly without a system entry; otherwise that entry |
| DtMvc.NewBaseDispatcher | src/pid_monitor/dt_mvc/base_dispatcher_class.py:42-62 | registered under its dispatchee with an empty tracer list, so start_tracers leaves the pool empty |
| Legacy.OrDefault | src/pid_monitor/std_dispatcher.py:32-42 | the given tracer list, or the defaults when none is given |
| Legacy.Kept | src/pid_monitor/dt_base.py:125-139 | the started names are exactly the loadable ones among those given, at most as many |
| Legacy.Globals.constructor | src/pid_monitor/dt_utils.py:47 | no dispatchers and no recorded pids |
| Legacy.Globals.TerminateAll | src/pid_monitor/dt_utils.py:33-44 | every registered dispatcher is flagged, then the registry is empty |
| Legacy.Dispatcher.constructor | src/pid_monitor/dt_base.py:103-123 | an empty pool, should_exit False, dispatchee str(pid) or "sys"; nothing registered |
| Legacy.Dispatcher.StartTracers | src/pid_monitor/dt_base.py:125-139 | the old pool stays as a prefix; the added threads are fresh and their class names are, in order, exactly the loaded names that load |
| Legacy.KeptStep | src/pid_monitor/dt_base.py:127-139 | visiting one more loaded name keeps it exactly when it loads |
| Legacy.ClassNames | src/pid_monitor/dt_base.py:139 | the class names of a pool, position by position |
| Legacy.Dispatcher.StartTracer | src/pid_monitor/dt_base.py:130-137 | a fresh tracer thread of the requested class |
| Legacy.Dispatcher.StartNext | src/pid_monitor/dt_base.py:127-139 | one loop iteration appends a fresh thread exactly when the name loads, keeping the names in order |
| Legacy.Dispatcher.VisitChild | src/pid_monitor/std_dispatcher.py:141-147 | one iteration of the children loop: a registered child is skipped, a living one is registered and recorded in both pid sets, an exited unregistered one fails detection |
| Legacy.Dispatcher.BeforeEnding | src/pid_monitor/std_dispatcher.py:152-159 | the process dispatcher writes its last CPU time; the system one nothing |
| Legacy.Dispatcher.Sigterm | src/pid_monitor/dt_base.py:168-185 | before_ending, every pooled thread flagged, an empty pool; the dispatcher stays registered |
| Legacy.Dispatcher.SpawnChild | src/pid_monitor/std_dispatcher.py:142-147 | a child gets a fresh dispatcher, registered and shown, exactly when it is alive and readable; otherwise nothing is registered, and a live but unreadable child is added to `_ALL_PIDS` |
| Legacy.Dispatcher.DetectProcess | src/pid_monitor/std_dispatcher.py:136-150 | succeeds exactly when the process lives and every unregistered child is alive and readable; new entries are fresh child dispatchers, also recorded in both pid sets; a failure with the process alive names a failed child, added to `_ALL_PIDS` when it is alive |
| Legacy.Dispatcher.ProcessRound | src/pid_monitor/std_dispatcher.py:69-73 | the CPU time is overwritten by the new reading, -1 included; the round fails exactly when the process is gone or a listed child is neither registered nor alive and readable; registered pids stay registered |
| Legacy.Dispatcher.RunProcessBody | src/pid_monitor/std_dispatcher.py:59-75 | the written CPU time is the last reading, so -1 when the process had gone; an early stop means the last round's snapshot was untraceable; the pool ends empty; every thread pooled at the start and every child dispatcher pooled by the time of sigterm has should_exit set |
| Legacy.Dispatcher.WriteMountTable | src/pid_monitor/std_dispatcher.py:183-205 | the header and then one row per partition |
| Legacy.NewProcessDispatcher | src/pid_monitor/std_dispatcher.py:20-57 | NotFound exactly when the pid is not alive or psutil refuses its details; a refused live pid is still added to `_ALL_PIDS`; otherwise the pid joins `_ALL_PIDS`, the defaults apply, CPU time 0, and the pool holds fresh threads of exactly the loaded classes that load |
| Legacy.NewSystemDispatcher | src/pid_monitor/std_dispatcher.py:170-181 | dispatchee "sys", the default system tracers, the mount table, then a pool of fresh threads of exactly the tracers that load |
| Legacy.ExitingProcessScenario | src/pid_monitor/std_dispatcher.py:67-75 | a process that used 1.5 s and exits has -1 recorded here, but 1.5 under the `_private` watermark |
| NextGen.Controller.constructor | src/pid_monitor/_private/dt_mvc/base_dispatcher_class.py:166-168 | no dispatchers and no frontend caches |
| NextGen.Controller.ActivePids | src/pid_monitor/_private/dt_mvc/base_dispatcher_class.py:183-184 | the active pids are exactly the registered ones |
| NextGen.Controller.Register | src/pid_monitor/_private/dt_mvc/base_dispatcher_class.py:186-188 | the pid maps to the dispatcher |
| NextGen.Controller.RegisterFrontendCache | src/pid_monitor/_dt_mvc/std_dispatcher/process_tracer_dispatcher.py:81-84 | the pid maps to the frontend cache |
| NextGen.Controller.Remove | src/pid_monitor/_private/dt_mvc/base_dispatcher_class.py:200-204 | the pid is removed |
| NextGen.Dispatcher.constructor | src/pid_monitor/_dt_mvc/std_dispatcher/process_tracer_dispatcher.py:58-64 | registered under its pid, an empty pool, CPU time -1 |
| NextGen.Dispatcher.StartTracers | src/pid_monitor/_dt_mvc/std_dispatcher/process_tracer_dispatcher.py:85-87 | exactly the names that load (and whose pid is alive) join the pool as fresh unflagged threads |
| NextGen.Dispatcher.BeforeEnding | src/pid_monitor/_dt_mvc/std_dispatcher/process_tracer_dispatcher.py:189-196 | the process dispatcher writes its CPU time; at src/pid_monitor/_dt_mvc/std_dispatcher/system_tracer_dispatcher.py:17-19, the system dispatcher does nothing |
| NextGen.Dispatcher.Sigterm | src/pid_monitor/_private/dt_mvc/base_dispatcher_class.py:123-141 | before_ending, deregistration, every pooled thread flagged, an empty pool |
| NextGen.Dispatcher.SetupProcessCache | src/pid_monitor/_dt_mvc/std_dispatcher/process_tracer_dispatcher.py:76-84 | a fresh frontend cache with the process's name and parent, registered under the pid |
| NextGen.Dispatcher.UpdateLastCpuTime | src/pid_monitor/_dt_mvc/std_dispatcher/process_tracer_dispatcher.py:89-91 | the CPU time and the frontend cache's copy become the new reading |
| NextGen.Dispatcher.SpawnChild | src/pid_monitor/_dt_mvc/std_dispatcher/process_tracer_dispatcher.py:175-184 | an inactive child gets a fresh registered dispatcher, with a frontend cache exactly when it is alive and readable, and pooled then; `failed` exactly when it is not |
| NextGen.Dispatcher.DetectProcess | src/pid_monitor/_dt_mvc/std_dispatcher/process_tracer_dispatcher.py:170-187 | succeeds exactly when the process lives and every unregistered child is alive and readable; existing entries are unchanged; new entries are children |
| NextGen.Dispatcher.ProcessRound | src/pid_monitor/_dt_mvc/std_dispatcher/process_tracer_dispatcher.py:102-107 | detection first: the round fails exactly when the process is gone or a listed child is neither registered nor alive and readable; only on success the CPU time becomes the new reading |
| NextGen.Dispatcher.RunProcessBody | src/pid_monitor/_dt_mvc/std_dispatcher/process_tracer_dispatcher.py:93-109 | the written CPU time is the reading of the last successful iteration (or -1); an early stop means the next snapshot was untraceable; the dispatcher is deregistered with an empty pool; every tracer pooled at the start and the child dispatcher pooled at sigterm have should_exit set |
| NextGen.Dispatcher.WriteMountTable | src/pid_monitor/_dt_mvc/std_dispatcher/system_tracer_dispatcher.py:41-63 | the header and then one row per partition |
| NextGen.Dispatcher.SetupSystemCache | src/pid_monitor/_dt_mvc/std_dispatcher/system_tracer_dispatcher.py:32-36 | a fresh system frontend cache with its sentinels, registered under -1 |
| NextGen.LastReading | src/pid_monitor/_dt_mvc/std_dispatcher/process_tracer_dispatcher.py:89-91 | overwriting keeps only the latest reading, or the start when there is none |
| NextGen.NewProcessDispatcher | src/pid_monitor/_dt_mvc/std_dispatcher/process_tracer_dispatcher.py:42-87 | always registered with CPU time -1; NotFound exactly when the pid is not alive or psutil refuses its details, with no frontend cache; otherwise cache registered, then tracers started |
| NextGen.NewSystemDispatcher | src/pid_monitor/_dt_mvc/std_dispatcher/system_tracer_dispatcher.py:21-39 | registered under -1, then the mount table, the frontend cache and the tracers, in that order |
| FrontendCaches.SystemFrontendCache.constructor | src/pid_monitor/_dt_mvc/frontend_cache/system_frontend_cache.py:41-48 | every figure starts at -1 |
| FrontendCaches.SystemFrontendCache.Render | src/pid_monitor/_dt_mvc/frontend_cache/system_frontend_cache.py:50-62 | CPU% against 100; sizes in binary units; free swap is total - used; each share is NA exactly for a zero total, otherwise available/total*100 |
| FrontendCaches.FreshSystemCacheRendering | src/pid_monitor/_dt_mvc/frontend_cache/system_frontend_cache.py:41-62 | a cache nobody wrote renders -1%, -1 B and the shares 100% and 0% |
| FrontendCaches.ProcessFrontendCache.constructor | src/pid_monitor/_dt_mvc/std_dispatcher/process_tracer_dispatcher.py:76-80 | built from the process's name, parent pid and pid |
| Probes.CpuProbe.constructor | src/pid_monitor/_dt_mvc/std_tracer/process_cpu_tracer_thread.py:13-31 | no rows yet, sharing the process's frontend cache |
| Probes.CpuProbe.ProbeAsWritten | src/pid_monitor/_dt_mvc/std_tracer/process_cpu_tracer_thread.py:33-43 | a missing sample changes nothing; otherwise the cache gets the percentage and the row is [time, percentage, core] |
| Probes.CpuProbe.Probe | src/pid_monitor/_dt_mvc/std_tracer/process_cpu_tracer_thread.py:24-43 | the corrected row puts each value under its header label |
| Probes.CpuColumnsSwapped | src/pid_monitor/_dt_mvc/std_tracer/process_cpu_tracer_thread.py:26-43 | the row as written does not match the header's labels |
| Probes.ProbeRowMatchesHeader | src/pid_monitor/_dt_mvc/std_tracer/process_cpu_tracer_thread.py:26-30 | the corrected row matches the header for every sample |
| Probes.StatProbe.constructor | src/pid_monitor/_dt_mvc/std_tracer/process_stat_tracer_thread.py:11-28 | no rows yet, sharing the process's frontend cache |
| Probes.StatProbe.ProbeAsWritten | src/pid_monitor/_dt_mvc/std_tracer/process_stat_tracer_thread.py:30-38 | a missing status changes nothing; otherwise the status replaces the tracer's reference to the cache and the row is appended |
| Probes.StatProbe.Probe | src/pid_monitor/_dt_mvc/std_tracer/process_stat_tracer_thread.py:30-38 | the corrected probe writes the status into the shared cache, keeps the reference, and appends a row of the header's width |
| Probes.StatSampleScenario | src/pid_monitor/_dt_mvc/std_tracer/process_stat_tracer_thread.py:34 | as written, one sample detaches the tracer from the cache and the cache's status stays NA; corrected, it shows the status |

## Left out

- **Output files.** Most writes are not modelled:
  - the registry, environment and mapfile writes;
  - log output;
  - the `.tsv` files as byte streams.

  Output tables are modelled as sequences of rows.
- **Number rendering.** `round(x, 2)`, `str()` of a float and timestamps are not modelled. Numbers are kept as values in `Common.Cell`, and timestamps are parameters.
- **Threads.** Threads, `sleep`, the mutexes and `__del__` are abstracted away:
  - each operation is atomic, except that print_body can fail between its two psutil calls (modelled as `Tracers.Step.Failed`);
  - a run loop's duration is given by its schedule.
- **Tracers without a model.** The IO, FD and syscall tracers (`dt_mvc/std_tracer`) are not modelled. Their psutil calls and headers are not part of the dispatcher bookkeeping. They count as names in `loadable` only.
- **Tracer loading.** `loadable` abstracts both class lookup and construction. Keyword arguments that a tracer class would reject are not modelled.
- **Whitespace.** `str.strip` and `splitlines` are modelled for ASCII whitespace and line breaks only.
- **Live views.** `get_current_active_pids` returns a live keys() view in the source. The model returns the set at the time of the call, which is the same because each step is atomic.
- **The system pid.** psutil's ValueError for a negative pid is not modelled. `Metrics.SystemPidIsNoProcess` shows that -1 is never a live pid.
- **`_dt_mvc` sources outside this model.** The `_dt_mvc` base dispatcher, its DispatcherController, ProcessFrontendCache, PMConfig and the table appenders are not part of this model.
  - `NextGen` assumes that registration, deregistration and sigterm behave as in the `_private` generation, except for `all_pids`. The `_private` `register_dispatcher` also adds the pid to `all_pids` (`_private/dt_mvc/base_dispatcher_class.py:186-188`). `NextGen.Controller` keeps no such set, because the `_dt_mvc` controller is not part of this model.
  - `NextGen` assumes the controller keeps the frontend caches in a map by pid.
  - `NextGen` pools tracers by their threads only.
- **`_private` base tracer.** `_private/dt_mvc/base_tracer_class.py` is not part of this model. The `_private` tracers are given the dt_mvc base tracer's behaviour.
- **Oldest-generation imports.** `pid_monitor/std_dispatcher.py` imports `_ALL_PIDS` and `_PSUTIL_NOTFOUND_ERRORS`, which the package `__init__.py` does not define. The model takes them to be a pid set and the not-found errors.
- **Oldest system dispatcher.** Its run loop (dt_base `run_body`, which only sleeps until `should_exit`) is not modelled.
- **Oldest keyword handling.** The keyword-argument handling of the oldest dispatchers is not modelled beyond the tracer list.
- **DtMvc collect functions.** `DtMvc.ModuleRegistry.CollectAllProcessInfo` and `CollectSystemInfo` return dispatchers rather than the values of their `collect_information()`, which is abstract in dt_mvc.
- **NextGen.Dispatcher.RunProcessBody.** It does not state which child dispatchers end in the registry. `DetectProcess` states that step by step.
- **Legacy.Dispatcher.RunProcessBody.** It states only that registered pids stay registered, not which child dispatchers join. `DetectProcess` states that step by step.
- **Supervision.Dispatcher.RunSystemBody.** The loop is left only through the stop request. The run of `sleep` between refreshes is not modelled.
- **Supervision.CpuTimeReadings.** It states one reading per snapshot, not the interleaving with sleeps.

## Findings

| source | as written | input that shows it | evidently intended | confidence | as-written member | corrected member |
|---|---|---|---|---|---|---|
| src/pid_monitor/_private/dt_mvc/std_dispatcher.py:232-233 | STAT is refreshed only when the pool has an entry named "STAT", which no tracer class has | pool holding ProcessSTATTracerThread with status "S": STAT stays NA | guard on the STAT tracer's class name | not executed | Supervision.StatNeverShown | Supervision.StatRefreshShowsStatus |
| src/pid_monitor/_dt_mvc/std_tracer/process_stat_tracer_thread.py:34 | the status string replaces the tracer's reference to the frontend cache | one sample "sleeping": the tracer no longer refers to the cache, whose status stays NA | write the status into the shared cache | not executed | Probes.StatProbe.ProbeAsWritten | Probes.StatProbe.Probe |
| src/pid_monitor/_dt_mvc/std_tracer/process_cpu_tracer_thread.py:39-43 | the row is [time, percentage, core] under the header TIME, OnCPU, CPU_PERCENT | 37.5% on core 2 is recorded as 37.5 under OnCPU | [time, core, percentage] | not executed | Probes.CpuColumnsSwapped | Probes.ProbeRowMatchesHeader |
| src/pid_monitor/_private/dt_mvc/std_dispatcher.py:330-337 | SWAP_TOTAL shows the getter's second element (used) and SWAP_PERCENT divides free by used | total 100, used 25: SWAP_TOTAL 25 B, SWAP_PERCENT 300% | total = free + used, percent = free / total | not executed | Supervision.SwapFieldsMisreported | Supervision.SwapRefreshShowsTotalAndFreeShare |
| src/pid_monitor/_private/dt_mvc/tracer_loader.py:14-20 | the getattr on the first importable module is final, so its AttributeError escapes | a tracer defined only in additional_tracer is never found | skip a module that lacks the name | not executed | TracerLoader.AdditionalTracersAreUnreachable | TracerLoader.FindTracerClassIsComplete |
| src/pid_monitor/_private/dt_mvc/tracer_loader.py:33 | `splitlines()[0]` of a stripped whitespace-only docstring raises IndexError | a tracer whose docstring is "  \n" | treat it as no docs | not executed | TracerLoader.BlankDocstringEscapes, TracerLoader.BlankDocstringHidesLaterModules | TracerLoader.ListModuleDocsAreOneLine, TracerLoader.ListTracerListsEveryTracer |
| src/pid_monitor/_private/dt_mvc/std_dispatcher.py:153-173 | a child that exits before its dispatcher looks it up stays registered without a cache, and the error ends the parent's detection | parent 10 lists child 11, which is gone: pid 11 stays registered and collect_all_process_info raises AttributeError | deregister the failed child and continue | not executed | Supervision.ShortLivedChildAsWritten | Supervision.ShortLivedChildCorrected, Supervision.Dispatcher.DetectProcess |
| src/pid_monitor/std_dispatcher.py:67-75 | the CPU time is overwritten each iteration, so the `.cputime` file of a process that exits records -1 | a process that used 1.5 s exits between iterations: -1 is recorded | keep the last good reading, as the `_private` watermark does | not executed | Legacy.ExitingProcessScenario | Supervision.Dispatcher.RunProcessBody |
