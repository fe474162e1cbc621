/**
 * The dispatchers of the `_dt_mvc` generation.  Compared with the `_private`
 * dispatchers they publish figures through frontend-cache objects that the
 * controller keeps by pid, the process dispatcher overwrites its CPU time
 * (starting from -1) instead of keeping a maximum, each iteration detects
 * children before reading the CPU time, and the system dispatcher writes its
 * mount table before its cache exists.
 *
 * The `_dt_mvc` base dispatcher and controller are not part of this model;
 * registration, deregistration and sigterm are taken to behave as in the
 * `_private` generation, and the controller to keep the frontend caches in a
 * map by pid.  Tracers are represented in the pool by their threads only.
 */
module NextGen {
  import opened Common
  import Metrics
  import MountTable
  import FrontendCaches
  import Supervision

  /** A frontend cache as the controller keeps it. */
  datatype CacheRef =
    | ProcessCache(p: FrontendCaches.ProcessFrontendCache)
    | SystemCache(s: FrontendCaches.SystemFrontendCache)

  class Controller {
    var dispatchers: map<int, Dispatcher>
    var caches: map<int, CacheRef>

    constructor ()
      ensures dispatchers == map[] && caches == map[]
    {
      dispatchers := map[];
      caches := map[];
    }

    /** get_current_active_pids. */
    function ActivePids(): (r: set<int>)
      reads this
      ensures forall p :: p in r <==> p in dispatchers
    {
      dispatchers.Keys
    }

    method Register(pid: int, d: Dispatcher)
      modifies this`dispatchers
      ensures dispatchers == old(dispatchers)[pid := d]
    {
      dispatchers := dispatchers[pid := d];
    }

    /** register_frontend_cache: the cache the display reads for `pid`. */
    method RegisterFrontendCache(pid: int, c: CacheRef)
      modifies this`caches
      ensures caches == old(caches)[pid := c]
    {
      caches := caches[pid := c];
    }

    method Remove(pid: int)
      modifies this`dispatchers
      ensures dispatchers == old(dispatchers) - {pid}
    {
      dispatchers := dispatchers - {pid};
    }
  }

  class Dispatcher {
    const tracePid: int
    const kind: Supervision.Kind
    const tracersToLoad: seq<string>
    const controller: Controller
    const thread: Thread
    /** The tracer and child-dispatcher threads by class name. */
    var threadPool: map<string, Thread>
    /** `_cached_last_cpu_time`. */
    var lastCpuTime: real
    /** The process dispatcher's frontend cache; None until it is built. */
    var processCache: Option<FrontendCaches.ProcessFrontendCache>
    /** The system dispatcher's frontend cache; None until it is built. */
    var systemCache: Option<FrontendCaches.SystemFrontendCache>
    /** What before_ending wrote to `<basename>.<pid>.cputime`. */
    var cpuTimeFile: Option<real>
    /** The lines of `<basename>.mnt.tsv`. */
    var mountTable: seq<Row>
    ghost var steps: seq<Supervision.Step>

    predicate Valid()
      reads this
    {
      && thread.className == Supervision.ClassOf(kind)
      && (kind == Supervision.SystemKind ==> tracePid == SYSTEM_PID)
      && (forall k :: k in threadPool ==> threadPool[k].className == k)
      && (processCache.Some? ==> processCache.value.pid == tracePid)
    }

    /**
     * The base constructor as in the `_private` generation, followed by the
     * process dispatcher's CPU time sentinel -1.
     */
    constructor (tracePid: int, kind: Supervision.Kind, tracersToLoad: seq<string>, controller: Controller)
      requires kind == Supervision.SystemKind ==> tracePid == SYSTEM_PID
      modifies controller`dispatchers
      ensures this.tracePid == tracePid && this.kind == kind
      ensures this.tracersToLoad == tracersToLoad && this.controller == controller
      ensures fresh(thread) && !thread.shouldExit
      ensures threadPool == map[] && lastCpuTime == -1.0
      ensures processCache.None? && systemCache.None? && cpuTimeFile.None? && mountTable == []
      ensures steps == [Supervision.Registered]
      ensures controller.dispatchers == old(controller.dispatchers)[tracePid := this]
      ensures Valid()
    {
      this.tracePid := tracePid;
      this.kind := kind;
      this.tracersToLoad := tracersToLoad;
      this.controller := controller;
      thread := new Thread(Supervision.ClassOf(kind));
      threadPool := map[];
      lastCpuTime := -1.0;
      processCache := None;
      systemCache := None;
      cpuTimeFile := None;
      mountTable := [];
      steps := [Supervision.Registered];
      new;
      controller.Register(tracePid, this);
    }

    /** `name` is one start_tracers manages to construct. */
    predicate Started(loadable: set<string>, snap: Metrics.Snapshot, name: string)
    {
      name in tracersToLoad && name in loadable && (kind == Supervision.SystemKind || tracePid in snap)
    }

    /**
     * start_tracers: every name that loads (and, for a process dispatcher,
     * whose pid is alive) gets a new, unflagged tracer thread pooled under it.
     */
    method StartTracers(loadable: set<string>, snap: Metrics.Snapshot)
      requires Valid()
      modifies this`threadPool, this`steps
      ensures Valid()
      ensures steps == old(steps) + [Supervision.TracersStarted]
      ensures forall k :: k in threadPool <==> k in old(threadPool) || Started(loadable, snap, k)
      ensures forall k :: k in threadPool && !Started(loadable, snap, k) ==> threadPool[k] == old(threadPool)[k]
      ensures forall k :: Started(loadable, snap, k) ==> fresh(threadPool[k]) && !threadPool[k].shouldExit
    {
      var i := 0;
      while i < |tracersToLoad|
        invariant 0 <= i <= |tracersToLoad|
        invariant Valid() && steps == old(steps)
        invariant forall k :: k in threadPool <==> k in old(threadPool) || (k in tracersToLoad[..i] && Started(loadable, snap, k))
        invariant forall k :: k in threadPool && !(k in tracersToLoad[..i] && Started(loadable, snap, k)) ==>
                    threadPool[k] == old(threadPool)[k]
        invariant forall k :: k in tracersToLoad[..i] && Started(loadable, snap, k) ==>
                    fresh(threadPool[k]) && !threadPool[k].shouldExit
      {
        var name := tracersToLoad[i];
        assert forall k :: k in tracersToLoad[..i + 1] <==> k in tracersToLoad[..i] || k == name;
        if name in loadable && (kind == Supervision.SystemKind || tracePid in snap) {
          var t := new Thread(name);
          threadPool := threadPool[name := t];
        }
        i := i + 1;
      }
      assert tracersToLoad[..i] == tracersToLoad;
      steps := steps + [Supervision.TracersStarted];
    }

    /** before_ending: the process dispatcher records its CPU time; the system one does nothing. */
    method BeforeEnding()
      modifies this`cpuTimeFile
      ensures kind == Supervision.ProcessKind ==> cpuTimeFile == Some(lastCpuTime)
      ensures kind == Supervision.SystemKind ==> cpuTimeFile == old(cpuTimeFile)
    {
      if kind == Supervision.ProcessKind {
        cpuTimeFile := Some(lastCpuTime);
      }
    }

    /** sigterm: before_ending, deregistration, every pooled thread flagged, the pool emptied. */
    method Sigterm()
      modifies this`threadPool, this`cpuTimeFile, this`steps, controller`dispatchers, threadPool.Values
      ensures kind == Supervision.ProcessKind ==> cpuTimeFile == Some(lastCpuTime)
      ensures kind == Supervision.SystemKind ==> cpuTimeFile == old(cpuTimeFile)
      ensures controller.dispatchers == old(controller.dispatchers) - {tracePid}
      ensures forall k :: k in old(threadPool) ==> old(threadPool)[k].shouldExit
      ensures threadPool == map[]
      ensures steps == old(steps) + Supervision.SIGTERM_STEPS
    {
      BeforeEnding();
      steps := steps + [Supervision.EndingHook];
      controller.Remove(tracePid);
      steps := steps + [Supervision.Deregistered];
      var names := threadPool.Keys;
      while names != {}
        invariant names <= threadPool.Keys && threadPool == old(threadPool)
        invariant kind == Supervision.ProcessKind ==> cpuTimeFile == Some(lastCpuTime)
        invariant kind == Supervision.SystemKind ==> cpuTimeFile == old(cpuTimeFile)
        invariant controller.dispatchers == old(controller.dispatchers) - {tracePid}
        invariant steps == old(steps) + [Supervision.EndingHook, Supervision.Deregistered]
        invariant forall k :: k in threadPool && k !in names ==> threadPool[k].shouldExit
        decreases names
      {
        var k :| k in names;
        threadPool[k].shouldExit := true;
        names := names - {k};
      }
      steps := steps + [Supervision.PoolFlagged];
      threadPool := map[];
      steps := steps + [Supervision.PoolCleared];
    }

    /**
     * The process dispatcher's cache: built from the name, parent pid and pid
     * psutil reports and registered with the controller under the pid.
     */
    method SetupProcessCache(view: Metrics.ProcessView)
      requires Valid() && kind == Supervision.ProcessKind
      modifies this`processCache, this`steps, controller`caches
      ensures processCache.Some? && fresh(processCache.value)
      ensures processCache.value.name == view.name && processCache.value.ppid == view.ppid
      ensures controller.caches == old(controller.caches)[tracePid := ProcessCache(processCache.value)]
      ensures steps == old(steps) + [Supervision.CacheSetUp]
      ensures Valid()
    {
      var c := new FrontendCaches.ProcessFrontendCache(view.name, view.ppid, tracePid);
      processCache := Some(c);
      controller.RegisterFrontendCache(tracePid, ProcessCache(c));
      steps := steps + [Supervision.CacheSetUp];
    }

    /**
     * _update_last_cpu_time: the latest reading replaces the CPU time, -1
     * included, and is mirrored into the frontend cache.
     */
    method UpdateLastCpuTime(snap: Metrics.Snapshot)
      requires processCache.Some?
      modifies this`lastCpuTime, processCache.value`cpuTime
      ensures lastCpuTime == Metrics.TotalCpuTime(Metrics.CpuReading(snap, tracePid))
      ensures processCache.value.cpuTime == lastCpuTime
    {
      lastCpuTime := Metrics.TotalCpuTime(Metrics.CpuReading(snap, tracePid));
      processCache.value.cpuTime := lastCpuTime;
    }

    /** `p` is listed by psutil as a child of the traced process. */
    predicate IsChild(snap: Metrics.Snapshot, p: int)
    {
      tracePid in snap && p in snap[tracePid].children
    }

    /**
     * One iteration of _detect_process: a child that is not active yet gets
     * a dispatcher, pooled when its constructor succeeds.  `failed` reports
     * a child that had already exited or that psutil cannot read, whose
     * constructor raised after registering it.
     */
    method SpawnChild(c: int, snap: Metrics.Snapshot, loadable: set<string>) returns (failed: bool)
      requires Valid() && kind == Supervision.ProcessKind
      modifies this`threadPool, controller`dispatchers, controller`caches
      ensures Valid()
      ensures failed <==> c !in old(controller.dispatchers) && !Metrics.Recordable(snap, c)
      ensures c in old(controller.dispatchers) ==>
                controller.dispatchers == old(controller.dispatchers) && threadPool == old(threadPool)
      ensures c !in old(controller.dispatchers) ==>
                && c in controller.dispatchers
                && controller.dispatchers == old(controller.dispatchers)[c := controller.dispatchers[c]]
                && fresh(controller.dispatchers[c].thread)
                && (controller.dispatchers[c].processCache.Some? <==> Metrics.Recordable(snap, c))
                && threadPool == if failed then old(threadPool)
                                 else old(threadPool)[Supervision.PROCESS_DISPATCHER := controller.dispatchers[c].thread]
    {
      failed := false;
      if c !in controller.ActivePids() {
        var nd := NewProcessDispatcher(c, tracersToLoad, controller, loadable, snap);
        if nd.Err? {
          failed := true;
        } else {
          threadPool := threadPool[Supervision.PROCESS_DISPATCHER := nd.value.thread];
        }
      }
    }

    /**
     * _detect_process: a dispatcher for every child that is not active yet.
     * A child that has already exited or cannot be read makes the pass fail,
     * as in the `_private` generation, with its registration left behind.
     */
    method DetectProcess(snap: Metrics.Snapshot, loadable: set<string>) returns (r: Option<Fault>)
      requires Valid() && kind == Supervision.ProcessKind
      modifies this`threadPool, controller`dispatchers, controller`caches
      ensures Valid()
      ensures r.Some? ==> r.value == NotFound
      ensures tracePid !in snap ==> r.Some? && threadPool == old(threadPool)
                                    && controller.dispatchers == old(controller.dispatchers)
      ensures r.None? <==> tracePid in snap && forall p :: IsChild(snap, p) ==> p in old(controller.dispatchers) || Metrics.Recordable(snap, p)
      ensures r.None? ==> forall p :: IsChild(snap, p) ==> p in controller.dispatchers
      ensures forall p :: p in old(controller.dispatchers) ==>
                p in controller.dispatchers && controller.dispatchers[p] == old(controller.dispatchers)[p]
      ensures forall p :: p in controller.dispatchers && p !in old(controller.dispatchers) ==> IsChild(snap, p)
      ensures PoolGainsChildOnly()
    {
      if tracePid !in snap {
        return Some(NotFound);
      }
      var children := snap[tracePid].children;
      var i := 0;
      while i < |children|
        invariant 0 <= i <= |children|
        invariant Valid()
        invariant forall p :: p in old(controller.dispatchers) ==>
                    p in controller.dispatchers && controller.dispatchers[p] == old(controller.dispatchers)[p]
        invariant forall p :: p in controller.dispatchers && p !in old(controller.dispatchers) ==>
                    p in children[..i] && Metrics.Recordable(snap, p)
        invariant forall j :: 0 <= j < i ==> children[j] in controller.dispatchers
        invariant forall j :: 0 <= j < i ==> children[j] in old(controller.dispatchers) || Metrics.Recordable(snap, children[j])
        invariant PoolGainsChildOnly()
      {
        var c := children[i];
        assert forall p :: p in children[..i + 1] <==> p in children[..i] || p == c;
        var failed := SpawnChild(c, snap, loadable);
        if failed {
          assert IsChild(snap, c);
          return Some(NotFound);
        }
        i := i + 1;
      }
      assert children[..i] == children;
      return None;
    }

    /** The pool has changed at most in its child-dispatcher slot, which then holds a new thread. */
    twostate predicate PoolGainsChildOnly()
      reads this`threadPool
    {
      && old(threadPool).Keys <= threadPool.Keys <= old(threadPool).Keys + {Supervision.PROCESS_DISPATCHER}
      && (forall k :: k in threadPool && k != Supervision.PROCESS_DISPATCHER ==> threadPool[k] == old(threadPool)[k])
      && (forall k :: k in threadPool ==> threadPool[k] in old(threadPool.Values) || fresh(threadPool[k]))
    }

    /** One iteration of run_body: _detect_process first, then the CPU time when detection succeeded. */
    method ProcessRound(snap: Metrics.Snapshot, loadable: set<string>) returns (failed: bool)
      requires Valid() && kind == Supervision.ProcessKind && processCache.Some?
      modifies this`threadPool, this`lastCpuTime, processCache.value`cpuTime, controller`dispatchers, controller`caches
      ensures Valid() && processCache == old(processCache)
      ensures !failed <==> tracePid in snap && forall p :: IsChild(snap, p) ==> p in old(controller.dispatchers) || Metrics.Recordable(snap, p)
      ensures failed ==> Untraceable(snap) && lastCpuTime == old(lastCpuTime)
      ensures !failed ==> tracePid in snap && lastCpuTime == Metrics.TotalCpuTime(Metrics.CpuReading(snap, tracePid))
      ensures PoolGainsChildOnly()
    {
      var r := DetectProcess(snap, loadable);
      failed := r.Some?;
      if !failed {
        UpdateLastCpuTime(snap);
      }
    }

    /**
     * run_body of the process dispatcher: iterate until should_exit (raised
     * after the last snapshot, standing for the stop request) or until
     * detection fails, then sigterm.  The CPU time written at the end is the
     * reading of the last iteration whose detection succeeded, or the
     * sentinel when there was none.  `atSigterm` is the pool sigterm flags:
     * the pool the loop started with, whose child-dispatcher slot may since
     * hold a newer child.
     */
    method RunProcessBody(schedule: seq<Metrics.Snapshot>, loadable: set<string>)
      returns (ghost updates: nat, ghost atSigterm: map<string, Thread>)
      requires Valid() && kind == Supervision.ProcessKind && processCache.Some?
      modifies this`threadPool, this`lastCpuTime, this`cpuTimeFile, this`steps, processCache.value`cpuTime,
               controller`dispatchers, controller`caches, thread, threadPool.Values
      ensures updates <= |schedule|
      ensures forall j :: 0 <= j < updates ==> tracePid in schedule[j]
      ensures !old(thread.shouldExit) && updates < |schedule| ==> Untraceable(schedule[updates])
      ensures lastCpuTime == LastReading(old(lastCpuTime), Supervision.CpuTimeReadings(schedule, tracePid)[..updates])
      ensures cpuTimeFile == Some(lastCpuTime)
      ensures tracePid !in controller.dispatchers && threadPool == map[]
      ensures forall k :: k in old(threadPool) && k != Supervision.PROCESS_DISPATCHER ==> old(threadPool)[k].shouldExit
      ensures old(threadPool).Keys <= atSigterm.Keys <= old(threadPool).Keys + {Supervision.PROCESS_DISPATCHER}
      ensures forall k :: k in atSigterm && k != Supervision.PROCESS_DISPATCHER ==> atSigterm[k] == old(threadPool)[k]
      ensures forall k :: k in atSigterm ==> atSigterm[k] in old(threadPool).Values || fresh(atSigterm[k])
      ensures forall k :: k in atSigterm ==> atSigterm[k].shouldExit
      ensures steps == old(steps) + Supervision.SIGTERM_STEPS
    {
      var i := 0;
      var failed := false;
      while !thread.shouldExit && !failed
        invariant 0 <= i <= |schedule|
        invariant Valid() && processCache == old(processCache) && steps == old(steps)
        invariant old(thread.shouldExit) ==> i == 0 && !failed
        invariant !failed && thread.shouldExit ==> old(thread.shouldExit) || i == |schedule|
        invariant failed ==> i < |schedule| && Untraceable(schedule[i])
        invariant forall j :: 0 <= j < i ==> tracePid in schedule[j]
        invariant lastCpuTime == LastReading(old(lastCpuTime), Supervision.CpuTimeReadings(schedule, tracePid)[..i])
        invariant PoolGainsChildOnly()
        decreases |schedule| - i + (if thread.shouldExit || failed then 0 else 1)
      {
        if i == |schedule| {
          thread.shouldExit := true;
        } else {
          failed := ProcessRound(schedule[i], loadable);
          if !failed {
            assert Supervision.CpuTimeReadings(schedule, tracePid)[..i + 1][i] == lastCpuTime;
            i := i + 1;
          }
        }
      }
      updates := i;
      atSigterm := threadPool;
      Sigterm();
    }

    /**
     * The traced process has gone, or one of the children psutil lists for
     * it has gone or cannot be read: the only snapshots on which detection
     * can fail.
     */
    ghost predicate Untraceable(snap: Metrics.Snapshot)
    {
      tracePid !in snap || exists p :: IsChild(snap, p) && !Metrics.Recordable(snap, p)
    }

    /** The mount table of the partitions psutil lists. */
    method WriteMountTable(partitions: seq<MountTable.Partition>)
      modifies this`mountTable, this`steps
      ensures |mountTable| == |partitions| + 1 && mountTable[0] == HeaderRow(MountTable.MNT_COLUMNS)
      ensures forall i :: 0 <= i < |partitions| ==> mountTable[i + 1] == MountTable.MountRow(partitions[i])
      ensures steps == old(steps) + [Supervision.MountTableWritten]
    {
      mountTable := MountTable.WriteMnt(partitions);
      steps := steps + [Supervision.MountTableWritten];
    }

    /** A fresh SystemFrontendCache registered under the system pid. */
    method SetupSystemCache()
      requires Valid() && kind == Supervision.SystemKind
      modifies this`systemCache, this`steps, controller`caches
      ensures systemCache.Some? && fresh(systemCache.value)
      ensures var c := systemCache.value;
              c.cpuPercent == -1.0 && c.vmAvail == -1 && c.vmTotal == -1 && c.vmBuffered == -1
              && c.vmShared == -1 && c.swapTotal == -1 && c.swapUsed == -1
      ensures controller.caches == old(controller.caches)[SYSTEM_PID := SystemCache(systemCache.value)]
      ensures steps == old(steps) + [Supervision.CacheSetUp]
      ensures Valid()
    {
      var c := new FrontendCaches.SystemFrontendCache();
      systemCache := Some(c);
      controller.RegisterFrontendCache(tracePid, SystemCache(c));
      steps := steps + [Supervision.CacheSetUp];
    }
  }

  /** The CPU time after overwriting `start` with each reading in turn. */
  function LastReading(start: real, readings: seq<real>): (r: real)
    ensures readings == [] ==> r == start
    ensures readings != [] ==> r == readings[|readings| - 1]
  {
    if readings == [] then start else readings[|readings| - 1]
  }

  /**
   * ProcessTracerDispatcherThread(): registered first; the sentinel CPU
   * time; the process lookup, which raises for a pid that is not alive and
   * leaves the registration behind; the registry, environment and memory-map
   * writers, which raise when psutil cannot read the process and leave the
   * registration behind as well; then the frontend cache, registered with
   * the controller before the tracers start.
   */
  method NewProcessDispatcher(pid: int, tracersToLoad: seq<string>, controller: Controller,
                              loadable: set<string>, snap: Metrics.Snapshot) returns (r: Result<Dispatcher>)
    modifies controller`dispatchers, controller`caches
    ensures pid in controller.dispatchers
    ensures controller.dispatchers == old(controller.dispatchers)[pid := controller.dispatchers[pid]]
    ensures var d := controller.dispatchers[pid];
            && fresh(d) && fresh(d.thread) && !d.thread.shouldExit && d.Valid()
            && d.tracePid == pid && d.kind == Supervision.ProcessKind && d.controller == controller
            && d.tracersToLoad == tracersToLoad && d.lastCpuTime == -1.0
    ensures r.Err? <==> !Metrics.Recordable(snap, pid)
    ensures r.Err? ==> r.fault == NotFound && controller.caches == old(controller.caches)
                       && controller.dispatchers[pid].processCache.None?
                       && controller.dispatchers[pid].steps == [Supervision.Registered]
    ensures r.Ok? ==> r.value == controller.dispatchers[pid]
    ensures r.Ok? ==> var d := r.value;
                      && d.processCache.Some? && fresh(d.processCache.value)
                      && d.processCache.value.name == snap[pid].name && d.processCache.value.ppid == snap[pid].ppid
                      && controller.caches == old(controller.caches)[pid := ProcessCache(d.processCache.value)]
                      && d.steps == [Supervision.Registered, Supervision.CacheSetUp, Supervision.TracersStarted]
                      && (forall k :: k in d.threadPool <==> k in tracersToLoad && k in loadable)
  {
    var d := new Dispatcher(pid, Supervision.ProcessKind, tracersToLoad, controller);
    if pid !in snap || !snap[pid].readable {
      return Err(NotFound);
    }
    d.SetupProcessCache(snap[pid]);
    d.StartTracers(loadable, snap);
    return Ok(d);
  }

  /**
   * SystemTracerDispatcherThread(): registered under the system pid, then
   * the mount table, then a fresh frontend cache registered under the same
   * pid, then the tracers.
   */
  method NewSystemDispatcher(tracersToLoad: seq<string>, controller: Controller, loadable: set<string>,
                             partitions: seq<MountTable.Partition>) returns (d: Dispatcher)
    modifies controller`dispatchers, controller`caches
    ensures fresh(d) && d.Valid() && d.tracePid == SYSTEM_PID && d.kind == Supervision.SystemKind
    ensures controller.dispatchers == old(controller.dispatchers)[SYSTEM_PID := d]
    ensures d.systemCache.Some? && controller.caches == old(controller.caches)[SYSTEM_PID := SystemCache(d.systemCache.value)]
    ensures |d.mountTable| == |partitions| + 1 && d.mountTable[0] == HeaderRow(MountTable.MNT_COLUMNS)
    ensures forall i :: 0 <= i < |partitions| ==> d.mountTable[i + 1] == MountTable.MountRow(partitions[i])
    ensures d.steps == [Supervision.Registered, Supervision.MountTableWritten, Supervision.CacheSetUp, Supervision.TracersStarted]
    ensures forall k :: k in d.threadPool <==> k in tracersToLoad && k in loadable
  {
    d := new Dispatcher(SYSTEM_PID, Supervision.SystemKind, tracersToLoad, controller);
    d.WriteMountTable(partitions);
    d.SetupSystemCache();
    d.StartTracers(loadable, map[]);
  }
}
