/**
 * The oldest generation (`pid_monitor/`): dispatchers keep their threads in
 * a list, module-level state stands in for a controller (`_DISPATCHERS` in
 * dt_utils, `_ALL_PIDS` in the package, `FRONTEND_ALL_PIDS` in the display
 * module), a dispatcher is registered by the parent that spawned it and only
 * once its constructor succeeded, its CPU time is overwritten on every
 * iteration, and sigterm does not deregister.
 */
module Legacy {
  import opened Common
  import Decimal
  import Metrics
  import Tracers
  import MountTable

  const PROCESS_DISPATCHER: string := "ProcessTracerDispatcherThread"
  const SYSTEM_DISPATCHER: string := "SystemTracerDispatcherThread"

  /** The tracers a process dispatcher loads when it is given none. */
  const DEFAULT_PROCESS_LEVEL_TRACERS: seq<string> := [
    "ProcessIOTracerThread", "ProcessFDTracerThread", "ProcessMEMTracerThread",
    "ProcessChildTracerThread", "ProcessCPUTracerThread", "ProcessSTATTracerThread",
    "ProcessSyscallTracerThread"]

  /** The tracers a system dispatcher loads when it is given none. */
  const DEFAULT_SYSTEM_LEVEL_TRACERS: seq<string> := [
    "SystemMEMTracerThread", "SystemCPUTracerThread", "SystemSWAPTracerThread"]

  /** `loaded_tracers`, or the defaults when it is None. */
  function OrDefault(given: Option<seq<string>>, defaults: seq<string>): (r: seq<string>)
    ensures given.Some? ==> r == given.value
    ensures given.None? ==> r == defaults
  {
    if given.Some? then given.value else defaults
  }

  /** The names start_tracers manages to construct, in the order given. */
  function Kept(names: seq<string>, loadable: set<string>): (r: seq<string>)
    ensures |r| <= |names|
    ensures forall n :: n in r <==> n in names && n in loadable
  {
    if names == [] then []
    else
      var last := names[|names| - 1];
      assert forall n :: n in names <==> n in names[..|names| - 1] || n == last;
      Kept(names[..|names| - 1], loadable) + (if last in loadable then [last] else [])
  }

  /** Kept grows by one loop step of start_tracers at a time. */
  lemma KeptStep(names: seq<string>, i: nat, loadable: set<string>)
    requires i < |names|
    ensures Kept(names[..i + 1], loadable) == Kept(names[..i], loadable) + (if names[i] in loadable then [names[i]] else [])
  {
    assert names[..i + 1][..i] == names[..i];
  }

  /** The class names of `ts`, in order. */
  function ClassNames(ts: seq<Thread>): (r: seq<string>)
    ensures |r| == |ts| && forall j :: 0 <= j < |ts| ==> r[j] == ts[j].className
  {
    if ts == [] then [] else ClassNames(ts[..|ts| - 1]) + [ts[|ts| - 1].className]
  }

  /** The package-level state of this generation. */
  class Globals {
    /** dt_utils._DISPATCHERS: the dispatchers by pid. */
    var dispatchers: map<int, Dispatcher>
    /** `_ALL_PIDS`: every pid a dispatcher was built for. */
    var allPids: set<int>
    /** frontend.FRONTEND_ALL_PIDS: the pids the display shows. */
    var frontendAllPids: set<int>

    constructor ()
      ensures dispatchers == map[] && allPids == {} && frontendAllPids == {}
    {
      dispatchers := map[];
      allPids := {};
      frontendAllPids := {};
    }

    function Threads(): set<Thread>
      reads this
    {
      set p | p in dispatchers :: dispatchers[p].thread
    }

    /**
     * terminate_all_dispatchers: flag every registered dispatcher, then
     * forget them.  With no dispatcher registered its frame is empty, so a
     * second call changes nothing.
     */
    method TerminateAll()
      modifies this`dispatchers, Threads()
      ensures forall p :: p in old(dispatchers) ==> old(dispatchers)[p].thread.shouldExit
      ensures dispatchers == map[]
    {
      var pids := dispatchers.Keys;
      while pids != {}
        invariant pids <= dispatchers.Keys && dispatchers == old(dispatchers)
        invariant forall p :: p in dispatchers && p !in pids ==> dispatchers[p].thread.shouldExit
        decreases pids
      {
        NonEmptyHasMember(pids);
        var p :| p in pids;
        dispatchers[p].thread.shouldExit := true;
        pids := pids - {p};
      }
      dispatchers := map[];
    }
  }

  class Dispatcher {
    const isProcess: bool
    /** The traced pid of a process dispatcher. */
    const tracePid: int
    /** str(trace_pid) or "sys". */
    const dispatchee: string
    const basename: string
    const loadedTracers: seq<string>
    const globals: Globals
    const thread: Thread
    /** The started tracers and child dispatchers, in the order they started. */
    var threadPool: seq<Thread>
    var lastCpuTime: real
    /** What before_ending wrote to `<basename>.<pid>.cputime`. */
    var cpuTimeFile: Option<real>
    /** The lines of `<basename>.mnt.tsv`. */
    var mountTable: seq<Row>

    /** The base constructor: an empty pool and should_exit False; nothing is registered. */
    constructor (isProcess: bool, tracePid: int, basename: string, loadedTracers: seq<string>, globals: Globals)
      ensures this.isProcess == isProcess && this.tracePid == tracePid && this.basename == basename
      ensures this.dispatchee == (if isProcess then Decimal.IntToString(tracePid) else "sys")
      ensures this.loadedTracers == loadedTracers && this.globals == globals
      ensures fresh(thread) && !thread.shouldExit
      ensures thread.className == (if isProcess then PROCESS_DISPATCHER else SYSTEM_DISPATCHER)
      ensures threadPool == [] && lastCpuTime == 0.0 && cpuTimeFile.None? && mountTable == []
    {
      this.isProcess := isProcess;
      this.tracePid := tracePid;
      dispatchee := if isProcess then Decimal.IntToString(tracePid) else "sys";
      this.basename := basename;
      this.loadedTracers := loadedTracers;
      this.globals := globals;
      thread := new Thread(if isProcess then PROCESS_DISPATCHER else SYSTEM_DISPATCHER);
      threadPool := [];
      lastCpuTime := 0.0;
      cpuTimeFile := None;
      mountTable := [];
    }

    /** One tracer of start_tracers, constructed for this dispatcher's tracee. */
    method StartTracer(name: string, snap: Metrics.Snapshot) returns (th: Thread)
      requires isProcess ==> tracePid in snap
      ensures fresh(th) && th.className == name
    {
      var t: Tracers.TracerThread;
      if isProcess {
        var r := Tracers.NewProcessTracer(name, basename, tracePid, snap);
        t := r.value;
      } else {
        t := Tracers.NewSystemTracer(name, basename);
      }
      th := t.thread;
    }

    /**
     * One turn of start_tracers' loop over loadedTracers: the i-th name is
     * started and appended when get_tracer resolves it, and skipped otherwise.
     */
    method StartNext(i: nat, loadable: set<string>, snap: Metrics.Snapshot,
                     ghost base: seq<Thread>, ghost added: seq<Thread>) returns (ghost grown: seq<Thread>)
      requires i < |loadedTracers|
      requires isProcess ==> tracePid in snap
      requires threadPool == base + added
      requires ClassNames(added) == Kept(loadedTracers[..i], loadable)
      modifies this`threadPool
      ensures threadPool == base + grown
      ensures ClassNames(grown) == Kept(loadedTracers[..i + 1], loadable)
      ensures forall t :: t in grown ==> t in added || fresh(t)
    {
      KeptStep(loadedTracers, i, loadable);
      grown := added;
      var name := loadedTracers[i];
      if name in loadable {
        var th := StartTracer(name, snap);
        assert (added + [th])[..|added|] == added;
        threadPool := threadPool + [th];
        grown := added + [th];
      }
    }

    /**
     * start_tracers: every name get_tracer resolves is constructed with the
     * basename (and, for a process dispatcher, the pid, which is alive) and
     * appended to the pool; the others are skipped.
     */
    method StartTracers(loadable: set<string>, snap: Metrics.Snapshot)
      requires isProcess ==> tracePid in snap
      modifies this`threadPool
      ensures |threadPool| >= |old(threadPool)| && threadPool[..|old(threadPool)|] == old(threadPool)
      ensures ClassNames(threadPool[|old(threadPool)|..]) == Kept(loadedTracers, loadable)
      ensures forall t :: t in threadPool[|old(threadPool)|..] ==> fresh(t)
    {
      var i := 0;
      ghost var added: seq<Thread> := [];
      while i < |loadedTracers|
        invariant 0 <= i <= |loadedTracers|
        invariant threadPool == old(threadPool) + added
        invariant ClassNames(added) == Kept(loadedTracers[..i], loadable)
        invariant forall t :: t in added ==> fresh(t)
      {
        added := StartNext(i, loadable, snap, old(threadPool), added);
        i := i + 1;
      }
      assert loadedTracers[..i] == loadedTracers;
      assert threadPool[|old(threadPool)|..] == added;
    }

    /** before_ending: the process dispatcher records its CPU time; the system one does nothing. */
    method BeforeEnding()
      modifies this`cpuTimeFile
      ensures isProcess ==> cpuTimeFile == Some(lastCpuTime)
      ensures !isProcess ==> cpuTimeFile == old(cpuTimeFile)
    {
      if isProcess {
        cpuTimeFile := Some(lastCpuTime);
      }
    }

    function PoolSet(): set<Thread>
      reads this`threadPool
    {
      set t | t in threadPool
    }

    /**
     * sigterm: before_ending, then every pooled thread flagged, then the
     * list emptied.  The dispatcher stays in `_DISPATCHERS`.
     */
    method Sigterm()
      modifies this`threadPool, this`cpuTimeFile, PoolSet()
      ensures isProcess ==> cpuTimeFile == Some(lastCpuTime)
      ensures !isProcess ==> cpuTimeFile == old(cpuTimeFile)
      ensures forall i :: 0 <= i < |old(threadPool)| ==> old(threadPool)[i].shouldExit
      ensures threadPool == []
      ensures globals.dispatchers == old(globals.dispatchers)
    {
      BeforeEnding();
      var i := 0;
      while i < |threadPool|
        invariant 0 <= i <= |threadPool| && threadPool == old(threadPool)
        invariant isProcess ==> cpuTimeFile == Some(lastCpuTime)
        invariant !isProcess ==> cpuTimeFile == old(cpuTimeFile)
        invariant forall j :: 0 <= j < i ==> threadPool[j].shouldExit
      {
        threadPool[i].shouldExit := true;
        i := i + 1;
      }
      threadPool := [];
    }

    /** `p` is listed by psutil as a child of the traced process. */
    predicate IsChild(snap: Metrics.Snapshot, p: int)
    {
      tracePid in snap && p in snap[tracePid].children
    }

    /** The pool has only grown, by threads created since. */
    twostate predicate PoolGrewByFresh()
      reads this`threadPool
    {
      && |old(threadPool)| <= |threadPool|
      && threadPool[..|old(threadPool)|] == old(threadPool)
      && forall i :: |old(threadPool)| <= i < |threadPool| ==> fresh(threadPool[i])
    }

    /**
     * One child of detect_process: its dispatcher is built, then registered,
     * pooled and shown.  The constructor raises for a child that has exited,
     * and for one psutil cannot read after its pid has joined `_ALL_PIDS`.
     */
    method SpawnChild(c: int, snap: Metrics.Snapshot, loadable: set<string>) returns (ok: bool)
      requires c !in globals.dispatchers
      modifies this`threadPool, globals
      ensures ok <==> Metrics.Recordable(snap, c)
      ensures !ok ==> globals.dispatchers == old(globals.dispatchers) && threadPool == old(threadPool)
      ensures !ok ==> globals.allPids == old(globals.allPids) + (if c in snap then {c} else {})
                      && globals.frontendAllPids == old(globals.frontendAllPids)
      ensures ok ==> c in globals.dispatchers && globals.dispatchers == old(globals.dispatchers)[c := globals.dispatchers[c]]
      ensures ok ==> var d := globals.dispatchers[c]; fresh(d) && d.isProcess && d.tracePid == c
      ensures ok ==> globals.allPids == old(globals.allPids) + {c} && globals.frontendAllPids == old(globals.frontendAllPids) + {c}
      ensures PoolGrewByFresh()
    {
      var nd := NewProcessDispatcher(c, basename, None, globals, loadable, snap);
      if nd.Err? {
        return false;
      }
      globals.dispatchers := globals.dispatchers[c := nd.value];
      threadPool := threadPool + [nd.value.thread];
      globals.frontendAllPids := globals.frontendAllPids + {c};
      return true;
    }

    /**
     * What detect_process has done after visiting children[..i], against the
     * registry `d0` and the pid sets `a0`, `f0` it started from: earlier
     * entries are kept, every new entry is a visited child that is alive and
     * readable, every visited child is registered, and exactly the new pids
     * joined `_ALL_PIDS` and the frontend's pids.
     */
    ghost predicate Visited(children: seq<int>, i: nat, snap: Metrics.Snapshot,
                            d0: map<int, Dispatcher>, a0: set<int>, f0: set<int>)
      requires i <= |children|
      reads globals
    {
      && (forall p :: p in d0 ==> p in globals.dispatchers && globals.dispatchers[p] == d0[p])
      && (forall p :: p in globals.dispatchers && p !in d0 ==>
            p in children[..i] && Metrics.Recordable(snap, p) && globals.dispatchers[p].isProcess && globals.dispatchers[p].tracePid == p)
      && (forall j :: 0 <= j < i ==> children[j] in globals.dispatchers)
      && (forall j :: 0 <= j < i ==> children[j] in d0 || Metrics.Recordable(snap, children[j]))
      && globals.allPids == a0 + (globals.dispatchers.Keys - d0.Keys)
      && globals.frontendAllPids == f0 + (globals.dispatchers.Keys - d0.Keys)
    }

    /**
     * One child of detect_process: an unregistered child gets a dispatcher
     * when it is alive and readable; otherwise the constructor raises, and
     * only a live child's pid stays behind in `_ALL_PIDS`.
     */
    method VisitChild(children: seq<int>, i: nat, snap: Metrics.Snapshot, loadable: set<string>,
                      ghost d0: map<int, Dispatcher>, ghost a0: set<int>, ghost f0: set<int>) returns (ok: bool)
      requires i < |children| && Visited(children, i, snap, d0, a0, f0)
      modifies this`threadPool, globals
      ensures ok ==> Visited(children, i + 1, snap, d0, a0, f0)
      ensures !ok ==> && globals.dispatchers == old(globals.dispatchers)
                      && globals.frontendAllPids == old(globals.frontendAllPids)
                      && globals.allPids == old(globals.allPids) + (if children[i] in snap then {children[i]} else {})
                      && children[i] !in d0 && !Metrics.Recordable(snap, children[i])
      ensures forall p :: p in old(globals.dispatchers) ==>
                p in globals.dispatchers && globals.dispatchers[p] == old(globals.dispatchers)[p]
      ensures forall p :: p in globals.dispatchers && p !in old(globals.dispatchers) ==> fresh(globals.dispatchers[p])
      ensures PoolGrewByFresh()
    {
      var c := children[i];
      assert forall p :: p in children[..i + 1] <==> p in children[..i] || p == c;
      ok := true;
      if c !in globals.dispatchers {
        ok := SpawnChild(c, snap, loadable);
      }
    }

    /**
     * detect_process: every child absent from `_DISPATCHERS` gets a
     * dispatcher, which is registered, pooled and shown once its constructor
     * succeeds.  A child that has already exited makes its constructor
     * raise before anything records it; a live child that psutil cannot read
     * makes it raise once the pid is in `_ALL_PIDS`.  Either error ends the
     * pass.
     */
    method DetectProcess(snap: Metrics.Snapshot, loadable: set<string>) returns (r: Option<Fault>)
      requires isProcess
      modifies this`threadPool, globals
      ensures r.Some? ==> r.value == NotFound
      ensures tracePid !in snap ==> r.Some? && threadPool == old(threadPool)
      ensures r.None? <==> tracePid in snap && forall p :: IsChild(snap, p) ==> p in old(globals.dispatchers) || Metrics.Recordable(snap, p)
      ensures r.None? ==> forall p :: IsChild(snap, p) ==> p in globals.dispatchers
      ensures forall p :: p in old(globals.dispatchers) ==>
                p in globals.dispatchers && globals.dispatchers[p] == old(globals.dispatchers)[p]
      ensures forall p :: p in globals.dispatchers && p !in old(globals.dispatchers) ==>
                IsChild(snap, p) && Metrics.Recordable(snap, p) && fresh(globals.dispatchers[p])
                && globals.dispatchers[p].isProcess && globals.dispatchers[p].tracePid == p
      ensures r.None? || tracePid !in snap ==>
                globals.allPids == old(globals.allPids) + (globals.dispatchers.Keys - old(globals.dispatchers.Keys))
      ensures r.Some? && tracePid in snap ==>
                exists c :: && IsChild(snap, c) && c !in old(globals.dispatchers) && !Metrics.Recordable(snap, c)
                            && globals.allPids == old(globals.allPids) + (globals.dispatchers.Keys - old(globals.dispatchers.Keys))
                                                  + (if c in snap then {c} else {})
      ensures globals.frontendAllPids == old(globals.frontendAllPids) + (globals.dispatchers.Keys - old(globals.dispatchers.Keys))
      ensures PoolGrewByFresh()
    {
      if tracePid !in snap {
        return Some(NotFound);
      }
      var children := snap[tracePid].children;
      ghost var d0, a0, f0 := globals.dispatchers, globals.allPids, globals.frontendAllPids;
      var i := 0;
      while i < |children|
        invariant 0 <= i <= |children|
        invariant Visited(children, i, snap, d0, a0, f0)
        invariant forall p :: p in globals.dispatchers && p !in d0 ==> fresh(globals.dispatchers[p])
        invariant PoolGrewByFresh()
      {
        var ok := VisitChild(children, i, snap, loadable, d0, a0, f0);
        if !ok {
          ghost var c := children[i];
          assert IsChild(snap, c) && c !in old(globals.dispatchers) && !Metrics.Recordable(snap, c);
          return Some(NotFound);
        }
        i := i + 1;
      }
      assert children[..i] == children;
      return None;
    }

    /**
     * The traced process has gone, or a child psutil lists for it has gone or
     * cannot be read: the only snapshots on which detection can fail.
     */
    ghost predicate Untraceable(snap: Metrics.Snapshot)
    {
      tracePid !in snap || exists p :: IsChild(snap, p) && !Metrics.Recordable(snap, p)
    }

    /**
     * One iteration of run_body: the CPU time is overwritten with the
     * latest reading, -1 included, then detection runs.
     */
    method ProcessRound(snap: Metrics.Snapshot, loadable: set<string>) returns (failed: bool)
      requires isProcess
      modifies this`threadPool, this`lastCpuTime, globals
      ensures lastCpuTime == Metrics.TotalCpuTime(Metrics.CpuReading(snap, tracePid))
      ensures !failed <==> tracePid in snap && forall p :: IsChild(snap, p) ==> p in old(globals.dispatchers) || Metrics.Recordable(snap, p)
      ensures failed ==> Untraceable(snap)
      ensures forall p :: p in old(globals.dispatchers) ==> p in globals.dispatchers
      ensures PoolGrewByFresh()
    {
      lastCpuTime := Metrics.TotalCpuTime(Metrics.CpuReading(snap, tracePid));
      var r := DetectProcess(snap, loadable);
      failed := r.Some?;
    }

    /**
     * run_body of the process dispatcher: iterate until should_exit (raised
     * after the last snapshot, standing for the stop request) or until an
     * iteration fails, then sigterm.  The CPU time written at the end is the
     * last reading taken, which is -1 when the process had gone.  `atSigterm`
     * is the list sigterm flags: the list the loop started with, followed by
     * the child dispatchers detection appended.
     */
    method RunProcessBody(schedule: seq<Metrics.Snapshot>, loadable: set<string>)
      returns (ghost rounds: nat, ghost atSigterm: seq<Thread>)
      requires isProcess
      modifies this`threadPool, this`lastCpuTime, this`cpuTimeFile, globals, thread, PoolSet()
      ensures rounds <= |schedule| && (old(thread.shouldExit) ==> rounds == 0)
      ensures lastCpuTime == (if rounds == 0 then old(lastCpuTime)
                              else Metrics.TotalCpuTime(Metrics.CpuReading(schedule[rounds - 1], tracePid)))
      ensures cpuTimeFile == Some(lastCpuTime)
      ensures !old(thread.shouldExit) && rounds < |schedule| ==> rounds > 0 && Untraceable(schedule[rounds - 1])
      ensures forall j :: 0 <= j < rounds - 1 ==> tracePid in schedule[j]
      ensures rounds > 0 && tracePid !in schedule[rounds - 1] ==> cpuTimeFile == Some(-1.0)
      ensures threadPool == []
      ensures |old(threadPool)| <= |atSigterm| && atSigterm[..|old(threadPool)|] == old(threadPool)
      ensures forall j :: |old(threadPool)| <= j < |atSigterm| ==> fresh(atSigterm[j])
      ensures forall j :: 0 <= j < |atSigterm| ==> atSigterm[j].shouldExit
      ensures forall j :: 0 <= j < |old(threadPool)| ==> old(threadPool)[j].shouldExit
      ensures forall p :: p in old(globals.dispatchers) ==> p in globals.dispatchers
    {
      var i := 0;
      var failed := false;
      while !thread.shouldExit && !failed
        invariant 0 <= i <= |schedule|
        invariant old(thread.shouldExit) ==> i == 0 && !failed
        invariant !failed && thread.shouldExit ==> old(thread.shouldExit) || i == |schedule|
        invariant failed ==> i > 0 && Untraceable(schedule[i - 1])
        invariant forall j :: 0 <= j < i - 1 ==> tracePid in schedule[j]
        invariant !failed && i > 0 ==> tracePid in schedule[i - 1]
        invariant lastCpuTime == (if i == 0 then old(lastCpuTime)
                                  else Metrics.TotalCpuTime(Metrics.CpuReading(schedule[i - 1], tracePid)))
        invariant forall p :: p in old(globals.dispatchers) ==> p in globals.dispatchers
        invariant PoolGrewByFresh()
        decreases |schedule| - i + (if thread.shouldExit || failed then 0 else 1)
      {
        if i == |schedule| {
          thread.shouldExit := true;
        } else {
          failed := ProcessRound(schedule[i], loadable);
          i := i + 1;
        }
      }
      rounds := i;
      atSigterm := threadPool;
      Sigterm();
    }

    /** write_mnt: the mount table of the partitions psutil lists. */
    method WriteMountTable(partitions: seq<MountTable.Partition>)
      modifies this`mountTable
      ensures |mountTable| == |partitions| + 1 && mountTable[0] == HeaderRow(MountTable.MNT_COLUMNS)
      ensures forall i :: 0 <= i < |partitions| ==> mountTable[i + 1] == MountTable.MountRow(partitions[i])
    {
      mountTable := MountTable.WriteMnt(partitions);
    }
  }

  /**
   * ProcessTracerDispatcherThread(): the default tracer list when none is
   * given; the process lookup re-raises for a pid that is not alive before
   * anything records the pid; then the pid joins `_ALL_PIDS` and the CPU
   * time starts at 0; the registry, environment and memory-map writers
   * re-raise when psutil cannot read the process, which leaves the pid in
   * `_ALL_PIDS`; then the tracers start with the pid among their arguments.
   * Registration is left to the caller.
   */
  method NewProcessDispatcher(pid: int, basename: string, loaded: Option<seq<string>>, globals: Globals,
                              loadable: set<string>, snap: Metrics.Snapshot) returns (r: Result<Dispatcher>)
    modifies globals`allPids
    ensures r.Err? <==> !Metrics.Recordable(snap, pid)
    ensures r.Err? ==> r.fault == NotFound && globals.allPids == old(globals.allPids) + (if pid in snap then {pid} else {})
    ensures r.Ok? ==> globals.allPids == old(globals.allPids) + {pid}
    ensures r.Ok? ==> var d := r.value;
                      && fresh(d) && fresh(d.thread) && !d.thread.shouldExit && d.thread.className == PROCESS_DISPATCHER
                      && d.isProcess && d.tracePid == pid && d.dispatchee == Decimal.IntToString(pid)
                      && d.globals == globals && d.basename == basename
                      && d.loadedTracers == OrDefault(loaded, DEFAULT_PROCESS_LEVEL_TRACERS)
                      && d.lastCpuTime == 0.0 && d.cpuTimeFile.None?
                      && ClassNames(d.threadPool) == Kept(d.loadedTracers, loadable)
                      && forall t :: t in d.threadPool ==> fresh(t)
  {
    var d := new Dispatcher(true, pid, basename, OrDefault(loaded, DEFAULT_PROCESS_LEVEL_TRACERS), globals);
    if pid !in snap {
      return Err(NotFound);
    }
    globals.allPids := globals.allPids + {pid};
    if !snap[pid].readable {
      return Err(NotFound);
    }
    d.StartTracers(loadable, snap);
    assert d.threadPool[0..] == d.threadPool;
    return Ok(d);
  }

  /**
   * SystemTracerDispatcherThread(): dispatchee "sys", the default tracer
   * list when none is given, the mount table, then the tracers.
   */
  method NewSystemDispatcher(basename: string, loaded: Option<seq<string>>, globals: Globals,
                             loadable: set<string>, partitions: seq<MountTable.Partition>) returns (d: Dispatcher)
    ensures fresh(d) && fresh(d.thread) && !d.thread.shouldExit && d.thread.className == SYSTEM_DISPATCHER
    ensures !d.isProcess && d.dispatchee == "sys" && d.globals == globals
    ensures d.loadedTracers == OrDefault(loaded, DEFAULT_SYSTEM_LEVEL_TRACERS)
    ensures |d.mountTable| == |partitions| + 1 && d.mountTable[0] == HeaderRow(MountTable.MNT_COLUMNS)
    ensures forall i :: 0 <= i < |partitions| ==> d.mountTable[i + 1] == MountTable.MountRow(partitions[i])
    ensures ClassNames(d.threadPool) == Kept(d.loadedTracers, loadable)
    ensures forall t :: t in d.threadPool ==> fresh(t)
  {
    d := new Dispatcher(false, SYSTEM_PID, basename, OrDefault(loaded, DEFAULT_SYSTEM_LEVEL_TRACERS), globals);
    d.WriteMountTable(partitions);
    d.StartTracers(loadable, map[]);
    assert d.threadPool[0..] == d.threadPool;
  }

  /**
   * A process (pid 7) that has used 1.5 seconds of CPU exits between two
   * iterations.  Its `.cputime` file records -1 in this generation, while
   * the `_private` dispatcher, which keeps the maximum, records 1.5.
   */
  method ExitingProcessScenario() returns (legacyRecord: Option<real>, watermarkRecord: real)
    ensures legacyRecord == Some(-1.0)
    ensures watermarkRecord == 1.5
  {
    var alive := map[7 := Metrics.ProcessView("job", 1, [], Some(Metrics.CpuTimes(1.0, 0.5)), "R", true)];
    var gone: Metrics.Snapshot := map[];
    var schedule := [alive, gone];
    var globals := new Globals();
    var r := NewProcessDispatcher(7, "run", Some([]), globals, {}, alive);
    var d := r.value;
    var rounds, pool := d.RunProcessBody(schedule, {});
    legacyRecord := d.cpuTimeFile;
    assert !d.Untraceable(alive);
    var readings := [Metrics.TotalCpuTime(Metrics.CpuReading(alive, 7)), Metrics.TotalCpuTime(Metrics.CpuReading(gone, 7))];
    assert readings == [1.5, -1.0];
    assert readings[..1] == [1.5] && [1.5][..0] == [];
    assert Metrics.Watermark(0.0, [1.5]) == 1.5;
    watermarkRecord := Metrics.Watermark(0.0, readings);
  }
}
