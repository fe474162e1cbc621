/**
 * The `dt_mvc` generation.  Its DispatcherController and base dispatcher are
 * the `_private` ones (Supervision) except that the base constructor loads no
 * tracers and registers under `dispatchee`; beside the class it keeps an
 * older module-level registry, a bare `_DISPATCHERS` dict without `all_pids`.
 */
module DtMvc {
  import opened Common
  import Metrics
  import Supervision

  /**
   * dispatcher_controller.py: the module-level `_DISPATCHERS` dict.  The
   * collect functions return the dispatchers whose collect_information()
   * the display then calls.
   */
  class ModuleRegistry {
    var dispatchers: map<int, Supervision.Dispatcher>

    constructor ()
      ensures dispatchers == map[]
    {
      dispatchers := map[];
    }

    function Threads(): set<Thread>
      reads this
    {
      set p | p in dispatchers :: dispatchers[p].thread
    }

    /** get_current_active_pids: exactly the registered pids. */
    function ActivePids(): (r: set<int>)
      reads this
      ensures forall p :: p in r <==> p in dispatchers
    {
      dispatchers.Keys
    }

    /** register_dispatcher: the pid maps to the dispatcher, replacing any earlier one. */
    method Register(pid: int, d: Supervision.Dispatcher)
      modifies this
      ensures pid in dispatchers && dispatchers[pid] == d
      ensures forall p :: p != pid ==> (p in dispatchers <==> p in old(dispatchers))
      ensures forall p :: p != pid && p in dispatchers ==> dispatchers[p] == old(dispatchers)[p]
    {
      dispatchers := dispatchers[pid := d];
    }

    /** remove_dispatcher: the pid is gone; an absent pid is ignored. */
    method Remove(pid: int)
      modifies this
      ensures pid !in dispatchers
      ensures forall p :: p != pid ==> (p in dispatchers <==> p in old(dispatchers))
      ensures forall p :: p in dispatchers ==> dispatchers[p] == old(dispatchers)[p]
      ensures pid !in old(dispatchers) ==> dispatchers == old(dispatchers)
    {
      if pid in dispatchers {
        dispatchers := dispatchers - {pid};
      }
    }

    /** terminate_all_dispatchers: every entry flagged, then the dict empty. */
    method TerminateAll()
      modifies this, Threads()
      ensures forall p :: p in old(dispatchers) ==> old(dispatchers)[p].thread.shouldExit
      ensures dispatchers == map[]
    {
      var pids := dispatchers.Keys;
      while pids != {}
        invariant pids <= dispatchers.Keys && dispatchers == old(dispatchers)
        invariant forall p :: p in dispatchers && p !in pids ==> dispatchers[p].thread.shouldExit
        decreases pids
      {
        NonEmptyHasMember(pids);
        var p :| p in pids;
        dispatchers[p].thread.shouldExit := true;
        pids := pids - {p};
      }
      dispatchers := map[];
    }

    /** collect_all_process_info: every entry except the system sentinel, unchanged. */
    method CollectAllProcessInfo() returns (r: map<int, Supervision.Dispatcher>)
      ensures forall p :: p in r <==> p in dispatchers && p != SYSTEM_PID
      ensures forall p :: p in r ==> r[p] == dispatchers[p]
    {
      var pids := dispatchers.Keys;
      r := map[];
      while pids != {}
        invariant pids <= dispatchers.Keys
        invariant forall p :: p in r <==> p in dispatchers && p !in pids && p != SYSTEM_PID
        invariant forall p :: p in r ==> r[p] == dispatchers[p]
        decreases pids
      {
        NonEmptyHasMember(pids);
        var p :| p in pids;
        if p != SYSTEM_PID {
          r := r[p := dispatchers[p]];
        }
        pids := pids - {p};
      }
    }

    /** collect_system_info: the entry under the sentinel, a KeyError without one. */
    method CollectSystemInfo() returns (r: Result<Supervision.Dispatcher>)
      ensures r.Err? <==> SYSTEM_PID !in dispatchers
      ensures r.Err? ==> r.fault == KeyError
      ensures r.Ok? ==> r.value == dispatchers[SYSTEM_PID]
    {
      if SYSTEM_PID !in dispatchers {
        return Err(KeyError);
      }
      return Ok(dispatchers[SYSTEM_PID]);
    }
  }

  /**
   * The dt_mvc BaseTracerDispatcherThread constructor followed by
   * start_tracers: it registers under `dispatchee` with an empty pool and an
   * empty tracer list, so start_tracers starts nothing until a subclass
   * fills the list.
   */
  method NewBaseDispatcher(dispatchee: int, kind: Supervision.Kind, basename: string,
                           controller: Supervision.Controller, loadable: set<string>, snap: Metrics.Snapshot)
    returns (d: Supervision.Dispatcher)
    requires controller.Valid()
    requires kind == Supervision.SystemKind ==> dispatchee == SYSTEM_PID
    modifies controller
    ensures fresh(d) && fresh(d.thread) && !d.thread.shouldExit
    ensures d.tracePid == dispatchee && d.tracersToLoad == []
    ensures controller.dispatchers == old(controller.dispatchers)[dispatchee := d]
    ensures controller.allPids == old(controller.allPids) + {dispatchee}
    ensures d.threadPool == map[]
    ensures controller.Valid()
  {
    d := new Supervision.Dispatcher(dispatchee, kind, basename, [], controller);
    d.StartTracers(loadable, snap);
  }
}
