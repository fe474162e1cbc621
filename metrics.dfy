/**
 * The operating-system view the dispatchers consult through psutil, reduced to
 * an oracle: a snapshot maps every live pid to what psutil would report about
 * it.  A pid missing from the snapshot stands for the "not found" errors of
 * the lookup itself (no such process, zombie, access denied); a live pid
 * whose command line, environment or memory maps cannot be read carries that
 * in its view.  Also `get_total_cpu_time` and the CPU-time watermark of the
 * `_private` process dispatcher.
 */
module Metrics {
  import opened Common

  /** psutil's cpu_times(): seconds spent in user mode and in kernel mode. */
  datatype CpuTimes = CpuTimes(user: real, system: real)

  /**
   * What psutil reports about one live process.  `cpuTimes` is None when
   * cpu_times() alone fails although the process can still be looked up;
   * `readable` is false when one of cmdline(), exe(), cwd(), environ() and
   * memory_maps() raises a not-found error (typically AccessDenied for a
   * process of another user) although name() and ppid() succeed.
   */
  datatype ProcessView = ProcessView(
    name: string,
    ppid: int,
    children: seq<int>,
    cpuTimes: Option<CpuTimes>,
    status: string,
    readable: bool)

  type Snapshot = map<int, ProcessView>

  /**
   * The pid is alive and the registry, environment and memory-map writers
   * of a process dispatcher's constructor can read it: the constructor gets
   * through all of its psutil calls.
   */
  predicate Recordable(snap: Snapshot, pid: int)
  {
    pid in snap && snap[pid].readable
  }

  /** psutil never reports a negative pid, as a process or as a child. */
  predicate WellFormed(snap: Snapshot)
  {
    forall p :: p in snap ==> p >= 0 && forall i :: 0 <= i < |snap[p].children| ==> snap[p].children[i] >= 0
  }

  /** DEFAULT_SYSTEM_INDICATOR_PID (-1) can be neither a live process nor a child. */
  lemma SystemPidIsNoProcess(snap: Snapshot)
    requires WellFormed(snap)
    ensures SYSTEM_PID !in snap
    ensures forall p, i :: p in snap && 0 <= i < |snap[p].children| ==> snap[p].children[i] != SYSTEM_PID
  {
  }

  /** cpu_times() of a pid in a snapshot, None when it raises a not-found error. */
  function CpuReading(snap: Snapshot, pid: int): (r: Option<CpuTimes>)
    ensures pid !in snap ==> r.None?
  {
    if pid in snap then snap[pid].cpuTimes else None
  }

  /** get_total_cpu_time: system + user time, or -1 when psutil fails. */
  function TotalCpuTime(times: Option<CpuTimes>): real
  {
    match times
    case Some(t) => t.system + t.user
    case None => -1.0
  }

  predicate NonNegative(times: Option<CpuTimes>)
  {
    times.Some? ==> times.value.user >= 0.0 && times.value.system >= 0.0
  }

  /**
   * The failure value -1 cannot be confused with a reading: for the
   * non-negative times the kernel reports, the result is -1 exactly when
   * psutil failed, and otherwise the sum of both modes.
   */
  lemma TotalCpuTimeSignalsFailure(times: Option<CpuTimes>)
    requires NonNegative(times)
    ensures TotalCpuTime(times) == -1.0 <==> times.None?
    ensures TotalCpuTime(times) >= 0.0 <==> times.Some?
    ensures times.Some? ==> TotalCpuTime(times) == times.value.user + times.value.system
  {
  }

  function Max(a: real, b: real): (m: real)
    ensures m >= a && m >= b
    ensures m == a || m == b
  {
    if a >= b then a else b
  }

  /** The watermark after folding `readings` into `start` with max, oldest first. */
  function Watermark(start: real, readings: seq<real>): real
  {
    if readings == [] then start else Max(Watermark(start, readings[..|readings| - 1]), readings[|readings| - 1])
  }

  /** The watermark of a single reading is the max of the start and that reading. */
  lemma WatermarkOfOne(start: real, x: real)
    ensures Watermark(start, [x]) == Max(start, x)
  {
    assert [x][..0] == [];
  }

  /** Folding a prefix one reading longer continues from the shorter prefix's watermark. */
  lemma WatermarkChain(start: real, readings: seq<real>, n: nat)
    requires n < |readings|
    ensures Watermark(start, readings[..n + 1]) == Watermark(Watermark(start, readings[..n]), [readings[n]])
  {
    WatermarkStep(start, readings, n);
    WatermarkOfOne(Watermark(start, readings[..n]), readings[n]);
  }

  /** Folding in one more reading of a prefix takes the max with it. */
  lemma WatermarkStep(start: real, readings: seq<real>, n: nat)
    requires n < |readings|
    ensures Watermark(start, readings[..n + 1]) == Max(Watermark(start, readings[..n]), readings[n])
  {
    assert readings[..n + 1][..n] == readings[..n];
  }

  /**
   * The watermark is the maximum of its start and every reading: it is at
   * least each of them and equal to one of them.
   */
  lemma {:induction false} WatermarkIsMaximum(start: real, readings: seq<real>)
    ensures Watermark(start, readings) >= start
    ensures forall i :: 0 <= i < |readings| ==> Watermark(start, readings) >= readings[i]
    ensures Watermark(start, readings) == start || Watermark(start, readings) in readings
  {
    if readings != [] {
      var init := readings[..|readings| - 1];
      WatermarkIsMaximum(start, init);
      assert forall i :: 0 <= i < |init| ==> readings[i] == init[i];
      assert Watermark(start, init) in init ==> Watermark(start, init) in readings;
    }
  }

  /** One more reading never lowers the watermark. */
  lemma WatermarkNeverDecreases(start: real, readings: seq<real>, x: real)
    ensures Watermark(start, readings + [x]) >= Watermark(start, readings)
  {
    assert (readings + [x])[..|readings|] == readings;
  }

  /**
   * A failed reading (-1) cannot lower a watermark that starts at 0, so the
   * cached CPU time of a process that vanished keeps its last good value.
   */
  lemma {:induction false} FailedReadingsAreAbsorbed(readings: seq<real>)
    requires forall i :: 0 <= i < |readings| ==> readings[i] == -1.0
    ensures Watermark(0.0, readings) == 0.0
  {
    if readings != [] {
      FailedReadingsAreAbsorbed(readings[..|readings| - 1]);
    }
  }
}
