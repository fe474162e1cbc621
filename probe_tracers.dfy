/**
 * The two probing tracers of the `_dt_mvc` generation.  Each probe takes one
 * psutil sample (None when psutil returned nothing), publishes it to the
 * process's frontend cache and appends one row to the tracer's table.  The
 * table appender is modelled as the sequence of rows it received.
 */
module Probes {
  import opened Common
  import Tracers
  import FrontendCaches

  const TIME: string := "TIME"
  const ON_CPU: string := "OnCPU"
  const CPU_PERCENT: string := "CPU_PERCENT"
  const STAT: string := "STAT"

  const CPU_HEADER: seq<string> := [TIME, ON_CPU, CPU_PERCENT]
  const STAT_HEADER: seq<string> := [TIME, STAT]

  /** ProcessCPUTracerThread: tracer type "cpu", one row per sample. */
  class CpuProbe {
    const tracerType: string := "cpu"
    const header: seq<string> := CPU_HEADER
    const frontendCache: FrontendCaches.ProcessFrontendCache
    var rows: seq<Row>

    constructor (frontendCache: FrontendCaches.ProcessFrontendCache)
      ensures this.frontendCache == frontendCache && rows == []
    {
      this.frontendCache := frontendCache;
      rows := [];
    }

    /**
     * probe as written: a missing percentage changes nothing; otherwise the
     * cache gets the percentage and the table gets the row
     * [timestamp, percentage, core], in that order.
     */
    method ProbeAsWritten(ts: string, percent: Option<real>, onCpu: int)
      modifies this`rows, frontendCache`cpuPercent
      ensures percent.None? ==> rows == old(rows) && frontendCache.cpuPercent == old(frontendCache.cpuPercent)
      ensures percent.Some? ==> frontendCache.cpuPercent == percent.value
      ensures percent.Some? ==> rows == old(rows) + [[Text(ts), Num(percent.value), Tracers.IntCell(onCpu)]]
    {
      if percent.None? {
        return;
      }
      frontendCache.cpuPercent := percent.value;
      rows := rows + [[Text(ts), Num(percent.value), Tracers.IntCell(onCpu)]];
    }

    /** probe with the row in the header's order: [timestamp, core, percentage]. */
    method Probe(ts: string, percent: Option<real>, onCpu: int)
      modifies this`rows, frontendCache`cpuPercent
      ensures percent.None? ==> rows == old(rows) && frontendCache.cpuPercent == old(frontendCache.cpuPercent)
      ensures percent.Some? ==> frontendCache.cpuPercent == percent.value
      ensures percent.Some? ==> |rows| == |old(rows)| + 1 && rows[..|old(rows)|] == old(rows)
      ensures percent.Some? ==> Labelled(header, rows[|rows| - 1], ts, percent.value, onCpu)
    {
      if percent.None? {
        return;
      }
      frontendCache.cpuPercent := percent.value;
      rows := rows + [[Text(ts), Tracers.IntCell(onCpu), Num(percent.value)]];
    }
  }

  /** `row` carries the timestamp, core and percentage under the header's labels for them. */
  predicate Labelled(header: seq<string>, row: Row, ts: string, percent: real, onCpu: int)
  {
    |row| == |header|
    && (forall i :: 0 <= i < |header| && header[i] == TIME ==> row[i] == Text(ts))
    && (forall i :: 0 <= i < |header| && header[i] == ON_CPU ==> row[i] == Tracers.IntCell(onCpu))
    && (forall i :: 0 <= i < |header| && header[i] == CPU_PERCENT ==> row[i] == Num(percent))
  }

  /**
   * As written, the OnCPU column receives the percentage and the CPU_PERCENT
   * column the core: a sample of 37.5% on core 2 is recorded as 37.5 under
   * OnCPU.
   */
  lemma CpuColumnsSwapped()
    ensures !Labelled(CPU_HEADER, [Text("t"), Num(37.5), Tracers.IntCell(2)], "t", 37.5, 2)
  {
    assert CPU_HEADER[1] == ON_CPU;
  }

  /** The corrected probe's row has the header's width and puts every value under its label. */
  lemma ProbeRowMatchesHeader(ts: string, percent: real, onCpu: int)
    ensures Labelled(CPU_HEADER, [Text(ts), Tracers.IntCell(onCpu), Num(percent)], ts, percent, onCpu)
  {
  }

  /** Where the STAT tracer's `frontend_cache` attribute points. */
  datatype CacheSlot =
    | Shared(cache: FrontendCaches.ProcessFrontendCache)   // the dispatcher's cache object
    | Replaced(status: string)                            // a plain status string

  /** ProcessSTATTracerThread: tracer type "stat", one row per sample. */
  class StatProbe {
    const tracerType: string := "stat"
    const header: seq<string> := STAT_HEADER
    var frontendCache: CacheSlot
    var rows: seq<Row>

    constructor (cache: FrontendCaches.ProcessFrontendCache)
      ensures frontendCache == Shared(cache) && rows == []
    {
      frontendCache := Shared(cache);
      rows := [];
    }

    /**
     * probe as written: a missing status changes nothing; otherwise the
     * status string replaces the tracer's reference to the frontend cache,
     * and the row [timestamp, status] is appended.
     */
    method ProbeAsWritten(ts: string, status: Option<string>)
      modifies this
      ensures status.None? ==> rows == old(rows) && frontendCache == old(frontendCache)
      ensures status.Some? ==> frontendCache == Replaced(status.value)
      ensures status.Some? ==> rows == old(rows) + [[Text(ts), Text(status.value)]]
    {
      if status.None? {
        return;
      }
      frontendCache := Replaced(status.value);
      rows := rows + [[Text(ts), Text(status.value)]];
    }

    /**
     * probe as intended: the status is written into the shared cache, which
     * the tracer keeps referring to.
     */
    method Probe(ts: string, status: Option<string>)
      requires frontendCache.Shared?
      modifies this`rows, frontendCache.cache`stat
      ensures frontendCache == old(frontendCache)
      ensures status.None? ==> rows == old(rows) && frontendCache.cache.stat == old(frontendCache.cache.stat)
      ensures status.Some? ==> frontendCache.cache.stat == status.value
      ensures status.Some? ==> rows == old(rows) + [[Text(ts), Text(status.value)]]
      ensures forall i :: |old(rows)| <= i < |rows| ==> |rows[i]| == |header|
    {
      if status.None? {
        return;
      }
      frontendCache.cache.stat := status.value;
      rows := rows + [[Text(ts), Text(status.value)]];
    }
  }

  /**
   * As written, after one sample the STAT tracer no longer refers to the
   * dispatcher's cache, whose status the sample never reaches; every later
   * sample only overwrites the string.  The corrected probe leaves the
   * reference in place and the status in the cache.
   */
  method StatSampleScenario() returns (detachedAsWritten: bool, cacheStatusAsWritten: string,
                                       detachedCorrected: bool, cacheStatusCorrected: string)
    ensures detachedAsWritten && cacheStatusAsWritten == NA
    ensures !detachedCorrected && cacheStatusCorrected == "sleeping"
  {
    var cache := new FrontendCaches.ProcessFrontendCache("worker", 1, 42);
    cache.stat := NA;
    var p := new StatProbe(cache);
    p.ProbeAsWritten("t0", Some("sleeping"));
    detachedAsWritten := p.frontendCache != Shared(cache);
    cacheStatusAsWritten := cache.stat;

    var cache2 := new FrontendCaches.ProcessFrontendCache("worker", 1, 42);
    var q := new StatProbe(cache2);
    q.Probe("t0", Some("sleeping"));
    detachedCorrected := q.frontendCache != Shared(cache2);
    cacheStatusCorrected := cache2.stat;
  }
}
