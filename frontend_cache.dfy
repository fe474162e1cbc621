/**
 * The frontend caches of the `_dt_mvc` generation: plain objects that the
 * dispatchers and tracers write field by field and that the display renders.
 * Only SystemFrontendCache is visible; ProcessFrontendCache is modelled with
 * the fields its users assign.
 */
module FrontendCaches {
  import opened Common
  import Units

  /**
   * SystemFrontendCache: the last system-wide figures, -1 until a tracer
   * writes them.
   */
  class SystemFrontendCache {
    var cpuPercent: real
    var vmAvail: int
    var vmTotal: int
    var vmBuffered: int
    var vmShared: int
    var swapTotal: int
    var swapUsed: int

    constructor ()
      ensures cpuPercent == -1.0
      ensures vmAvail == -1 && vmTotal == -1 && vmBuffered == -1 && vmShared == -1
      ensures swapTotal == -1 && swapUsed == -1
    {
      cpuPercent := -1.0;
      vmAvail := -1;
      vmShared := -1;
      vmTotal := -1;
      vmBuffered := -1;
      swapTotal := -1;
      swapUsed := -1;
    }

    /** Free swap as __str__ derives it. */
    function SwapAvail(): int
      reads this
    {
      swapTotal - swapUsed
    }

    /**
     * __str__, field by field: CPU% against a total of 100, the virtual
     * memory and swap figures in binary units, each "available" share
     * against its total.
     */
    function Render(): (r: SystemLine)
      reads this
      ensures r.cpu == Percent(cpuPercent)
      ensures r.swapAvail == Units.HumanBytes(SwapAvail() as real)
      ensures r.swapTotal == Units.HumanBytes(swapTotal as real)
      ensures r.vmAvail == Units.HumanBytes(vmAvail as real) && r.vmTotal == Units.HumanBytes(vmTotal as real)
      ensures r.buffered == Units.HumanBytes(vmBuffered as real) && r.shared == Units.HumanBytes(vmShared as real)
      ensures vmTotal == 0 <==> r.vmShare == Text(NA)
      ensures vmTotal != 0 ==> r.vmShare.Percent? && r.vmShare.x * vmTotal as real == vmAvail as real * 100.0
      ensures swapTotal == 0 <==> r.swapShare == Text(NA)
      ensures swapTotal != 0 ==> r.swapShare.Percent? && r.swapShare.x * swapTotal as real == SwapAvail() as real * 100.0
    {
      SystemLine(
        Units.PercentToStr(cpuPercent, 100.0),
        Units.HumanBytes(vmAvail as real), Units.HumanBytes(vmTotal as real),
        Units.PercentToStr(vmAvail as real, vmTotal as real),
        Units.HumanBytes(vmBuffered as real), Units.HumanBytes(vmShared as real),
        Units.HumanBytes(SwapAvail() as real), Units.HumanBytes(swapTotal as real),
        Units.PercentToStr(SwapAvail() as real, swapTotal as real))
    }
  }

  /** The fields of the line SystemFrontendCache.__str__ joins, in its order. */
  datatype SystemLine = SystemLine(
    cpu: Cell,
    vmAvail: Cell, vmTotal: Cell, vmShare: Cell,
    buffered: Cell, shared: Cell,
    swapAvail: Cell, swapTotal: Cell, swapShare: Cell)

  /**
   * A cache nobody has written yet renders its sentinels: CPU% as -1%, the
   * byte counts unscaled, and the shares of -1 in -1 and of 0 in -1.
   */
  lemma FreshSystemCacheRendering(c: SystemFrontendCache)
    requires c.cpuPercent == -1.0 && c.vmAvail == -1 && c.vmTotal == -1 && c.vmBuffered == -1 && c.vmShared == -1
    requires c.swapTotal == -1 && c.swapUsed == -1
    ensures c.Render() == SystemLine(
              Percent(-1.0),
              Scaled(-1.0, "B"), Scaled(-1.0, "B"), Percent(100.0),
              Scaled(-1.0, "B"), Scaled(-1.0, "B"),
              Scaled(0.0, "B"), Scaled(-1.0, "B"), Percent(0.0))
  {
    Units.NoDivisionWhenSmall(-1.0, 1024.0);
    Units.NoDivisionWhenSmall(0.0, 1024.0);
  }

  /**
   * ProcessFrontendCache: built from the process's name, parent pid and pid;
   * the dispatcher writes `cpuTime` and the CPU tracer writes `cpuPercent`.
   * Its source file is not part of this model; the fields below are the ones
   * its users assign, and `stat` is the field the STAT tracer evidently
   * meant to write.
   */
  class ProcessFrontendCache {
    const name: string
    const ppid: int
    const pid: int
    var cpuTime: real
    var cpuPercent: real
    var stat: string

    constructor (name: string, ppid: int, pid: int)
      ensures this.name == name && this.ppid == ppid && this.pid == pid
    {
      this.name := name;
      this.ppid := ppid;
      this.pid := pid;
      cpuTime := -1.0;
      cpuPercent := -1.0;
      stat := NA;
    }
  }
}
