/**
 * Number formatting helpers shared by the dispatchers and the frontend caches:
 * `to_human_readable` (three copies in the repository, two of them identical),
 * `percent_to_str`, the inline percentage rule of the `_private` system
 * dispatcher, and `statistics.mean`.  Real arithmetic is exact here; only the
 * final `round(x, 2)` and `str()` are not modelled, so results are `Cell`s.
 */
module Units {
  import opened Common

  const BINARY_PREFIXES: seq<string> := ["", "Ki", "Mi", "Gi", "Ti", "Pi", "Ei"]
  const DECIMAL_PREFIXES: seq<string> := ["", "K", "M", "G", "T", "P", "E"]
  const LEGACY_BINARY_UNITS: seq<string> := ["B", "KiB", "MiB", "GiB", "TiB", "PiB", "EiB"]
  const LEGACY_DECIMAL_UNITS: seq<string> := ["B", "KB", "MB", "GB", "TB", "PB", "EB"]

  /** len(dc_list) - 1: the scaling loop divides at most this often. */
  const MAX_STEP: nat := 6

  /** The prefix list of a base, or None when the source raises ValueError. */
  function Prefixes(base: int): (r: Option<seq<string>>)
    ensures r.Some? <==> base == 1000 || base == 1024
    ensures r.Some? ==> |r.value| == MAX_STEP + 1
  {
    if base == 1024 then Some(BINARY_PREFIXES)
    else if base == 1000 then Some(DECIMAL_PREFIXES)
    else None
  }

  /** The unit list of the oldest generation, whose units already end in "B". */
  function LegacyUnits(base: int): (r: Option<seq<string>>)
    ensures r.Some? <==> base == 1000 || base == 1024
    ensures r.Some? ==> |r.value| == MAX_STEP + 1
  {
    if base == 1024 then Some(LEGACY_BINARY_UNITS)
    else if base == 1000 then Some(LEGACY_DECIMAL_UNITS)
    else None
  }

  function Pow(b: real, n: nat): real
  {
    if n == 0 then 1.0 else b * Pow(b, n - 1)
  }

  /** Where the scaling loop stops: the scaled value and the number of divisions. */
  datatype Scaling = Scaling(value: real, step: nat)

  /** The scaling loop run to completion from the state (num, step). */
  function ScaleFrom(num: real, base: real, step: nat): Scaling
    requires base > 1.0 && step <= MAX_STEP
    decreases MAX_STEP - step
  {
    if num > base && step < MAX_STEP then ScaleFrom(num / base, base, step + 1)
    else Scaling(num, step)
  }

  /**
   * The declarative meaning of a scaling of `num`: at most MAX_STEP divisions,
   * the divisions are exact, every division was taken while the value still
   * exceeded the base, and the loop stopped only at a value <= base or at the
   * last prefix.
   */
  ghost predicate IsScaling(num: real, base: real, r: Scaling)
  {
    && r.step <= MAX_STEP
    && r.value * Pow(base, r.step) == num
    && (r.step == 0 || num > Pow(base, r.step))
    && (r.step == MAX_STEP || r.value <= base)
  }

  lemma {:induction false} PowPositive(b: real, n: nat)
    requires b > 0.0
    ensures Pow(b, n) > 0.0
  {
    if n > 0 {
      PowPositive(b, n - 1);
    }
  }

  lemma {:induction false} PowMonotone(b: real, i: nat, j: nat)
    requires b > 1.0 && i <= j
    ensures Pow(b, i) <= Pow(b, j)
    decreases j - i
  {
    if i < j {
      PowMonotone(b, i, j - 1);
      PowPositive(b, j - 1);
      assert Pow(b, j) == b * Pow(b, j - 1);
    }
  }

  lemma {:induction false} ScaleFromIsScaling(num: real, base: real, value: real, step: nat)
    requires base > 1.0 && step <= MAX_STEP
    requires value * Pow(base, step) == num
    requires step == 0 || num > Pow(base, step)
    ensures IsScaling(num, base, ScaleFrom(value, base, step))
    decreases MAX_STEP - step
  {
    if value > base && step < MAX_STEP {
      DivisionStep(num, base, value, step);
      ScaleFromIsScaling(num, base, value / base, step + 1);
      DivideStep(value, base, step);
    } else {
      StopIsScaling(num, base, value, step);
    }
  }

  /** Where the loop stops, the state it stops in is a scaling of num. */
  lemma StopIsScaling(num: real, base: real, value: real, step: nat)
    requires base > 1.0 && step <= MAX_STEP
    requires value * Pow(base, step) == num
    requires step == 0 || num > Pow(base, step)
    requires !(value > base && step < MAX_STEP)
    ensures IsScaling(num, base, ScaleFrom(value, base, step))
  {
    StopStep(value, base, step);
  }

  /** One turn of the loop keeps the division exact and the value above base. */
  lemma DivisionStep(num: real, base: real, value: real, step: nat)
    requires base > 1.0 && value > base
    requires value * Pow(base, step) == num
    ensures (value / base) * Pow(base, step + 1) == num
    ensures num > Pow(base, step + 1)
  {
    var p := Pow(base, step);
    PowPositive(base, step);
    assert Pow(base, step + 1) == base * p;
    assert (value / base) * (base * p) == value * p;
    MulStrict(base, value, p);
  }

  lemma MulStrict(x: real, y: real, p: real)
    requires x < y && p > 0.0
    ensures x * p < y * p
  {
  }

  lemma StopStep(value: real, base: real, step: nat)
    requires base > 1.0 && step <= MAX_STEP
    requires !(value > base && step < MAX_STEP)
    ensures ScaleFrom(value, base, step) == Scaling(value, step)
  {
  }

  /** One division of the loop leaves the final scaling unchanged. */
  lemma DivideStep(value: real, base: real, step: nat)
    requires base > 1.0 && value > base && step < MAX_STEP
    ensures ScaleFrom(value / base, base, step + 1) == ScaleFrom(value, base, step)
  {
  }

  /** The loop's result is a scaling of its input, for both supported bases. */
  lemma ScaleIsScaling(num: real, base: real)
    requires base > 1.0
    ensures IsScaling(num, base, ScaleFrom(num, base, 0))
  {
    ScaleFromIsScaling(num, base, num, 0);
  }

  /** A number has only one scaling: the declarative meaning pins the loop down. */
  lemma ScalingIsUnique(num: real, base: real, r1: Scaling, r2: Scaling)
    requires base > 1.0
    requires IsScaling(num, base, r1) && IsScaling(num, base, r2)
    ensures r1 == r2
  {
    StepNotAbove(num, base, r1, r2);
    StepNotAbove(num, base, r2, r1);
    PowPositive(base, r1.step);
  }

  /** A scaling cannot take more divisions than another scaling of the same number. */
  lemma StepNotAbove(num: real, base: real, r1: Scaling, r2: Scaling)
    requires base > 1.0
    requires IsScaling(num, base, r1) && IsScaling(num, base, r2)
    ensures r1.step <= r2.step
  {
    if r2.step < r1.step {
      StoppedBelowNextPower(num, base, r2);
      PowMonotone(base, r2.step + 1, r1.step);
      assert false;
    }
  }

  /** A scaling that stopped before the last prefix bounds num by the next power. */
  lemma StoppedBelowNextPower(num: real, base: real, r: Scaling)
    requires base > 1.0
    requires IsScaling(num, base, r) && r.step < MAX_STEP
    ensures num <= Pow(base, r.step + 1)
  {
    var p := Pow(base, r.step);
    PowPositive(base, r.step);
    assert Pow(base, r.step + 1) == base * p;
    MulMonotone(r.value, base, p);
  }

  lemma MulMonotone(x: real, y: real, p: real)
    requires x <= y && p > 0.0
    ensures x * p <= y * p
  {
  }

  /** If num <= base nothing is divided and the first prefix is chosen. */
  lemma NoDivisionWhenSmall(num: real, base: real)
    requires base > 1.0 && num <= base
    ensures ScaleFrom(num, base, 0) == Scaling(num, 0)
  {
  }

  /**
   * to_human_readable of the `_private` generation and of the `_dt_mvc`
   * frontend cache: ValueError for a base other than 1000 or 1024, otherwise
   * the scaled value with its prefix followed by the suffix.
   */
  method ToHumanReadable(num: real, base: int, suffix: string) returns (r: Result<Cell>)
    ensures r.Err? <==> base != 1000 && base != 1024
    ensures r.Err? ==> r.fault == ValueError
    ensures r.Ok? ==> var s := ScaleFrom(num, base as real, 0);
                      r.value == Scaled(s.value, Prefixes(base).value[s.step] + suffix)
    ensures base == 1024 && suffix == "B" ==> r == Ok(HumanBytes(num))
  {
    var prefixes := Prefixes(base);
    if prefixes.None? {
      return Err(ValueError);
    }
    var dc := prefixes.value;
    var b := base as real;
    var step := 0;
    var n := num;
    while n > b && step < |dc| - 1
      invariant 0 <= step <= MAX_STEP
      invariant ScaleFrom(n, b, step) == ScaleFrom(num, b, 0)
    {
      DivideStep(n, b, step);
      step := step + 1;
      n := n / b;
    }
    StopStep(n, b, step);
    r := Ok(Scaled(n, dc[step] + suffix));
  }

  /** to_human_readable(num) with the defaults base 1024 and suffix "B". */
  function HumanBytes(num: real): Cell
  {
    var s := ScaleFrom(num, 1024.0, 0);
    Scaled(s.value, BINARY_PREFIXES[s.step] + "B")
  }

  /**
   * The byte size shown is the unique scaling of `num` by 1024: a value and a
   * prefix such that value * 1024^step == num, with the value at most 1024
   * unless the prefixes ran out.
   */
  lemma HumanBytesIsTheScaling(num: real, s: Scaling)
    requires IsScaling(num, 1024.0, s)
    ensures HumanBytes(num) == Scaled(s.value, BINARY_PREFIXES[s.step] + "B")
  {
    ScaleIsScaling(num, 1024.0);
    ScalingIsUnique(num, 1024.0, s, ScaleFrom(num, 1024.0, 0));
  }

  /** to_human_readable of the oldest generation: no suffix, units end in "B". */
  method LegacyToHumanReadable(num: real, base: int) returns (r: Result<Cell>)
    ensures r.Err? <==> base != 1000 && base != 1024
    ensures r.Err? ==> r.fault == ValueError
    ensures r.Ok? ==> var s := ScaleFrom(num, base as real, 0);
                      r.value == Scaled(s.value, LegacyUnits(base).value[s.step])
  {
    var units := LegacyUnits(base);
    if units.None? {
      return Err(ValueError);
    }
    var dc := units.value;
    var b := base as real;
    var step := 0;
    var n := num;
    while n > b && step < |dc| - 1
      invariant 0 <= step <= MAX_STEP
      invariant ScaleFrom(n, b, step) == ScaleFrom(num, b, 0)
    {
      DivideStep(n, b, step);
      step := step + 1;
      n := n / b;
    }
    StopStep(n, b, step);
    r := Ok(Scaled(n, dc[step]));
  }

  /** The oldest unit list is the newer prefix list with the default suffix "B". */
  lemma LegacyUnitsAreDefaultSuffix(base: int, step: nat)
    requires base == 1000 || base == 1024
    requires step <= MAX_STEP
    ensures LegacyUnits(base).value[step] == Prefixes(base).value[step] + "B"
  {
    if step == 0 {
    } else if step == 1 {
    } else if step == 2 {
    } else if step == 3 {
    } else if step == 4 {
    } else if step == 5 {
    } else {
    }
  }

  /**
   * percent_to_str of the `_dt_mvc` frontend cache: "NA" when the total is
   * zero, otherwise num / total * 100 (rendered with two decimals and "%").
   */
  function PercentToStr(num: real, total: real): (r: Cell)
    ensures r == Text(NA) <==> total == 0.0
    ensures total != 0.0 ==> r.Percent? && r.x * total == num * 100.0
  {
    if total != 0.0 then Percent(num / total * 100.0) else Text(NA)
  }

  /**
   * The inline rule the `_private` system dispatcher applies to VM_PERCENT and
   * SWAP_PERCENT: the same quotient, but the literal "0.00%" when the total is zero.
   */
  function UsagePercent(part: real, total: real): (r: Cell)
    ensures r == Text("0.00%") <==> total == 0.0
    ensures total != 0.0 ==> r.Percent? && r.x * total == part * 100.0
  {
    if total != 0.0 then Percent(part / total * 100.0) else Text("0.00%")
  }

  /** The two generations agree except on a zero total. */
  lemma PercentRulesAgreeOffZero(part: real, total: real)
    ensures total != 0.0 ==> PercentToStr(part, total) == UsagePercent(part, total)
    ensures total == 0.0 ==> PercentToStr(part, total) != UsagePercent(part, total)
  {
  }

  function Sum(s: seq<real>): real
  {
    if s == [] then 0.0 else Sum(s[..|s| - 1]) + s[|s| - 1]
  }

  /** statistics.mean; it raises on an empty list, which callers exclude. */
  function Mean(s: seq<real>): real
    requires |s| > 0
  {
    Sum(s) / |s| as real
  }

  lemma {:induction false} SumBounds(s: seq<real>, lo: real, hi: real)
    requires forall i :: 0 <= i < |s| ==> lo <= s[i] <= hi
    ensures |s| as real * lo <= Sum(s) <= |s| as real * hi
  {
    if s != [] {
      SumBounds(s[..|s| - 1], lo, hi);
    }
  }

  /** The mean of per-core percentages lies between their bounds. */
  lemma MeanBounds(s: seq<real>, lo: real, hi: real)
    requires |s| > 0
    requires forall i :: 0 <= i < |s| ==> lo <= s[i] <= hi
    ensures lo <= Mean(s) <= hi
  {
    SumBounds(s, lo, hi);
  }
}
