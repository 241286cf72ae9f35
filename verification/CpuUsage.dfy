/** CPU usage from two readings of the system times
    (agent/src/windows/system_metrics_collector.cpp), with the unsigned arithmetic and the
    double-precision rounding written out. */
module CpuUsage {
  import opened Prelude
  import opened Rounding
  import opened TelemetryModel

  // ----- the counters -----

  const MAX_UINT64: UInt64 := 0xFFFF_FFFF_FFFF_FFFF

  /** Unsigned 64-bit arithmetic wraps around. */
  function Wrap(n: int): UInt64 {
    n % 0x1_0000_0000_0000_0000
  }

  /** `file_time_to_uint64`: two halves put side by side. */
  function FileTime(high: UInt32, low: UInt32): (t: UInt64)
    ensures t / 0x1_0000_0000 == high && t % 0x1_0000_0000 == low
  {
    high * 0x1_0000_0000 + low
  }

  datatype CpuTimes = CpuTimes(idle: UInt64, kernel: UInt64, user: UInt64)

  /** `calculate_cpu_metric`. */
  function CalculateCpuMetric(previous: CpuTimes, current: CpuTimes): Option<CpuMetric> {
    if current.idle < previous.idle || current.kernel < previous.kernel || current.user < previous.user then None
    else
      var idle := Wrap(current.idle - previous.idle);
      var kernel := Wrap(current.kernel - previous.kernel);
      var user := Wrap(current.user - previous.user);
      if kernel > Wrap(MAX_UINT64 - user) then None
      else
        var total := Wrap(kernel + user);
        if total == 0 || idle > total then None
        else
          var busy := Wrap(total - idle);
          var usage := UsagePercent(busy, total);
          if usage < 0.0 || usage > 100.0 then None else Some(CpuMetric(Finite(usage)))
  }

  /** The double expression: two conversions, a division and a multiplication, each rounded. */
  function UsagePercent(busy: UInt64, total: UInt64): real
    requires total > 0
  {
    RoundBounds(total as real);
    RoundBounds(busy as real);
    Percent(Round(busy as real), Round(total as real))
  }

  // ----- the same without wrap-around or rounding -----

  function Total(previous: CpuTimes, current: CpuTimes): int {
    (current.kernel - previous.kernel) + (current.user - previous.user)
  }

  function Busy(previous: CpuTimes, current: CpuTimes): int {
    Total(previous, current) - (current.idle - previous.idle)
  }

  /** The counters have not gone back, time has passed, it fits 64 bits, and idle time is part of it. */
  predicate Measurable(previous: CpuTimes, current: CpuTimes) {
    && previous.idle <= current.idle && previous.kernel <= current.kernel && previous.user <= current.user
    && 0 < Total(previous, current) <= MAX_UINT64
    && Busy(previous, current) >= 0
  }

  function ExactPercent(previous: CpuTimes, current: CpuTimes): real
    requires Measurable(previous, current)
  {
    100.0 * (Busy(previous, current) as real / Total(previous, current) as real)
  }

  /** The rounded share is a share, and the rounded percentage a percentage. */
  lemma UsageInRange(busy: UInt64, total: UInt64)
    requires busy <= total && total > 0
    ensures 0.0 <= UsagePercent(busy, total) <= 100.0
  {
    hide Round, Percent;
    RoundBounds(busy as real);
    RoundBounds(total as real);
    RoundMonotone(busy as real, total as real);
    PercentInRange(Round(busy as real), Round(total as real));
  }

  lemma ProductBounds(exact: real, total: real, t: real)
    requires exact >= 0.0 && total - U * total <= t <= total + U * total
    ensures var busy := exact * total; busy - U * busy <= exact * t <= busy + U * busy
  {
    ScaleUp(t, total + U * total, exact);
    ScaleUp(total - U * total, t, exact);
    assert (total + U * total) * exact == exact * total + U * (exact * total);
    assert (total - U * total) * exact == exact * total - U * (exact * total);
  }

  /** The quotient of two numbers, each off by at most one unit, is off by at most 2.2 units. */
  lemma QuotientNear(busy: real, total: real, b: real, t: real)
    requires 0.0 <= busy && 0.0 < total && 0.0 < t
    requires busy - U * busy <= b <= busy + U * busy && total - U * total <= t <= total + U * total
    ensures var exact := busy / total; exact - 2.2 * U * exact <= b / t <= exact + 2.2 * U * exact
  {
    var exact := busy / total;
    QuotientFrom(busy, total, 0.0);
    assert exact * total == busy;
    ProductBounds(exact, total, t);
    var product := exact * t;
    assert busy - U * busy <= product <= busy + U * busy;
    var (low, high) := (exact - 2.2 * U * exact, exact + 2.2 * U * exact);
    assert low * t == product - 2.2 * U * product && high * t == product + 2.2 * U * product;
    QuotientFrom(b, t, low);
    QuotientUpTo(b, t, high);
  }

  /** Four roundings cost less than five units of relative error 2^-53. */
  lemma UsageIsAccurate(busy: UInt64, total: UInt64)
    requires busy <= total && total > 0
    ensures var exact := 100.0 * (busy as real / total as real);
      exact - 5.0 * U * exact <= UsagePercent(busy, total) <= exact + 5.0 * U * exact
  {
    hide Round;
    var (b, t) := (Round(busy as real), Round(total as real));
    QuotientFrom(busy as real, total as real, 0.0);
    RoundBounds(busy as real);
    RoundBounds(total as real);
    QuotientNear(busy as real, total as real, b, t);
    QuotientFrom(b, t, 0.0);
    RoundBounds(b / t);
    RoundBounds(Round(b / t) * 100.0);
  }

  lemma WrapExact(n: int)
    requires 0 <= n <= MAX_UINT64
    ensures Wrap(n) == n
  {
  }

  /** Within the guards nothing wraps around. */
  lemma NoWrapAround(previous: CpuTimes, current: CpuTimes)
    ensures CalculateCpuMetric(previous, current) ==
      if !Measurable(previous, current) then None
      else
        var usage := UsagePercent(Busy(previous, current), Total(previous, current));
        if usage < 0.0 || usage > 100.0 then None else Some(CpuMetric(Finite(usage)))
  {
    hide UsagePercent, Wrap;
    if previous.idle <= current.idle && previous.kernel <= current.kernel && previous.user <= current.user {
      WrapExact(current.idle - previous.idle);
      WrapExact(current.kernel - previous.kernel);
      WrapExact(current.user - previous.user);
      WrapExact(MAX_UINT64 - (current.user - previous.user));
      if Total(previous, current) <= MAX_UINT64 {
        WrapExact(Total(previous, current));
        if Busy(previous, current) >= 0 {
          WrapExact(Busy(previous, current));
        }
      }
    }
  }

  /** The metric exists exactly when the counters are measurable: nothing wraps around and the last
      range check never rejects. It is then a valid percentage within relative error 5 * 2^-53 of
      the exact one. */
  lemma CpuMetricIsExact(previous: CpuTimes, current: CpuTimes)
    ensures CalculateCpuMetric(previous, current).Some? <==> Measurable(previous, current)
    ensures Measurable(previous, current) ==>
      var metric := CalculateCpuMetric(previous, current).value;
      var exact := ExactPercent(previous, current);
      && ValidCpu(metric)
      && exact - 5.0 * U * exact <= metric.usagePercent.value <= exact + 5.0 * U * exact
  {
    hide UsagePercent, CalculateCpuMetric;
    NoWrapAround(previous, current);
    if Measurable(previous, current) {
      UsageInRange(Busy(previous, current), Total(previous, current));
      UsageIsAccurate(Busy(previous, current), Total(previous, current));
    }
  }

  /** An idle processor shows exactly 0, a fully busy one exactly 100. */
  lemma ExtremesAreExact(total: UInt64)
    requires total > 0
    ensures UsagePercent(0, total) == 0.0 && UsagePercent(total, total) == 100.0
  {
    RoundBounds(total as real);
    OneIsExact();
    HundredIsExact();
    ZeroIsExact();
    hide Round;
    var t := Round(total as real);
    QuotientUpTo(t, t, 1.0);
    QuotientFrom(t, t, 1.0);
    QuotientUpTo(0.0, t, 0.0);
    QuotientFrom(0.0, t, 0.0);
  }

  /** More busy time out of the same total never shows as less. */
  lemma UsageIsMonotone(busy: UInt64, more: UInt64, total: UInt64)
    requires busy <= more <= total && total > 0
    ensures UsagePercent(busy, total) <= UsagePercent(more, total)
  {
    hide Round, Percent;
    RoundBounds(total as real);
    RoundBounds(busy as real);
    RoundMonotone(busy as real, more as real);
    PercentMonotone(Round(busy as real), Round(more as real), Round(total as real));
  }

  // ----- the collectors -----

  /** A CPU metric is there exactly if both readings could be taken and are measurable; it is then the
      exact usage between them, up to five units of relative error. */
  predicate MeasuredFrom(m: Option<CpuMetric>, sampleIntervalMs: int, first: Option<CpuTimes>,
                         second: Option<CpuTimes>)
  {
    && (m.Some? <==> sampleIntervalMs > 0 && first.Some? && second.Some? && Measurable(first.value, second.value))
    && (m.Some? ==>
          && m.value.usagePercent.Finite?
          && Near(m.value.usagePercent.value, ExactPercent(first.value, second.value), 5.0))
  }

  /** A memory metric is there exactly if the status could be read and is plausible, and is that. */
  predicate ReadFrom(m: Option<MemoryMetric>, status: Option<(UInt64, UInt64)>) {
    && (m.Some? <==> status.Some? && 0 < status.value.0 && status.value.1 <= status.value.0)
    && (m.Some? ==> m.value.totalBytes == status.value.0 && m.value.availableBytes == status.value.1)
  }

  /** `collect_cpu_metric`: two readings of the system times, each of which may fail. */
  function CollectCpuMetric(sampleIntervalMs: int, first: Option<CpuTimes>, second: Option<CpuTimes>)
    : (m: Option<CpuMetric>)
    ensures m.Some? ==> ValidCpu(m.value)
    ensures MeasuredFrom(m, sampleIntervalMs, first, second)
  {
    if sampleIntervalMs <= 0 then None
    else match (first, second)
      case (Some(previous), Some(current)) =>
        CpuMetricIsExact(previous, current);
        CalculateCpuMetric(previous, current)
      case _ => None
  }

  /** `collect_memory_metric`: the physical total and what is available of it, if they can be read. */
  function CollectMemoryMetric(status: Option<(UInt64, UInt64)>): (m: Option<MemoryMetric>)
    ensures m.Some? ==> ValidMemory(m.value)
    ensures ReadFrom(m, status)
  {
    match status
    case None => None
    case Some((total, available)) =>
      var metric := MemoryMetric(total, available);
      if metric.totalBytes == 0 || metric.availableBytes > metric.totalBytes then None else Some(metric)
  }

  // ----- intervals put together -----

  predicate AllMeasurable(samples: seq<CpuTimes>) {
    forall i :: 0 <= i < |samples| - 1 ==> Measurable(samples[i], samples[i + 1])
  }

  function SumOfTotals(samples: seq<CpuTimes>): int {
    if |samples| < 2 then 0
    else SumOfTotals(samples[..|samples| - 1]) + Total(samples[|samples| - 2], samples[|samples| - 1])
  }

  function SumOfBusy(samples: seq<CpuTimes>): int {
    if |samples| < 2 then 0
    else SumOfBusy(samples[..|samples| - 1]) + Busy(samples[|samples| - 2], samples[|samples| - 1])
  }

  /** Over several intervals, busy and total time add up; so if the sum still fits, the whole span is
      measurable, and its exact usage is the mean of the single ones weighted by their totals. */
  lemma {:induction false} IntervalsAddUp(samples: seq<CpuTimes>)
    requires |samples| >= 2 && AllMeasurable(samples)
    ensures var (first, last) := (samples[0], samples[|samples| - 1]);
      && Total(first, last) == SumOfTotals(samples) && Busy(first, last) == SumOfBusy(samples)
      && (Measurable(first, last) <==> SumOfTotals(samples) <= MAX_UINT64)
      && first.idle <= last.idle && first.kernel <= last.kernel && first.user <= last.user
      && SumOfTotals(samples) > 0 && SumOfBusy(samples) >= 0
    decreases |samples|
  {
    var n := |samples|;
    assert Measurable(samples[n - 2], samples[n - 1]);
    if n > 2 {
      var init := samples[..n - 1];
      assert AllMeasurable(init) by {
        forall i | 0 <= i < |init| - 1 ensures Measurable(init[i], init[i + 1]) {
          assert Measurable(samples[i], samples[i + 1]);
        }
      }
      IntervalsAddUp(init);
    } else {
      assert SumOfTotals(samples[..1]) == 0 && SumOfBusy(samples[..1]) == 0;
    }
  }

  /** A weighted comparison that holds of every interval holds of the sums. */
  lemma {:induction false} SumsKeepInequality(samples: seq<CpuTimes>, a: int, b: int)
    requires |samples| >= 2
    requires forall i :: 0 <= i < |samples| - 1 ==>
      a * Total(samples[i], samples[i + 1]) < b * Busy(samples[i], samples[i + 1])
    ensures a * SumOfTotals(samples) < b * SumOfBusy(samples)
    decreases |samples|
  {
    hide Total, Busy;
    var n := |samples|;
    var (init, t, u) := (samples[..n - 1], Total(samples[n - 2], samples[n - 1]), Busy(samples[n - 2], samples[n - 1]));
    assert a * t < b * u by {
      assert samples[n - 2 + 1] == samples[n - 1];
    }
    if n > 2 {
      forall i | 0 <= i < |init| - 1 ensures a * Total(init[i], init[i + 1]) < b * Busy(init[i], init[i + 1]) {
        assert a * Total(samples[i], samples[i + 1]) < b * Busy(samples[i], samples[i + 1]);
      }
      SumsKeepInequality(init, a, b);
      Distribute(a, SumOfTotals(init), t);
      Distribute(b, SumOfBusy(init), u);
    } else {
      assert SumOfTotals(samples[..1]) == 0 && SumOfBusy(samples[..1]) == 0;
    }
  }

  lemma Distribute(a: int, x: int, y: int)
    ensures a * (x + y) == a * x + a * y
  {
  }

  lemma Unscale(a: real, b: real, k: real)
    requires k > 0.0 && a * k <= b * k
    ensures a <= b
  {
  }

  lemma CompareShares(part: int, whole: int, otherPart: int, otherWhole: int)
    requires whole > 0 && otherWhole > 0 && part * otherWhole <= otherPart * whole
    ensures 100.0 * (part as real / whole as real) <= 100.0 * (otherPart as real / otherWhole as real)
  {
    var (p, w, q, v) := (part as real, whole as real, otherPart as real, otherWhole as real);
    assert p * v <= q * w;
    var x := q / v;
    assert x * v == q;
    assert (x * w) * v == q * w;
    Unscale(p, x * w, v);
    QuotientUpTo(p, w, x);
  }

  /** The usage over a span lies between the least and the greatest usage of its intervals. */
  lemma SpanLiesBetween(samples: seq<CpuTimes>)
    requires |samples| >= 2 && AllMeasurable(samples) && SumOfTotals(samples) <= MAX_UINT64
    ensures Measurable(samples[0], samples[|samples| - 1])
    ensures var span := ExactPercent(samples[0], samples[|samples| - 1]);
      && (exists i :: 0 <= i < |samples| - 1
            && Measurable(samples[i], samples[i + 1]) && ExactPercent(samples[i], samples[i + 1]) <= span)
      && (exists i :: 0 <= i < |samples| - 1
            && Measurable(samples[i], samples[i + 1]) && span <= ExactPercent(samples[i], samples[i + 1]))
  {
    hide SumOfTotals, SumOfBusy, Total, Busy;
    IntervalsAddUp(samples);
    var (total, busy) := (SumOfTotals(samples), SumOfBusy(samples));
    var low := SomeNotBelow(samples, busy, total);
    assert Measurable(samples[low], samples[low + 1]);
    CompareShares(Busy(samples[low], samples[low + 1]), Total(samples[low], samples[low + 1]), busy, total);
    var high := SomeNotBelow(samples, -busy, -total);
    assert Measurable(samples[high], samples[high + 1]);
    CompareShares(busy, total, Busy(samples[high], samples[high + 1]), Total(samples[high], samples[high + 1]));
  }

  /** Not every interval can lie strictly on one side of the weighted mean. */
  lemma SomeNotBelow(samples: seq<CpuTimes>, a: int, b: int) returns (i: nat)
    requires |samples| >= 2 && a * SumOfTotals(samples) >= b * SumOfBusy(samples)
    ensures i < |samples| - 1
    ensures b * Busy(samples[i], samples[i + 1]) <= a * Total(samples[i], samples[i + 1])
  {
    hide Total, Busy;
    if k :| 0 <= k < |samples| - 1 && b * Busy(samples[k], samples[k + 1]) <= a * Total(samples[k], samples[k + 1]) {
      i := k;
    } else {
      SumsKeepInequality(samples, a, b);
      assert false;
    }
  }
}
