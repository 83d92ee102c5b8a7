/** How much of a product sells on a normal day: the learned half of a forecast. Days are
    day numbers with day 1 a Monday; factors are exact reals, rounded explicitly to 0.001. */
module NormalDemand {
  import opened Prelude
  import Calendar = EventCalendar
  import Rollup

  const HISTORY_WINDOW_DAYS: int := 56
  const BASELINE_FULL_TRUST_DAYS: int := 28
  const WEEKDAY_HALF_TRUST_COUNT: int := 4
  const WEEKDAY_MIN_DAILY_VOLUME: real := 5.0
  const WEEKDAY_FLOOR: real := 0.5
  const WEEKDAY_CEILING: real := 2.0
  const MAX_UNMET_UPLIFT: real := 2.0

  // ----------------------------------------------------------- rounding

  /** To the nearest integer, ties to the even one. */
  function HalfEven(x: real): int
  {
    var f := x.Floor;
    var part := x - f as real;
    if part > 0.5 || (part == 0.5 && f % 2 == 1) then f + 1 else f
  }

  /** `quantize(Decimal("0.001"))`. */
  function Q(x: real): real { HalfEven(x * 1000.0) as real / 1000.0 }

  /** The nearest integer, and of two equally near the even one. */
  lemma HalfEvenIsNearest(x: real)
    ensures -0.5 <= HalfEven(x) as real - x <= 0.5
    ensures HalfEven(x) as real - x == 0.5 || HalfEven(x) as real - x == -0.5 ==> HalfEven(x) % 2 == 0
  {
  }

  /** Rounded to a whole number of thousandths, none nearer, and of two equally near the even one. */
  lemma QIsNearest(x: real)
    ensures Q(x) * 1000.0 == HalfEven(x * 1000.0) as real
    ensures -0.5 <= HalfEven(x * 1000.0) as real - x * 1000.0 <= 0.5
    ensures HalfEven(x * 1000.0) as real - x * 1000.0 == 0.5 || HalfEven(x * 1000.0) as real - x * 1000.0 == -0.5 ==>
              HalfEven(x * 1000.0) % 2 == 0
  {
    HalfEvenIsNearest(x * 1000.0);
  }

  lemma HalfEvenIsMonotone(x: real, y: real)
    requires x <= y
    ensures HalfEven(x) <= HalfEven(y)
  {
    assert x.Floor <= y.Floor;
  }

  /** Rounding to a thousandth is monotone and leaves thousandths alone. */
  lemma QIsMonotone(x: real, y: real)
    requires x <= y
    ensures Q(x) <= Q(y)
  {
    HalfEvenIsMonotone(x * 1000.0, y * 1000.0);
  }

  lemma QFixesThousandths(k: int)
    ensures Q(k as real / 1000.0) == k as real / 1000.0
  {
    assert k as real / 1000.0 * 1000.0 == k as real;
  }

  lemma QIsIdempotent(x: real)
    ensures Q(Q(x)) == Q(x) && Q(2.0 * Q(x)) == 2.0 * Q(x) && Q(0.0) == 0.0
  {
    var k := HalfEven(x * 1000.0);
    QFixesThousandths(k);
    QFixesThousandths(2 * k);
    assert (2 * k) as real / 1000.0 == 2.0 * Q(x);
  }

  // ------------------------------------------------- what a snapshot holds

  /** Units per day for one product; a day with no row is a genuine zero. */
  type Daily = map<int, int>

  datatype Inputs = Inputs(
    history: map<int, Daily>,
    unmetHistory: map<int, Daily>,
    assumptions: map<int, Option<real>>,
    normalDays: seq<int>,
    firstSeen: map<int, int>)

  /** Days counted, average units per normal day, day count. */
  datatype Stats = Stats(days: seq<int>, average: real, n: nat)

  function UnitsOn(daily: Daily): int -> int
  {
    (d: int) => if d in daily then daily[d] else 0
  }

  function DailyOf(history: map<int, Daily>, product: int): Daily
  {
    if product in history then history[product] else map[]
  }

  function Since(first: int): int -> bool { (d: int) => d >= first }

  function CountedDays(inputs: Inputs, product: int): seq<int>
  {
    if product in inputs.firstSeen then Calendar.Where(inputs.normalDays, Since(inputs.firstSeen[product])) else []
  }

  function Average(days: seq<int>, daily: Daily): real
  {
    if |days| == 0 then 0.0 else SumOf(days, UnitsOn(daily)) as real / |days| as real
  }

  /** The statistics, computed afresh. */
  function StatsOf(inputs: Inputs, product: int): Stats
  {
    var days := CountedDays(inputs, product);
    Stats(days, Average(days, DailyOf(inputs.history, product)), |days|)
  }

  // ------------------------------------------------------ the two numbers

  /** How much the observed average counts against the assumption. */
  function Credibility(n: nat): real
  {
    MinR(1.0, n as real / BASELINE_FULL_TRUST_DAYS as real)
  }

  function Mix(w: real, a: real, b: real): real { w * a + (1.0 - w) * b }

  function Blend(n: nat, average: real, assumption: real): real
  {
    Mix(Credibility(n), average, assumption)
  }

  function AssumptionOf(inputs: Inputs, product: int): Option<real>
  {
    if product in inputs.assumptions then inputs.assumptions[product] else None
  }

  /** The baseline and the weight of the data behind it. */
  function Baseline(stats: Stats, assumption: Option<real>): (real, real)
  {
    if stats.n == 0 then (if assumption.None? then 0.0 else Q(assumption.value), 0.0)
    else if assumption.None? then (Q(stats.average), 1.0)
    else (Q(Blend(stats.n, stats.average, assumption.value)), Q(Credibility(stats.n)))
  }

  /** Monday is 0. */
  function Weekday(day: int): int { (day + 6) % 7 }

  function IsWeekday(w: int): int -> bool { (d: int) => Weekday(d) == w }

  function RawRatio(stats: Stats, daily: Daily, w: int): real
    requires stats.average > 0.0
  {
    Average(Calendar.Where(stats.days, IsWeekday(w)), daily) / stats.average
  }

  datatype WeekdayFactor = WeekdayFactor(factor: real, raw: Option<real>, trust: real)

  function Slide(trust: real, raw: real): real { 1.0 + trust * (raw - 1.0) }

  function Banded(x: real): real { MaxR(WEEKDAY_FLOOR, MinR(WEEKDAY_CEILING, x)) }

  function Trust(weeks: nat, average: real): real
  {
    weeks as real / (weeks + WEEKDAY_HALF_TRUST_COUNT) as real * MinR(1.0, average / WEEKDAY_MIN_DAILY_VOLUME)
  }

  /** The measured ratio, slid toward neutral by trust in it and held to a sane band. */
  function WeekdayEffect(stats: Stats, daily: Daily, on: int): WeekdayFactor
  {
    var same := Calendar.Where(stats.days, IsWeekday(Weekday(on)));
    if stats.n == 0 || stats.average <= 0.0 || |same| == 0 then WeekdayFactor(1.0, None, 0.0)
    else
      var raw := RawRatio(stats, daily, Weekday(on));
      var trust := Trust(|same|, stats.average);
      WeekdayFactor(Q(Banded(Slide(trust, raw))), Some(Q(raw)), Q(trust))
  }

  function IsRefusal(daily: Daily): int -> bool
  {
    (d: int) => d in daily && daily[d] > 0
  }

  datatype Demand = Demand(
    units: real, baseline: real, weekdayFactor: real, observedDays: nat, dataWeight: real,
    assumption: Option<real>, weekdayRaw: Option<real>, weekdayTrust: real,
    baselineWithUnmet: real, unmetPerDay: real, unmetDays: nat, unmetCapped: bool, unmetLive: bool)

  /** The baseline if refusals counted, capped at double a positive baseline, and whether
      the cap was hit. */
  function WithUnmet(baseline: real, unmetPerDay: real): (real, bool)
  {
    if unmetPerDay > 0.0 && baseline > 0.0 then
      (Q(MinR(baseline + unmetPerDay, baseline * MAX_UNMET_UPLIFT)),
       baseline + unmetPerDay > baseline * MAX_UNMET_UPLIFT)
    else if unmetPerDay > 0.0 then (Q(unmetPerDay), false)
    else (Q(baseline), false)
  }

  function Effective(useUnmet: bool, baseline: real, adjusted: real): real
  {
    if useUnmet && adjusted > baseline then adjusted else baseline
  }

  function DayUnits(baseline: real, weekdayFactor: real): real { Q(baseline * weekdayFactor) }

  /** The prediction from its parts. `useUnmet` is the shadow switch: only when it is on does
      the figure with refusals become the baseline. */
  function Assemble(useUnmet: bool, n: nat, base: (real, real), assumption: Option<real>, weekday: WeekdayFactor,
                    unmetPerDay: real, unmetDays: nat): Demand
  {
    var (adjusted, capped) := WithUnmet(base.0, unmetPerDay);
    var effective := Effective(useUnmet, base.0, adjusted);
    Demand(DayUnits(effective, weekday.factor), effective, weekday.factor, n, base.1, assumption, weekday.raw,
           weekday.trust,
           adjusted, Q(unmetPerDay), unmetDays, capped, useUnmet && adjusted > base.0)
  }

  function RefusalDays(days: seq<int>, refused: Daily): nat
  {
    |Calendar.Where(days, IsRefusal(refused))|
  }

  /** Normal demand computed from the inputs alone, with no cache. */
  function Predicted(inputs: Inputs, useUnmet: bool, product: int, on: int): Demand
  {
    var stats := StatsOf(inputs, product);
    var refused := DailyOf(inputs.unmetHistory, product);
    Assemble(useUnmet, stats.n, Baseline(stats, AssumptionOf(inputs, product)), AssumptionOf(inputs, product),
             WeekdayEffect(stats, DailyOf(inputs.history, product), on),
             Average(stats.days, refused), RefusalDays(stats.days, refused))
  }

  // ------------------------------------------ what a prediction is, outright

  /** Is this day evidence about the product: a normal day not before it was first seen? */
  ghost predicate Counts(inputs: Inputs, product: int, d: int)
  {
    product in inputs.firstSeen && inputs.firstSeen[product] <= d
  }

  ghost predicate SameWeekday(d: int, on: int) { (d - on) % 7 == 0 }

  /** Units of a product on a day, a day without a row being a genuine zero. */
  ghost function UnitsAt(history: map<int, Daily>, product: int, d: int): int
  {
    if product in history && d in history[product] then history[product][d] else 0
  }

  ghost function DaysSeen(inputs: Inputs, product: int): int
  {
    SumOf(inputs.normalDays, (d: int) => if Counts(inputs, product, d) then 1 else 0)
  }

  ghost function UnitsSeen(inputs: Inputs, history: map<int, Daily>, product: int): int
  {
    SumOf(inputs.normalDays, (d: int) => if Counts(inputs, product, d) then UnitsAt(history, product, d) else 0)
  }

  ghost function WeekdaysSeen(inputs: Inputs, product: int, on: int): int
  {
    SumOf(inputs.normalDays, (d: int) => if Counts(inputs, product, d) && SameWeekday(d, on) then 1 else 0)
  }

  ghost function WeekdayUnitsSeen(inputs: Inputs, product: int, on: int): int
  {
    SumOf(inputs.normalDays,
          (d: int) =>
            if Counts(inputs, product, d) && SameWeekday(d, on) then UnitsAt(inputs.history, product, d) else 0)
  }

  ghost function DaysRefused(inputs: Inputs, product: int): int
  {
    SumOf(inputs.normalDays,
          (d: int) => if Counts(inputs, product, d) && UnitsAt(inputs.unmetHistory, product, d) > 0 then 1 else 0)
  }

  ghost function Held(x: real, low: real, high: real): real
  {
    if x < low then low else if x > high then high else x
  }

  /** The mean of 28 days, of which the unseen ones sell as assumed. */
  ghost function FilledMean(units: int, n: int, assumption: real): real
  {
    (units as real + (28 - n) as real * assumption) / 28.0
  }

  /** Units a day, over n days. */
  ghost function Mean(units: int, n: int): real
    requires n >= 0
  {
    if n == 0 then 0.0 else units as real / n as real
  }

  /** The baseline before refusals: the assumption, or nothing, until a day is seen; the plain mean
      without an assumption or from 28 days on; between, the mean that the assumption fills up. */
  ghost predicate IsBaseline(b: real, n: int, units: int, assumption: Option<real>)
    requires n >= 0
  {
    if n == 0 then b == Q(if assumption.Some? then assumption.value else 0.0)
    else if assumption.None? || n >= 28 then b == Q(Mean(units, n))
    else b == Q(FilledMean(units, n, assumption.value))
  }

  /** What the data weighs against the assumption: nothing unseen, all without one, else n days of 28. */
  ghost predicate IsDataWeight(w: real, n: int, assumption: Option<real>)
  {
    if n == 0 then w == 0.0
    else if assumption.None? then w == 1.0
    else w == Q(if n >= 28 then 1.0 else n as real / 28.0)
  }

  ghost function WeekRatio(weekUnits: int, weeks: int, mean: real): real
    requires weeks > 0 && mean > 0.0
  {
    weekUnits as real / weeks as real / mean
  }

  /** Trust in a weekday: seen four times it is half trusted, and less when little sells. */
  ghost function WeekTrust(weeks: int, mean: real): real
    requires weeks >= 0
  {
    weeks as real / (weeks as real + 4.0) * (if mean < 5.0 then mean / 5.0 else 1.0)
  }

  ghost predicate IsSlid(f: real, raw: Option<real>, trust: real, ratio: real, share: real)
  {
    f == Q(Held(1.0 + share * (ratio - 1.0), 0.5, 2.0)) && raw == Some(Q(ratio)) && trust == Q(share)
  }

  /** The mean of the days a multiple of seven from `on`, relative to the mean of all, slid toward
      neutral by how often that weekday was seen and how much sells, and held between a half and
      twice; neutral when nothing was seen or sold. */
  ghost predicate IsWeekdayFactor(f: real, raw: Option<real>, trust: real, n: int, units: int, weeks: int,
                                  weekUnits: int)
    requires n >= 0 && weeks >= 0
  {
    if n == 0 || units <= 0 || weeks == 0 then f == 1.0 && raw == None && trust == 0.0
    else
      Mean(units, n) > 0.0 &&
      IsSlid(f, raw, trust, WeekRatio(weekUnits, weeks, Mean(units, n)), WeekTrust(weeks, Mean(units, n)))
  }

  /** The baseline with refusals: lifted by the refused units a day, at most doubled; the refused
      units alone when nothing sold. */
  ghost predicate IsLifted(lifted: real, capped: bool, b: real, perDay: real)
  {
    if perDay > 0.0 && b > 0.0 then
      lifted == Q(if b + perDay <= 2.0 * b then b + perDay else 2.0 * b) && (capped <==> perDay > b)
    else lifted == Q(if perDay > 0.0 then perDay else b) && !capped
  }

  /** A prediction, field by field, from what was counted. */
  ghost predicate IsDemandFor(demand: Demand, useUnmet: bool, n: int, units: int, weeks: int, weekUnits: int,
                              refusedDays: int, refusedUnits: int, assumption: Option<real>)
    requires n >= 0 && weeks >= 0
  {
    && demand.observedDays == n && demand.assumption == assumption && IsDataWeight(demand.dataWeight, n, assumption)
    && demand.unmetDays == refusedDays && demand.unmetPerDay == Q(Mean(refusedUnits, n))
    && IsWeekdayFactor(demand.weekdayFactor, demand.weekdayRaw, demand.weekdayTrust, n, units, weeks, weekUnits)
    && IsDayFigure(demand.units, demand.baseline, demand.weekdayFactor)
    && exists b :: IsBuiltOn(demand, useUnmet, b, n, units, assumption, Mean(refusedUnits, n))
  }

  ghost predicate IsDayFigure(units: real, baseline: real, weekdayFactor: real)
  {
    units == Q(baseline * weekdayFactor)
  }

  /** A prediction from the inputs alone: every count and sum runs over the normal days. */
  ghost predicate IsPrediction(inputs: Inputs, useUnmet: bool, product: int, on: int, demand: Demand)
  {
    && DaysSeen(inputs, product) >= 0 && WeekdaysSeen(inputs, product, on) >= 0
    && IsDemandFor(demand, useUnmet, DaysSeen(inputs, product), UnitsSeen(inputs, inputs.history, product),
                   WeekdaysSeen(inputs, product, on), WeekdayUnitsSeen(inputs, product, on),
                   DaysRefused(inputs, product),
                   UnitsSeen(inputs, inputs.unmetHistory, product),
                   if product in inputs.assumptions then inputs.assumptions[product] else None)
  }

  /** The baseline in use is the one with refusals only when the switch is on and it is higher. */
  ghost predicate IsBuiltOn(demand: Demand, useUnmet: bool, b: real, n: int, units: int, assumption: Option<real>,
                            perDay: real)
    requires n >= 0
  {
    && IsBaseline(b, n, units, assumption) && IsLifted(demand.baselineWithUnmet, demand.unmetCapped, b, perDay)
    && (demand.unmetLive <==> useUnmet && demand.baselineWithUnmet > b)
    && demand.baseline == if demand.unmetLive then demand.baselineWithUnmet else b
  }

  lemma {:induction false} NoneCounted<T>(s: seq<T>, g: T -> int)
    requires forall x :: x in s ==> g(x) == 0
    ensures SumOf(s, g) == 0
  {
    if |s| != 0 {
      NoneCounted(s[..|s| - 1], g);
    }
  }

  // Summing over the counted days is summing over the normal days that count.
  lemma CountedSum(inputs: Inputs, product: int, f: int -> int, g: int -> int)
    requires forall d :: g(d) == if Counts(inputs, product, d) then f(d) else 0
    ensures SumOf(CountedDays(inputs, product), f) == SumOf(inputs.normalDays, g)
  {
    if product in inputs.firstSeen {
      Calendar.WhereSum(inputs.normalDays, Since(inputs.firstSeen[product]), f, g);
    } else {
      forall d
        ensures g(d) == 0
      {
        assert !Counts(inputs, product, d);
      }
      NoneCounted(inputs.normalDays, g);
    }
  }

  lemma {:induction false} SumOfOnes<T>(s: seq<T>, one: T -> int)
    requires forall x :: x in s ==> one(x) == 1
    ensures SumOf(s, one) == |s|
  {
    if |s| != 0 {
      SumOfOnes(s[..|s| - 1], one);
    }
  }

  lemma CountedSize(inputs: Inputs, product: int)
    ensures |CountedDays(inputs, product)| == DaysSeen(inputs, product)
  {
    var one, g := (d: int) => 1, (d: int) => if Counts(inputs, product, d) then 1 else 0;
    CountedSum(inputs, product, one, g);
    SumOfOnes(CountedDays(inputs, product), one);
    SumEqual(inputs.normalDays, inputs.normalDays, g, (d: int) => if Counts(inputs, product, d) then 1 else 0);
  }

  lemma CountedUnits(inputs: Inputs, history: map<int, Daily>, product: int)
    ensures SumOf(CountedDays(inputs, product), UnitsOn(DailyOf(history, product)))
            == UnitsSeen(inputs, history, product)
  {
    var g := (d: int) => if Counts(inputs, product, d) then UnitsAt(history, product, d) else 0;
    CountedSum(inputs, product, UnitsOn(DailyOf(history, product)), g);
    SumEqual(inputs.normalDays, inputs.normalDays, g,
             (d: int) => if Counts(inputs, product, d) then UnitsAt(history, product, d) else 0);
  }

  lemma WeekdaysMatch(d: int, on: int)
    ensures Weekday(d) == Weekday(on) <==> SameWeekday(d, on)
  {
  }

  lemma CountedWeekdays(inputs: Inputs, product: int, on: int)
    ensures var same := Calendar.Where(CountedDays(inputs, product), IsWeekday(Weekday(on)));
      && |same| == WeekdaysSeen(inputs, product, on)
      && SumOf(same, UnitsOn(DailyOf(inputs.history, product))) == WeekdayUnitsSeen(inputs, product, on)
  {
    var days, keep := CountedDays(inputs, product), IsWeekday(Weekday(on));
    var units := UnitsOn(DailyOf(inputs.history, product));
    var one, some := (d: int) => if keep(d) then 1 else 0, (d: int) => if keep(d) then units(d) else 0;
    var ones := (d: int) => if Counts(inputs, product, d) && SameWeekday(d, on) then 1 else 0;
    var somes := (d: int) =>
      if Counts(inputs, product, d) && SameWeekday(d, on) then UnitsAt(inputs.history, product, d) else 0;
    forall d
      ensures keep(d) <==> SameWeekday(d, on)
    {
      WeekdaysMatch(d, on);
    }
    Calendar.WhereCount(days, keep, one);
    Calendar.WhereSum(days, keep, units, some);
    CountedSum(inputs, product, one, ones);
    CountedSum(inputs, product, some, somes);
    SumEqual(inputs.normalDays, inputs.normalDays, ones,
             (d: int) => if Counts(inputs, product, d) && SameWeekday(d, on) then 1 else 0);
    SumEqual(inputs.normalDays, inputs.normalDays, somes,
             (d: int) =>
               if Counts(inputs, product, d) && SameWeekday(d, on) then UnitsAt(inputs.history, product, d) else 0);
  }

  lemma CountedRefusals(inputs: Inputs, product: int)
    ensures RefusalDays(CountedDays(inputs, product), DailyOf(inputs.unmetHistory, product))
            == DaysRefused(inputs, product)
  {
    var days, keep := CountedDays(inputs, product), IsRefusal(DailyOf(inputs.unmetHistory, product));
    var one := (d: int) => if keep(d) then 1 else 0;
    var ones := (d: int) => if Counts(inputs, product, d) && UnitsAt(inputs.unmetHistory, product, d) > 0 then 1 else 0;
    Calendar.WhereCount(days, keep, one);
    CountedSum(inputs, product, one, ones);
    SumEqual(inputs.normalDays, inputs.normalDays, ones,
             (d: int) => if Counts(inputs, product, d) && UnitsAt(inputs.unmetHistory, product, d) > 0 then 1 else 0);
  }

  // n / 28 of the mean of n days and the rest of the assumption is the mean of 28 days.
  lemma BlendCloses(n: nat, units: int, assumption: real)
    requires 0 < n < 28
    ensures Blend(n, Mean(units, n), assumption) == FilledMean(units, n, assumption)
  {
    var w, mean := n as real / 28.0, Mean(units, n);
    assert Credibility(n) == w;
    MixOfMean(w, n as real, mean, units as real, assumption);
  }

  lemma MixOfMean(w: real, n: real, mean: real, units: real, assumption: real)
    requires w * 28.0 == n && mean * n == units
    ensures Mix(w, mean, assumption) == (units + (28.0 - n) * assumption) / 28.0
  {
    assert w == n / 28.0;
    assert n * mean == units;
    PartOfProduct(n, mean);
    PartOfProduct(28.0 - n, assumption);
    assert 1.0 - w == (28.0 - n) / 28.0;
  }

  lemma PartOfProduct(x: real, y: real)
    ensures x / 28.0 * y == (x * y) / 28.0
  {
  }

  lemma BaselineMeans(stats: Stats, units: int, assumption: Option<real>)
    requires stats.average == Mean(units, stats.n)
    ensures IsBaseline(Baseline(stats, assumption).0, stats.n, units, assumption)
  {
    if stats.n != 0 && assumption.Some? {
      if stats.n >= 28 {
        BlendFades(stats.n, stats.average, assumption.value);
      } else {
        BlendCloses(stats.n, units, assumption.value);
      }
    }
  }

  lemma BandedIsHeld(x: real)
    ensures Banded(x) == Held(x, 0.5, 2.0)
  {
  }

  lemma MeanIsPositive(units: int, n: nat)
    requires n > 0
    ensures Mean(units, n) > 0.0 <==> units > 0
  {
    var mean := Mean(units, n);
    assert mean * n as real == units as real;
    if mean > 0.0 {
      PositiveProduct(mean, n as real);
    } else {
      NonNegativeProduct(-mean, n as real);
    }
  }

  lemma SlidMeans(share: real, ratio: real)
    ensures IsSlid(Q(Banded(Slide(share, ratio))), Some(Q(ratio)), Q(share), ratio, share)
  {
    BandedIsHeld(Slide(share, ratio));
  }

  lemma TrustMeans(weeks: nat, mean: real)
    ensures Trust(weeks, mean) == WeekTrust(weeks, mean)
  {
    var volume := if mean < 5.0 then mean / 5.0 else 1.0;
    assert MinR(1.0, mean / WEEKDAY_MIN_DAILY_VOLUME) == volume;
    assert (weeks + WEEKDAY_HALF_TRUST_COUNT) as real == weeks as real + 4.0;
  }

  lemma RatioMeans(stats: Stats, daily: Daily, on: int, weeks: nat, weekUnits: int)
    requires stats.average > 0.0 && weeks > 0
    requires var same := Calendar.Where(stats.days, IsWeekday(Weekday(on)));
      |same| == weeks && SumOf(same, UnitsOn(daily)) == weekUnits
    ensures RawRatio(stats, daily, Weekday(on)) == WeekRatio(weekUnits, weeks, stats.average)
  {
  }

  lemma WeekdayEffectMeans(stats: Stats, daily: Daily, on: int, units: int, weeks: nat, weekUnits: int)
    requires stats.n == |stats.days| && stats.average == Mean(units, stats.n)
    requires var same := Calendar.Where(stats.days, IsWeekday(Weekday(on)));
      |same| == weeks && SumOf(same, UnitsOn(daily)) == weekUnits
    ensures var e := WeekdayEffect(stats, daily, on);
      IsWeekdayFactor(e.factor, e.raw, e.trust, stats.n, units, weeks, weekUnits)
  {
    if stats.n != 0 {
      MeanIsPositive(units, stats.n);
      if units > 0 && weeks != 0 {
        RatioMeans(stats, daily, on, weeks, weekUnits);
        TrustMeans(weeks, stats.average);
        SlidMeans(Trust(weeks, stats.average), RawRatio(stats, daily, Weekday(on)));
      }
    }
  }

  lemma WithUnmetMeans(b: real, perDay: real)
    ensures IsLifted(WithUnmet(b, perDay).0, WithUnmet(b, perDay).1, b, perDay)
  {
  }

  lemma AssembleIsBuiltOn(useUnmet: bool, n: nat, base: (real, real), assumption: Option<real>, weekday: WeekdayFactor,
                          perDay: real, refused: nat, units: int)
    requires IsBaseline(base.0, n, units, assumption)
    ensures IsBuiltOn(Assemble(useUnmet, n, base, assumption, weekday, perDay, refused), useUnmet, base.0, n, units,
                      assumption,
                      perDay)
  {
    WithUnmetMeans(base.0, perDay);
  }

  lemma AssembleFields(useUnmet: bool, n: nat, base: (real, real), assumption: Option<real>, weekday: WeekdayFactor,
                       perDay: real, refused: nat)
    ensures var demand := Assemble(useUnmet, n, base, assumption, weekday, perDay, refused);
      && demand.observedDays == n && demand.assumption == assumption && demand.dataWeight == base.1
      && demand.unmetDays == refused && demand.unmetPerDay == Q(perDay)
      && demand.weekdayFactor == weekday.factor && demand.weekdayRaw == weekday.raw
      && demand.weekdayTrust == weekday.trust
      && demand.units == DayUnits(demand.baseline, demand.weekdayFactor)
  {
    var adjusted := WithUnmet(base.0, perDay).0;
    assert Assemble(useUnmet, n, base, assumption, weekday, perDay, refused).units
        == DayUnits(Effective(useUnmet, base.0, adjusted), weekday.factor);
  }

  lemma DataWeightMeans(stats: Stats, assumption: Option<real>)
    ensures IsDataWeight(Baseline(stats, assumption).1, stats.n, assumption)
  {
    assert stats.n >= 28 ==> stats.n as real / 28.0 >= 1.0;
  }

  lemma DayUnitsMeans(baseline: real, weekdayFactor: real)
    ensures IsDayFigure(DayUnits(baseline, weekdayFactor), baseline, weekdayFactor)
  {
  }

  lemma DemandFromParts(demand: Demand, useUnmet: bool, n: nat, b: real, assumption: Option<real>, refused: nat,
                        units: int, weeks: nat, weekUnits: int, refusedUnits: int)
    requires demand.observedDays == n && demand.assumption == assumption
    requires IsDataWeight(demand.dataWeight, n, assumption)
    requires demand.unmetDays == refused && demand.unmetPerDay == Q(Mean(refusedUnits, n))
    requires IsWeekdayFactor(demand.weekdayFactor, demand.weekdayRaw, demand.weekdayTrust, n, units, weeks, weekUnits)
    requires IsDayFigure(demand.units, demand.baseline, demand.weekdayFactor)
    requires IsBuiltOn(demand, useUnmet, b, n, units, assumption, Mean(refusedUnits, n))
    ensures IsDemandFor(demand, useUnmet, n, units, weeks, weekUnits, refused, refusedUnits, assumption)
  {
  }

  lemma AverageIsMean(days: seq<int>, daily: Daily)
    ensures Average(days, daily) == Mean(SumOf(days, UnitsOn(daily)), |days|)
  {
  }

  /** Every prediction is what its definition says, field by field. */
  lemma PredictionMeans(inputs: Inputs, useUnmet: bool, product: int, on: int)
    ensures IsPrediction(inputs, useUnmet, product, on, Predicted(inputs, useUnmet, product, on))
  {
    var stats, daily := StatsOf(inputs, product), DailyOf(inputs.history, product);
    var refused, assumption := DailyOf(inputs.unmetHistory, product), AssumptionOf(inputs, product);
    CountedSize(inputs, product);
    CountedUnits(inputs, inputs.history, product);
    CountedUnits(inputs, inputs.unmetHistory, product);
    CountedWeekdays(inputs, product, on);
    CountedRefusals(inputs, product);
    AverageIsMean(stats.days, daily);
    AverageIsMean(stats.days, refused);
    var units, weeks := UnitsSeen(inputs, inputs.history, product), WeekdaysSeen(inputs, product, on);
    BaselineMeans(stats, units, assumption);
    WeekdayEffectMeans(stats, daily, on, units, weeks, WeekdayUnitsSeen(inputs, product, on));
    var base, weekday := Baseline(stats, assumption), WeekdayEffect(stats, daily, on);
    var perDay, days := Average(stats.days, refused), DaysRefused(inputs, product);
    var demand := Predicted(inputs, useUnmet, product, on);
    DayUnitsMeans(demand.baseline, demand.weekdayFactor);
    DataWeightMeans(stats, assumption);
    AssembleFields(useUnmet, stats.n, base, assumption, weekday, perDay, days);
    AssembleIsBuiltOn(useUnmet, stats.n, base, assumption, weekday, perDay, days, units);
    DemandFromParts(demand, useUnmet, stats.n, base.0, assumption, days, units, weeks,
                    WeekdayUnitsSeen(inputs, product, on), UnitsSeen(inputs, inputs.unmetHistory, product));
  }

  // ---------------------------------------------------------- the cache

  class Snapshot {
    const inputs: Inputs
    const useUnmet: bool
    var cache: map<int, Stats>

    /** Whatever is cached is what would be computed now. */
    ghost predicate Valid()
      reads this
    {
      forall p :: p in cache ==> cache[p] == StatsOf(inputs, p)
    }

    constructor (inputs: Inputs, useUnmet: bool)
      ensures Valid() && this.inputs == inputs && this.useUnmet == useUnmet
    {
      this.inputs, this.useUnmet, cache := inputs, useUnmet, map[];
    }

    method GetStats(product: int) returns (stats: Stats)
      requires Valid()
      modifies this
      ensures Valid() && stats == StatsOf(inputs, product)
    {
      if product in cache {
        return cache[product];
      }
      var days, total := [], 0;
      var daily := DailyOf(inputs.history, product);
      if product in inputs.firstSeen {
        days, total := CountSince(inputs.normalDays, inputs.firstSeen[product], daily);
      }
      stats := if |days| == 0 then Stats([], 0.0, 0) else Stats(days, total as real / |days| as real, |days|);
      cache := cache[product := stats];
    }

    /** Any sequence of predictions gives what an uncached computation would. */
    method Predict(product: int, on: int) returns (demand: Demand)
      requires Valid()
      modifies this
      ensures Valid() && demand == Predicted(inputs, useUnmet, product, on)
      ensures IsPrediction(inputs, useUnmet, product, on, demand)
    {
      PredictionMeans(inputs, useUnmet, product, on);
      var stats := GetStats(product);
      var base := Baseline(stats, AssumptionOf(inputs, product));
      stats := GetStats(product);
      var weekday := WeekdayEffect(stats, DailyOf(inputs.history, product), on);
      stats := GetStats(product);
      var refused := DailyOf(inputs.unmetHistory, product);
      return Assemble(useUnmet, stats.n, base, AssumptionOf(inputs, product), weekday,
                      Average(stats.days, refused), RefusalDays(stats.days, refused));
    }
  }

  method CountSince(normalDays: seq<int>, first: int, daily: Daily) returns (days: seq<int>, total: int)
    ensures days == Calendar.Where(normalDays, Since(first)) && total == SumOf(days, UnitsOn(daily))
  {
    days, total := [], 0;
    var k := 0;
    while k < |normalDays|
      invariant 0 <= k <= |normalDays|
      invariant days == Calendar.Where(normalDays[..k], Since(first)) && total == SumOf(days, UnitsOn(daily))
    {
      assert normalDays[..k + 1][..k] == normalDays[..k];
      if normalDays[k] >= first {
        SumAppend(days, normalDays[k], UnitsOn(daily));
        days, total := days + [normalDays[k]], total + UnitsOn(daily)(normalDays[k]);
      }
      k := k + 1;
    }
    assert normalDays[..k] == normalDays;
  }

  // ------------------------------------------------------- normal days

  predicate Blocks(e: Calendar.Event, restaurant: int, branch: int, day: int)
  {
    e.restaurant == restaurant && (e.branch.None? || e.branch == Some(branch)) && e.startsOn <= day <= e.endsOn
  }

  predicate IsBlocked(events: seq<Calendar.Event>, restaurant: int, branch: int, day: int)
  {
    exists i :: 0 <= i < |events| && Blocks(events[i], restaurant, branch, day)
  }

  /** Exactly the dates of the window that no applicable event covers, in order. */
  method NormalDays(events: seq<Calendar.Event>, restaurant: int, branch: int, start: int, end: int)
    returns (out: seq<int>)
    ensures forall d :: d in out <==> start <= d <= end && !IsBlocked(events, restaurant, branch, d)
    ensures forall i, j :: 0 <= i < j < |out| ==> out[i] < out[j]
  {
    if end < start {
      return [];
    }
    var blocked := BlockedDays(events, restaurant, branch, start, end);
    out := [];
    var day := start;
    while day <= end
      invariant start <= day <= end + 1
      invariant forall d :: d in out <==> start <= d < day && d !in blocked
      invariant forall i, j :: 0 <= i < j < |out| ==> out[i] < out[j]
    {
      if day !in blocked {
        assert forall i :: 0 <= i < |out| ==> out[i] in out;
        out := out + [day];
      }
      day := day + 1;
    }
  }

  method BlockedDays(events: seq<Calendar.Event>, restaurant: int, branch: int, start: int, end: int)
    returns (blocked: set<int>)
    requires start <= end
    ensures forall d :: d in blocked <==> start <= d <= end && IsBlocked(events, restaurant, branch, d)
  {
    blocked := {};
    var k := 0;
    while k < |events|
      invariant 0 <= k <= |events|
      invariant forall d :: d in blocked <==> start <= d <= end && IsBlocked(events[..k], restaurant, branch, d)
    {
      var e := events[k];
      BlockedByOneMore(events, k, restaurant, branch);
      // The query keeps only this restaurant's events that overlap the window.
      if e.restaurant == restaurant && e.endsOn >= start && e.startsOn <= end &&
         (e.branch.None? || e.branch == Some(branch)) {
        blocked := BlockRange(blocked, Max(e.startsOn, start), Min(e.endsOn, end));
      }
      k := k + 1;
    }
    assert events[..k] == events;
  }

  method BlockRange(before: set<int>, first: int, last: int) returns (blocked: set<int>)
    ensures forall d :: d in blocked <==> d in before || first <= d <= last
  {
    blocked := before;
    var day := first;
    while day <= last
      invariant forall d :: d in blocked <==> d in before || (first <= d < day && d <= last)
      invariant first <= day
    {
      blocked := blocked + {day};
      day := day + 1;
    }
  }

  lemma BlockedByOneMore(events: seq<Calendar.Event>, k: nat, restaurant: int, branch: int)
    requires k < |events|
    ensures forall d :: IsBlocked(events[..k + 1], restaurant, branch, d) <==>
                        IsBlocked(events[..k], restaurant, branch, d) || Blocks(events[k], restaurant, branch, d)
  {
    forall d
      ensures IsBlocked(events[..k + 1], restaurant, branch, d) <==>
              IsBlocked(events[..k], restaurant, branch, d) || Blocks(events[k], restaurant, branch, d)
    {
      if IsBlocked(events[..k], restaurant, branch, d) {
        var i :| 0 <= i < k && Blocks(events[..k][i], restaurant, branch, d);
        assert events[..k + 1][i] == events[..k][i];
      }
      if Blocks(events[k], restaurant, branch, d) {
        assert events[..k + 1][k] == events[k];
      }
    }
  }

  // --------------------------------------------------- what it all means

  /** The weighted raw ratio of a weekday: its ratio times how often it was seen. */
  function WeightedRatio(stats: Stats, daily: Daily, w: int): real
    requires stats.average > 0.0
  {
    RawRatio(stats, daily, w) * |Calendar.Where(stats.days, IsWeekday(w))| as real
  }

  function WeekdayTotal(days: seq<int>, daily: Daily, w: int): int
  {
    SumOf(Calendar.Where(days, IsWeekday(w)), UnitsOn(daily))
  }

  // What the last day adds to one weekday's total.
  lemma WeekdayTotalStep(days: seq<int>, daily: Daily, w: int)
    requires |days| > 0
    ensures WeekdayTotal(days, daily, w) == WeekdayTotal(days[..|days| - 1], daily, w) +
            (if Weekday(days[|days| - 1]) == w then UnitsOn(daily)(days[|days| - 1]) else 0)
  {
    SumAppend(Calendar.Where(days[..|days| - 1], IsWeekday(w)), days[|days| - 1], UnitsOn(daily));
  }

  /** `f(0)` to `f(upto)` added up. */
  function UpTo(f: nat -> int, upto: nat): int
  {
    f(upto) + if upto == 0 then 0 else UpTo(f, upto - 1)
  }

  lemma {:induction false} UpToStep(f: nat -> int, g: nat -> int, at: nat, x: int, upto: nat)
    requires forall w: nat :: w <= upto ==> f(w) == g(w) + (if at == w then x else 0)
    ensures UpTo(f, upto) == UpTo(g, upto) + (if at <= upto then x else 0)
  {
    if upto != 0 {
      UpToStep(f, g, at, x, upto - 1);
    }
  }

  lemma {:induction false} UpToNothing(f: nat -> int, upto: nat)
    requires forall w: nat :: w <= upto ==> f(w) == 0
    ensures UpTo(f, upto) == 0
  {
    if upto != 0 {
      UpToNothing(f, upto - 1);
    }
  }

  function TotalsBy(days: seq<int>, daily: Daily): nat -> int { (w: nat) => WeekdayTotal(days, daily, w) }

  /** The totals of the weekdays 0 to `upto`. */
  function TotalsUpTo(days: seq<int>, daily: Daily, upto: nat): int { UpTo(TotalsBy(days, daily), upto) }

  lemma {:induction false} WeekdayTotalsAddUp(days: seq<int>, daily: Daily)
    ensures TotalsUpTo(days, daily, 6) == SumOf(days, UnitsOn(daily))
  {
    if |days| == 0 {
      UpToNothing(TotalsBy(days, daily), 6);
    } else {
      var n := |days| - 1;
      WeekdayTotalsAddUp(days[..n], daily);
      forall w: nat | w <= 6
        ensures TotalsBy(days, daily)(w) == TotalsBy(days[..n], daily)(w) +
                (if Weekday(days[n]) == w then UnitsOn(daily)(days[n]) else 0)
      {
        WeekdayTotalStep(days, daily, w);
      }
      UpToStep(TotalsBy(days, daily), TotalsBy(days[..n], daily), Weekday(days[n]), UnitsOn(daily)(days[n]), 6);
    }
  }

  // (a / c) / (t / n) * c is a * n / t; with nothing seen, both sides are nothing.
  lemma WeightedRatioIsShare(stats: Stats, daily: Daily, w: int)
    requires stats.n == |stats.days| && stats.average == Average(stats.days, daily) && stats.average > 0.0
    ensures WeightedRatio(stats, daily, w) == WeekdayTotal(stats.days, daily, w) as real / stats.average
  {
    var same := Calendar.Where(stats.days, IsWeekday(w));
    var total := SumOf(same, UnitsOn(daily)) as real;
    if |same| == 0 {
      assert total == 0.0;
    } else {
      CancelCount(total, |same| as real, stats.average);
    }
  }

  lemma CancelCount(total: real, count: real, average: real)
    requires count > 0.0 && average > 0.0
    ensures total / count / average * count == total / average
  {
    var x := total / count;
    assert x * count == total;
    assert x / average * count == (x * count) / average;
  }

  lemma AddQuotients(a: real, b: real, d: real)
    requires d > 0.0
    ensures a / d + b / d == (a + b) / d
  {
  }

  lemma AverageTimesDays(total: real, n: real, average: real)
    requires n > 0.0 && average == total / n && average > 0.0
    ensures total / average == n
  {
    assert average * n == total;
  }

  /** The weighted raw ratios of the weekdays 0 to `upto`. */
  function RatiosUpTo(stats: Stats, daily: Daily, upto: nat): real
    requires stats.average > 0.0
  {
    WeightedRatio(stats, daily, upto) + if upto == 0 then 0.0 else RatiosUpTo(stats, daily, upto - 1)
  }

  lemma {:induction false} RatiosAreShares(stats: Stats, daily: Daily, upto: nat)
    requires stats.n == |stats.days| && stats.average == Average(stats.days, daily) && stats.average > 0.0
    ensures RatiosUpTo(stats, daily, upto) == TotalsUpTo(stats.days, daily, upto) as real / stats.average
  {
    WeightedRatioIsShare(stats, daily, upto);
    if upto != 0 {
      RatiosAreShares(stats, daily, upto - 1);
      AddQuotients(WeekdayTotal(stats.days, daily, upto) as real, TotalsUpTo(stats.days, daily, upto - 1) as real,
                   stats.average);
    }
  }

  /** The seven weekday ratios, weighted by how often each weekday was seen, sum to the day count. */
  lemma WeekdayRatiosBalance(inputs: Inputs, product: int)
    requires StatsOf(inputs, product).average > 0.0
    ensures var stats := StatsOf(inputs, product);
      RatiosUpTo(stats, DailyOf(inputs.history, product), 6) == stats.n as real
  {
    var stats, daily := StatsOf(inputs, product), DailyOf(inputs.history, product);
    RatiosAreShares(stats, daily, 6);
    WeekdayTotalsAddUp(stats.days, daily);
    AverageTimesDays(SumOf(stats.days, UnitsOn(daily)) as real, stats.n as real, stats.average);
  }

  lemma Distribute(c: real, x: real, y: real)
    ensures c * (x - y) == c * x - c * y
  {
  }

  lemma NonNegativeProduct(x: real, y: real)
    requires x >= 0.0 && y >= 0.0
    ensures x * y >= 0.0
  {
  }

  lemma PositiveProduct(x: real, y: real)
    requires x > 0.0 && y > 0.0
    ensures x * y > 0.0
  {
  }

  // A mix is its first part plus so much of the difference, or its second less so much of it.
  lemma MixIsOffset(w: real, c: real, a: real, b: real)
    requires c == 1.0 - w
    ensures Mix(w, a, b) == a + c * (b - a) && Mix(w, a, b) == b - w * (b - a)
  {
    Distribute(c, b, a);
    Distribute(w, b, a);
    assert c * b == b - w * b;
    assert c * a == a - w * a;
  }

  lemma MixIsBetween(w: real, a: real, b: real)
    requires 0.0 <= w <= 1.0
    ensures MinR(a, b) <= Mix(w, a, b) <= MaxR(a, b)
  {
    MixIsOffset(w, 1.0 - w, a, b);
    if a <= b {
      NonNegativeProduct(w, b - a);
      NonNegativeProduct(1.0 - w, b - a);
    } else {
      NonNegativeProduct(w, a - b);
      NonNegativeProduct(1.0 - w, a - b);
      Distribute(w, a, b);
      Distribute(w, b, a);
      Distribute(1.0 - w, a, b);
      Distribute(1.0 - w, b, a);
    }
  }

  lemma MixEnds(a: real, b: real)
    ensures Mix(1.0, a, b) == a && Mix(0.0, a, b) == b
  {
  }

  lemma ProperMixMisses(w: real, a: real, b: real)
    requires w < 1.0 && a != b
    ensures Mix(w, a, b) != a
  {
    MixIsOffset(w, 1.0 - w, a, b);
    if a < b {
      PositiveProduct(1.0 - w, b - a);
    } else {
      PositiveProduct(1.0 - w, a - b);
      Distribute(1.0 - w, a, b);
      Distribute(1.0 - w, b, a);
    }
  }

  /** The blend lies between assumption and observed average, and is the average alone from
      the 28th day on and not before, unless the two agree. */
  lemma BlendFades(n: nat, average: real, assumption: real)
    ensures MinR(average, assumption) <= Blend(n, average, assumption) <= MaxR(average, assumption)
    ensures n >= BASELINE_FULL_TRUST_DAYS ==> Blend(n, average, assumption) == average
    ensures n < BASELINE_FULL_TRUST_DAYS && average != assumption ==> Blend(n, average, assumption) != average
    ensures n == 0 ==> Blend(n, average, assumption) == assumption
  {
    MixIsBetween(Credibility(n), average, assumption);
    MixEnds(average, assumption);
    if n < BASELINE_FULL_TRUST_DAYS && average != assumption {
      ProperMixMisses(Credibility(n), average, assumption);
    }
  }

  /** The trust in a weekday's ratio is a share: never negative, never more than all. */
  lemma TrustIsShare(weeks: nat, average: real)
    requires average > 0.0
    ensures 0.0 <= Trust(weeks, average) <= 1.0
    ensures weeks == 0 ==> Trust(weeks, average) == 0.0
  {
    var seen, volume := weeks as real / (weeks + WEEKDAY_HALF_TRUST_COUNT) as real,
                        MinR(1.0, average / WEEKDAY_MIN_DAILY_VOLUME);
    FractionIsShare(weeks as real, WEEKDAY_HALF_TRUST_COUNT as real);
    NonNegativeProduct(seen, volume);
    NonNegativeProduct(1.0 - seen, volume);
    Distribute(volume, 1.0, seen);
  }

  lemma FractionIsShare(x: real, y: real)
    requires x >= 0.0 && y > 0.0
    ensures 0.0 <= x / (x + y) <= 1.0 && (x == 0.0 ==> x / (x + y) == 0.0)
  {
  }

  /** A ratio is only ever slid toward neutral: the result lies between 1 and the ratio. */
  lemma SlideIsBetween(trust: real, raw: real)
    requires 0.0 <= trust <= 1.0
    ensures MinR(1.0, raw) <= Slide(trust, raw) <= MaxR(1.0, raw)
  {
    MixIsOffset(1.0 - trust, trust, 1.0, raw);
    MixIsBetween(1.0 - trust, 1.0, raw);
  }

  lemma BandedIsInBand(x: real)
    ensures WEEKDAY_FLOOR <= Q(Banded(x)) <= WEEKDAY_CEILING
  {
    QFixesThousandths(500);
    QFixesThousandths(2000);
    QIsMonotone(WEEKDAY_FLOOR, Banded(x));
    QIsMonotone(Banded(x), WEEKDAY_CEILING);
  }

  /** The applied weekday factor stays inside its band. */
  lemma WeekdayFactorInBand(stats: Stats, daily: Daily, on: int)
    ensures WEEKDAY_FLOOR <= WeekdayEffect(stats, daily, on).factor <= WEEKDAY_CEILING
  {
    var same := Calendar.Where(stats.days, IsWeekday(Weekday(on)));
    if stats.n != 0 && stats.average > 0.0 && |same| != 0 {
      BandedIsInBand(Slide(Trust(|same|, stats.average), RawRatio(stats, daily, Weekday(on))));
    }
  }

  /** Counting refusals never lowers a baseline and at most doubles a positive one. */
  lemma UnmetLiftIsBounded(baseline: real, unmetPerDay: real)
    requires Q(baseline) == baseline
    ensures baseline <= WithUnmet(baseline, unmetPerDay).0
    ensures baseline > 0.0 ==> WithUnmet(baseline, unmetPerDay).0 <= MAX_UNMET_UPLIFT * baseline
    ensures unmetPerDay <= 0.0 ==> WithUnmet(baseline, unmetPerDay).0 == baseline
  {
    QIsIdempotent(baseline);
    if unmetPerDay > 0.0 && baseline > 0.0 {
      var lifted := MinR(baseline + unmetPerDay, baseline * MAX_UNMET_UPLIFT);
      QIsMonotone(baseline, lifted);
      QIsMonotone(lifted, 2.0 * baseline);
    } else if unmetPerDay > 0.0 {
      QIsMonotone(baseline, unmetPerDay);
    }
  }

  lemma BaselineIsRounded(stats: Stats, assumption: Option<real>)
    ensures Q(Baseline(stats, assumption).0) == Baseline(stats, assumption).0
  {
    QIsIdempotent(0.0);
    if assumption.Some? {
      QIsIdempotent(assumption.value);
      QIsIdempotent(Blend(stats.n, stats.average, assumption.value));
    }
    QIsIdempotent(stats.average);
  }

  lemma ShadowParts(n: nat, base: (real, real), assumption: Option<real>, weekday: WeekdayFactor, u: real, d: nat,
                    u': real, d': nat)
    ensures var one := Assemble(false, n, base, assumption, weekday, u, d);
      var two := Assemble(false, n, base, assumption, weekday, u', d');
      one.units == two.units && one.baseline == two.baseline == base.0 && one.weekdayFactor == two.weekdayFactor &&
      one.observedDays == two.observedDays && one.dataWeight == two.dataWeight && !one.unmetLive
  {
    assert Effective(false, base.0, WithUnmet(base.0, u).0) == base.0
           == Effective(false, base.0, WithUnmet(base.0, u').0);
  }

  /** In shadow, nothing that leaves this layer as the forecast depends on the refusals. */
  lemma ShadowIgnoresRefusals(inputs: Inputs, other: map<int, Daily>, product: int, on: int)
    ensures var with := Predicted(inputs, false, product, on);
      var without := Predicted(inputs.(unmetHistory := other), false, product, on);
      && with.units == without.units && with.baseline == without.baseline && with.weekdayFactor == without.weekdayFactor
      && with.observedDays == without.observedDays && with.dataWeight == without.dataWeight && !with.unmetLive
  {
    var stats, assumption := StatsOf(inputs, product), AssumptionOf(inputs, product);
    assert stats == StatsOf(inputs.(unmetHistory := other), product);
    var here, there := DailyOf(inputs.unmetHistory, product), DailyOf(other, product);
    ShadowParts(stats.n, Baseline(stats, assumption), assumption,
                WeekdayEffect(stats, DailyOf(inputs.history, product), on),
                Average(stats.days, here), RefusalDays(stats.days, here),
                Average(stats.days, there), RefusalDays(stats.days, there));
  }

  /** Switching the adjustment on makes the shadow figure the baseline, and changes nothing else behind it. */
  lemma SwitchMakesShadowLive(inputs: Inputs, product: int, on: int)
    ensures var off, live := Predicted(inputs, false, product, on), Predicted(inputs, true, product, on);
      && live.baseline == off.baselineWithUnmet == live.baselineWithUnmet
      && off.baseline <= live.baseline && (off.baseline > 0.0 ==> live.baseline <= MAX_UNMET_UPLIFT * off.baseline)
      && live.weekdayFactor == off.weekdayFactor
  {
    var stats := StatsOf(inputs, product);
    BaselineIsRounded(stats, AssumptionOf(inputs, product));
    UnmetLiftIsBounded(Baseline(stats, AssumptionOf(inputs, product)).0,
                       Average(stats.days, DailyOf(inputs.unmetHistory, product)));
  }

  // ------------------------------------------------------------- loading

  /** The rows of one branch in the learning window, for the products asked about. */
  function WindowRows(table: map<Rollup.Key, Rollup.Cell>, restaurant: int, branch: int, products: set<int>, first: int,
                      last: int): set<Rollup.Key>
  {
    set k | k in table && table[k].restaurant == restaurant && k.branch == branch && k.product in products &&
    first <= k.day <= last
  }

  // One product's history so far: a day for each row read, with its units and unmet units,
  // and the earliest day read.
  ghost predicate Read(table: map<Rollup.Key, Rollup.Cell>, done: set<Rollup.Key>, branch: int, product: int,
                       sold: Daily, unmet: Daily, seen: Option<int>)
    requires done <= table.Keys
  {
    && (forall d :: d in sold <==> Rollup.Key(branch, d, product) in done)
    && (forall d :: d in unmet <==> Rollup.Key(branch, d, product) in done)
    && (forall d :: d in sold ==> sold[d] == table[Rollup.Key(branch, d, product)].units)
    && (forall d :: d in unmet ==> unmet[d] == table[Rollup.Key(branch, d, product)].unmetUnits)
    && (seen.None? ==> forall d :: d !in sold)
    && (seen.Some? ==> seen.value in sold && forall d :: d in sold ==> seen.value <= d)
  }

  function SeenOf(firstSeen: map<int, int>, product: int): Option<int>
  {
    if product in firstSeen then Some(firstSeen[product]) else None
  }

  /** What loading must give for every product: exactly the rollup's rows of the window. */
  ghost predicate Loaded(table: map<Rollup.Key, Rollup.Cell>, done: set<Rollup.Key>, branch: int,
                         history: map<int, Daily>, unmetHistory: map<int, Daily>, firstSeen: map<int, int>)
    requires done <= table.Keys
  {
    forall p :: Read(table, done, branch, p, DailyOf(history, p), DailyOf(unmetHistory, p), SeenOf(firstSeen, p))
  }

  lemma ReadOneMore(table: map<Rollup.Key, Rollup.Cell>, done: set<Rollup.Key>, k: Rollup.Key, branch: int,
                    product: int, sold: Daily, unmet: Daily, seen: Option<int>)
    requires done <= table.Keys && k in table && k.branch == branch
    requires Read(table, done, branch, product, sold, unmet, seen)
    ensures k.product != product ==> Read(table, done + {k}, branch, product, sold, unmet, seen)
    ensures k.product == product ==>
              Read(table, done + {k}, branch, product, sold[k.day := table[k].units],
                   unmet[k.day := table[k].unmetUnits],
                   Some(Earlier(seen, k.day)))
  {
    assert k == Rollup.Key(k.branch, k.day, k.product);
  }

  // A row read is entered under its day in both histories, and may be the earliest yet.
  lemma LoadedOneMore(table: map<Rollup.Key, Rollup.Cell>, done: set<Rollup.Key>, k: Rollup.Key, branch: int,
                      history: map<int, Daily>, unmetHistory: map<int, Daily>, firstSeen: map<int, int>)
    requires done <= table.Keys && k in table && k.branch == branch
    requires Loaded(table, done, branch, history, unmetHistory, firstSeen)
    ensures Loaded(table, done + {k}, branch,
                   history[k.product := DailyOf(history, k.product)[k.day := table[k].units]],
                   unmetHistory[k.product := DailyOf(unmetHistory, k.product)[k.day := table[k].unmetUnits]],
                   firstSeen[k.product := Earlier(SeenOf(firstSeen, k.product), k.day)])
  {
    var p, seen := k.product, SeenOf(firstSeen, k.product);
    var history' := history[p := DailyOf(history, p)[k.day := table[k].units]];
    var unmet' := unmetHistory[p := DailyOf(unmetHistory, p)[k.day := table[k].unmetUnits]];
    var seen' := firstSeen[p := Earlier(seen, k.day)];
    forall q: int
      ensures Read(table, done + {k}, branch, q, DailyOf(history', q), DailyOf(unmet', q), SeenOf(seen', q))
    {
      ReadOneMore(table, done, k, branch, q, DailyOf(history, q), DailyOf(unmetHistory, q), SeenOf(firstSeen, q));
    }
  }

  function Earlier(seen: Option<int>, day: int): int
  {
    if seen.None? || day < seen.value then day else seen.value
  }

  method LoadHistory(table: map<Rollup.Key, Rollup.Cell>, restaurant: int, branch: int, products: set<int>, asOf: int)
    returns (history: map<int, Daily>, unmetHistory: map<int, Daily>, firstSeen: map<int, int>)
    ensures Loaded(table, WindowRows(table, restaurant, branch, products, asOf - HISTORY_WINDOW_DAYS, asOf - 1), branch,
                   history, unmetHistory, firstSeen)
  {
    history := map p | p in products :: map[];
    unmetHistory := map p | p in products :: map[];
    firstSeen := map[];
    var rows := WindowRows(table, restaurant, branch, products, asOf - HISTORY_WINDOW_DAYS, asOf - 1);
    var todo := rows;
    NothingLoaded(table, products, branch, history, unmetHistory, firstSeen);
    assert rows - todo == {};
    while todo != {}
      invariant todo <= rows
      invariant Loaded(table, rows - todo, branch, history, unmetHistory, firstSeen)
      decreases todo
    {
      var k :| k in todo;
      var p := k.product;
      LoadedOneMore(table, rows - todo, k, branch, history, unmetHistory, firstSeen);
      assert rows - (todo - {k}) == rows - todo + {k};
      firstSeen := firstSeen[p := Earlier(SeenOf(firstSeen, p), k.day)];
      history := history[p := DailyOf(history, p)[k.day := table[k].units]];
      unmetHistory := unmetHistory[p := DailyOf(unmetHistory, p)[k.day := table[k].unmetUnits]];
      todo := todo - {k};
    }
    assert rows - todo == rows;
  }

  lemma NothingLoaded(table: map<Rollup.Key, Rollup.Cell>, products: set<int>, branch: int,
                      history: map<int, Daily>, unmetHistory: map<int, Daily>, firstSeen: map<int, int>)
    requires firstSeen == map[] && history.Keys == products && unmetHistory.Keys == products
    requires forall p :: p in products ==> history[p] == map[] && unmetHistory[p] == map[]
    ensures Loaded(table, {}, branch, history, unmetHistory, firstSeen)
  {
  }

  /** A product as the engine and the catalogue read it. */
  datatype Product = Product(id: int, restaurant: int, sellable: bool, assumed: Option<real>)

  ghost predicate UniqueIds(products: seq<Product>)
  {
    forall i, j :: 0 <= i < j < |products| ==> products[i].id != products[j].id
  }

  predicate Asked(p: Product, restaurant: int, ids: set<int>)
  {
    p.id in ids && p.restaurant == restaurant
  }

  /** An entry for each product of the restaurant that was asked about, and for no other. */
  ghost predicate AssumptionsRead(products: seq<Product>, restaurant: int, ids: set<int>,
                                  assumptions: map<int, Option<real>>)
  {
    && (forall i :: 0 <= i < |products| && Asked(products[i], restaurant, ids) ==>
          products[i].id in assumptions && assumptions[products[i].id] == products[i].assumed)
    && (forall id :: id in assumptions ==>
         exists i :: 0 <= i < |products| && products[i].id == id && Asked(products[i], restaurant, ids))
  }

  method ReadAssumptions(products: seq<Product>, restaurant: int, ids: set<int>)
    returns (assumptions: map<int, Option<real>>)
    requires UniqueIds(products)
    ensures AssumptionsRead(products, restaurant, ids, assumptions)
  {
    assumptions := map[];
    var k := 0;
    while k < |products|
      invariant 0 <= k <= |products|
      invariant AssumptionsRead(products[..k], restaurant, ids, assumptions)
    {
      var p := products[k];
      AssumptionsGrow(products, k, restaurant, ids, assumptions);
      if Asked(p, restaurant, ids) {
        assumptions := assumptions[p.id := p.assumed];
      }
      k := k + 1;
    }
    assert products[..k] == products;
  }

  lemma AssumptionsGrow(products: seq<Product>, k: nat, restaurant: int, ids: set<int>,
                        assumptions: map<int, Option<real>>)
    requires k < |products| && UniqueIds(products) && AssumptionsRead(products[..k], restaurant, ids, assumptions)
    ensures AssumptionsRead(products[..k + 1], restaurant, ids,
                            if Asked(products[k], restaurant, ids)
                            then assumptions[products[k].id := products[k].assumed]
                            else assumptions)
  {
    var p := products[k];
    var more := if Asked(p, restaurant, ids) then assumptions[p.id := p.assumed] else assumptions;
    var before, upto := products[..k], products[..k + 1];
    assert upto[k] == p;
    forall id | id in more
      ensures exists i :: 0 <= i < |upto| && upto[i].id == id && Asked(upto[i], restaurant, ids)
    {
      if id in assumptions {
        var i :| 0 <= i < |before| && before[i].id == id && Asked(before[i], restaurant, ids);
        assert upto[i] == before[i];
      }
    }
  }

  ghost predicate NormalDaysRead(events: seq<Calendar.Event>, restaurant: int, branch: int, first: int, last: int,
                                 days: seq<int>)
  {
    && (forall d :: d in days <==> first <= d <= last && !IsBlocked(events, restaurant, branch, d))
    && (forall i, j :: 0 <= i < j < |days| ==> days[i] < days[j])
  }

  /** The tables behind one learning run. */
  datatype Tables = Tables(rollup: map<Rollup.Key, Rollup.Cell>, events: seq<Calendar.Event>, products: seq<Product>)

  /** Everything a snapshot holds is what the tables say: the rollup's rows of the window, the
      products' assumptions, and the days of the window that no event covers. */
  ghost predicate IsSnapshotOf(inputs: Inputs, db: Tables, restaurant: int, branch: int, ids: set<int>, asOf: int)
  {
    var first, last := asOf - HISTORY_WINDOW_DAYS, asOf - 1;
    && Loaded(db.rollup, WindowRows(db.rollup, restaurant, branch, ids, first, last), branch,
              inputs.history, inputs.unmetHistory, inputs.firstSeen)
    && AssumptionsRead(db.products, restaurant, ids, inputs.assumptions)
    && NormalDaysRead(db.events, restaurant, branch, first, last, inputs.normalDays)
  }

  /** A row of the branch for one of the products, from the 56 days before `asOf`. */
  ghost predicate IsLearned(db: Tables, restaurant: int, branch: int, ids: set<int>, asOf: int, product: int, day: int)
  {
    var k := Rollup.Key(branch, day, product);
    k in db.rollup && db.rollup[k].restaurant == restaurant && product in ids && asOf - 56 <= day <= asOf - 1
  }

  ghost predicate HasDay(history: map<int, Daily>, product: int, day: int)
  {
    product in history && day in history[product]
  }

  /** The histories have those rows and no other, and a product was first seen on the first of them. */
  ghost predicate HistoryMeans(inputs: Inputs, db: Tables, restaurant: int, branch: int, ids: set<int>, asOf: int)
  {
    && (forall p, d :: HasDay(inputs.history, p, d) <==> IsLearned(db, restaurant, branch, ids, asOf, p, d))
    && (forall p, d :: HasDay(inputs.unmetHistory, p, d) <==> IsLearned(db, restaurant, branch, ids, asOf, p, d))
    && (forall p, d :: HasDay(inputs.history, p, d) ==>
          inputs.history[p][d] == db.rollup[Rollup.Key(branch, d, p)].units)
    && (forall p, d :: HasDay(inputs.unmetHistory, p, d) ==>
          inputs.unmetHistory[p][d] == db.rollup[Rollup.Key(branch, d, p)].unmetUnits)
    && (forall p, d :: HasDay(inputs.history, p, d) ==> p in inputs.firstSeen && inputs.firstSeen[p] <= d)
    && (forall p :: p in inputs.firstSeen ==> HasDay(inputs.history, p, inputs.firstSeen[p]))
  }

  /** Every asked product of the restaurant has its assumption, and no other product has one. */
  ghost predicate AssumptionsMean(inputs: Inputs, db: Tables, restaurant: int, ids: set<int>)
  {
    && (forall p :: p in db.products && p.restaurant == restaurant && p.id in ids ==>
          p.id in inputs.assumptions && inputs.assumptions[p.id] == p.assumed)
    && (forall id :: id in inputs.assumptions ==>
          id in ids && exists p :: p in db.products && p.restaurant == restaurant && p.id == id)
  }

  /** The normal days are those of the 56 before `asOf` that no event of the branch reaches, in order. */
  ghost predicate NormalDaysMean(inputs: Inputs, db: Tables, restaurant: int, branch: int, asOf: int)
  {
    && (forall d :: d in inputs.normalDays <==>
          asOf - 56 <= d <= asOf - 1 &&
          forall e :: e in db.events ==> !Calendar.Reaches(e, restaurant, d, Some(branch)))
    && (forall i, j :: 0 <= i < j < |inputs.normalDays| ==> inputs.normalDays[i] < inputs.normalDays[j])
  }

  /** Everything learned, from the tables alone. */
  ghost predicate IsLearnedFrom(inputs: Inputs, db: Tables, restaurant: int, branch: int, ids: set<int>, asOf: int)
  {
    && HistoryMeans(inputs, db, restaurant, branch, ids, asOf) && AssumptionsMean(inputs, db, restaurant, ids)
    && NormalDaysMean(inputs, db, restaurant, branch, asOf)
  }

  lemma HistoryIsLearned(inputs: Inputs, db: Tables, restaurant: int, branch: int, ids: set<int>, asOf: int)
    requires IsSnapshotOf(inputs, db, restaurant, branch, ids, asOf)
    ensures HistoryMeans(inputs, db, restaurant, branch, ids, asOf)
  {
    var rows := WindowRows(db.rollup, restaurant, branch, ids, asOf - HISTORY_WINDOW_DAYS, asOf - 1);
    forall p, d
      ensures HasDay(inputs.history, p, d) <==> IsLearned(db, restaurant, branch, ids, asOf, p, d)
      ensures HasDay(inputs.unmetHistory, p, d) <==> IsLearned(db, restaurant, branch, ids, asOf, p, d)
      ensures HasDay(inputs.history, p, d) ==>
                inputs.history[p][d] == db.rollup[Rollup.Key(branch, d, p)].units &&
                p in inputs.firstSeen && inputs.firstSeen[p] <= d
      ensures HasDay(inputs.unmetHistory, p, d) ==>
                inputs.unmetHistory[p][d] == db.rollup[Rollup.Key(branch, d, p)].unmetUnits
    {
      ReadIsLearned(inputs, db, restaurant, branch, ids, asOf, rows, p, d);
    }
    forall p | p in inputs.firstSeen
      ensures HasDay(inputs.history, p, inputs.firstSeen[p])
    {
      ReadIsLearned(inputs, db, restaurant, branch, ids, asOf, rows, p, 0);
    }
  }

  lemma ReadIsLearned(inputs: Inputs, db: Tables, restaurant: int, branch: int, ids: set<int>, asOf: int,
                      rows: set<Rollup.Key>, p: int, d: int)
    requires rows == WindowRows(db.rollup, restaurant, branch, ids, asOf - HISTORY_WINDOW_DAYS, asOf - 1)
    requires Loaded(db.rollup, rows, branch, inputs.history, inputs.unmetHistory, inputs.firstSeen)
    ensures HasDay(inputs.history, p, d) <==> IsLearned(db, restaurant, branch, ids, asOf, p, d)
    ensures HasDay(inputs.unmetHistory, p, d) <==> IsLearned(db, restaurant, branch, ids, asOf, p, d)
    ensures HasDay(inputs.history, p, d) ==>
              inputs.history[p][d] == db.rollup[Rollup.Key(branch, d, p)].units &&
              p in inputs.firstSeen && inputs.firstSeen[p] <= d
    ensures HasDay(inputs.unmetHistory, p, d) ==>
              inputs.unmetHistory[p][d] == db.rollup[Rollup.Key(branch, d, p)].unmetUnits
    ensures p in inputs.firstSeen ==> HasDay(inputs.history, p, inputs.firstSeen[p])
  {
    assert Read(db.rollup, rows, branch, p, DailyOf(inputs.history, p), DailyOf(inputs.unmetHistory, p),
                SeenOf(inputs.firstSeen, p));
    assert Rollup.Key(branch, d, p) in rows <==> IsLearned(db, restaurant, branch, ids, asOf, p, d);
    assert HasDay(inputs.history, p, d) <==> d in DailyOf(inputs.history, p);
    assert HasDay(inputs.unmetHistory, p, d) <==> d in DailyOf(inputs.unmetHistory, p);
  }

  lemma AssumptionsAreLearned(inputs: Inputs, db: Tables, restaurant: int, ids: set<int>)
    requires AssumptionsRead(db.products, restaurant, ids, inputs.assumptions)
    ensures AssumptionsMean(inputs, db, restaurant, ids)
  {
    forall p | p in db.products && p.restaurant == restaurant && p.id in ids
      ensures p.id in inputs.assumptions && inputs.assumptions[p.id] == p.assumed
    {
      var i :| 0 <= i < |db.products| && db.products[i] == p;
      assert Asked(db.products[i], restaurant, ids);
    }
    forall id | id in inputs.assumptions
      ensures id in ids && exists p :: p in db.products && p.restaurant == restaurant && p.id == id
    {
      var i :| 0 <= i < |db.products| && db.products[i].id == id && Asked(db.products[i], restaurant, ids);
      assert db.products[i] in db.products;
    }
  }

  lemma NormalDaysAreLearned(inputs: Inputs, db: Tables, restaurant: int, branch: int, asOf: int)
    requires NormalDaysRead(db.events, restaurant, branch, asOf - HISTORY_WINDOW_DAYS, asOf - 1, inputs.normalDays)
    ensures NormalDaysMean(inputs, db, restaurant, branch, asOf)
  {
    forall d
      ensures IsBlocked(db.events, restaurant, branch, d) <==>
              exists e :: e in db.events && Calendar.Reaches(e, restaurant, d, Some(branch))
    {
      if IsBlocked(db.events, restaurant, branch, d) {
        var i :| 0 <= i < |db.events| && Blocks(db.events[i], restaurant, branch, d);
        assert db.events[i] in db.events && Calendar.Reaches(db.events[i], restaurant, d, Some(branch));
      }
      if e :| e in db.events && Calendar.Reaches(e, restaurant, d, Some(branch)) {
        var i :| 0 <= i < |db.events| && db.events[i] == e;
        assert Blocks(db.events[i], restaurant, branch, d);
      }
    }
  }

  /** A snapshot of the tables holds what they say, restated without any of the loader's own terms. */
  lemma SnapshotIsLearned(inputs: Inputs, db: Tables, restaurant: int, branch: int, ids: set<int>, asOf: int)
    requires IsSnapshotOf(inputs, db, restaurant, branch, ids, asOf)
    ensures IsLearnedFrom(inputs, db, restaurant, branch, ids, asOf)
  {
    HistoryIsLearned(inputs, db, restaurant, branch, ids, asOf);
    AssumptionsAreLearned(inputs, db, restaurant, ids);
    NormalDaysAreLearned(inputs, db, restaurant, branch, asOf);
  }

  /** `HeuristicEngine.load`. */
  method Load(db: Tables, restaurant: int, branch: int, ids: set<int>, asOf: int, useUnmet: bool)
    returns (snapshot: Snapshot)
    requires UniqueIds(db.products)
    ensures fresh(snapshot) && snapshot.Valid() && snapshot.useUnmet == useUnmet
    ensures IsSnapshotOf(snapshot.inputs, db, restaurant, branch, ids, asOf)
    ensures IsLearnedFrom(snapshot.inputs, db, restaurant, branch, ids, asOf)
  {
    var history, unmetHistory, firstSeen := LoadHistory(db.rollup, restaurant, branch, ids, asOf);
    var assumptions := ReadAssumptions(db.products, restaurant, ids);
    var normalDays := NormalDays(db.events, restaurant, branch, asOf - HISTORY_WINDOW_DAYS, asOf - 1);
    snapshot := new Snapshot(Inputs(history, unmetHistory, assumptions, normalDays, firstSeen), useUnmet);
    SnapshotIsLearned(snapshot.inputs, db, restaurant, branch, ids, asOf);
  }
}
