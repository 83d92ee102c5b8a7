/** The forecast: normal demand, the weekday pattern as the event allows it, and the event
    multiplier, merged and capped; and the run over a branch's window that preloads events. */
module Forecast {
  import opened Prelude
  import Calendar = EventCalendar
  import opened NormalDemand
  import Rollup

  const FORECAST_FLOOR_RATIO: real := 0.3
  const FORECAST_CEILING_RATIO: real := 5.0

  /** `quantize(Decimal("1"), ROUND_HALF_UP)`: ties away from zero. */
  function HalfUp(x: real): int
  {
    if x >= 0.0 then (x + 0.5).Floor else -((-x + 0.5).Floor)
  }

  function Times(x: real, y: real): real { x * y }

  /** Baseline to the capped figure, given how the day differs from normal. */
  function Merge(baseline: real, ratio: real): real
  {
    MaxR(Times(baseline, FORECAST_FLOOR_RATIO), MinR(Times(baseline, FORECAST_CEILING_RATIO), Times(baseline, ratio)))
  }

  function Clamp(ratio: real): real
  {
    MaxR(FORECAST_FLOOR_RATIO, MinR(FORECAST_CEILING_RATIO, ratio))
  }

  datatype Figures = Figures(
    units: real, suggestedUnits: int, baseline: real, weekdayFactor: real, weekdayApplied: real, eventMultiplier: real,
    rawUnits: real, wasCapped: bool, observedDays: nat, unmetDays: nat, unmetPerDay: real, baselineWithUnmet: real,
    unmetCapped: bool, unmetLive: bool, unitsIfCounted: real, suggestedUnitsIfCounted: int)

  /** One product, one day, with the events behind the number. */
  datatype Line = Line(product: int, on: int, figures: Figures, events: seq<Calendar.Applied>)

  /** How much of the learned weekday pattern the event lets through. */
  function WeekdayApplied(weight: real, weekdayFactor: real): real
  {
    Q(Slide(weight, weekdayFactor))
  }

  function RatioOf(normal: Demand, weight: real, multiplier: real): real
  {
    Times(WeekdayApplied(weight, normal.weekdayFactor), multiplier)
  }

  /** The finished number, and beside it the number if refusals were counted. */
  function Figure(normal: Demand, weight: real, multiplier: real): Figures
  {
    var ratio := RatioOf(normal, weight, multiplier);
    Filled(normal, WeekdayApplied(weight, normal.weekdayFactor), multiplier, Times(normal.baseline, ratio),
           Merge(normal.baseline, ratio), Merge(normal.baselineWithUnmet, ratio))
  }

  function Filled(normal: Demand, applied: real, multiplier: real, raw: real, capped: real, counted: real): Figures
  {
    Figures(Q(capped), HalfUp(capped), normal.baseline, normal.weekdayFactor, applied, Q(multiplier), Q(raw),
            capped != raw, normal.observedDays, normal.unmetDays, normal.unmetPerDay,
            normal.baselineWithUnmet, normal.unmetCapped, normal.unmetLive, Q(counted), HalfUp(counted))
  }

  function Combine(normal: Demand, factor: Calendar.Factor, product: int, on: int): Line
  {
    Line(product, on, Figure(normal, factor.weeklyFactorWeight, factor.multiplier), factor.applied)
  }

  // ----------------------------------------------------- cap and shadow

  lemma TimesIsMonotone(c: real, x: real, y: real)
    requires c >= 0.0 && x <= y
    ensures Times(c, x) <= Times(c, y) && Times(x, c) <= Times(y, c)
  {
    NonNegativeProduct(c, y - x);
    Distribute(c, y, x);
  }

  lemma TimesNegative(c: real, x: real, y: real)
    requires c < 0.0 && x < y
    ensures Times(c, y) < Times(c, x)
  {
    PositiveProduct(-c, y - x);
    Opposite(c, y - x);
    Distribute(c, y, x);
  }

  lemma Opposite(c: real, x: real)
    ensures -c * x == -(c * x)
  {
  }

  lemma MergeOfNonNegative(baseline: real, ratio: real)
    requires baseline >= 0.0
    ensures Merge(baseline, ratio) == Times(baseline, Clamp(ratio))
  {
    TimesIsMonotone(baseline, FORECAST_FLOOR_RATIO, FORECAST_CEILING_RATIO);
    if ratio <= FORECAST_FLOOR_RATIO {
      TimesIsMonotone(baseline, ratio, FORECAST_FLOOR_RATIO);
    } else if ratio >= FORECAST_CEILING_RATIO {
      TimesIsMonotone(baseline, FORECAST_CEILING_RATIO, ratio);
    } else {
      TimesIsMonotone(baseline, FORECAST_FLOOR_RATIO, ratio);
      TimesIsMonotone(baseline, ratio, FORECAST_CEILING_RATIO);
    }
  }

  lemma MergeOfNegative(baseline: real, ratio: real)
    requires baseline < 0.0
    ensures Merge(baseline, ratio) == Times(baseline, FORECAST_FLOOR_RATIO)
    ensures Times(baseline, FORECAST_FLOOR_RATIO) == Times(baseline, Clamp(ratio)) <==> ratio <= FORECAST_FLOOR_RATIO
  {
    TimesNegative(baseline, FORECAST_FLOOR_RATIO, FORECAST_CEILING_RATIO);
    if ratio > FORECAST_FLOOR_RATIO {
      TimesNegative(baseline, FORECAST_FLOOR_RATIO, Clamp(ratio));
    }
  }

  /** The merged figure is the baseline times the clamped ratio exactly when the baseline is
      not negative or the ratio is at or below the floor. */
  lemma MergeIsClampedBaseline(baseline: real, ratio: real)
    ensures Merge(baseline, ratio) == baseline * Clamp(ratio) <==> baseline >= 0.0 || ratio <= FORECAST_FLOOR_RATIO
    ensures baseline < 0.0 ==> Merge(baseline, ratio) == baseline * FORECAST_FLOOR_RATIO
  {
    if baseline >= 0.0 {
      MergeOfNonNegative(baseline, ratio);
    } else {
      MergeOfNegative(baseline, ratio);
    }
    assert Times(baseline, Clamp(ratio)) == baseline * Clamp(ratio);
  }

  lemma MergeIsMonotone(one: real, two: real, ratio: real)
    requires one <= two
    ensures Merge(one, ratio) <= Merge(two, ratio)
  {
    if one >= 0.0 {
      MergeOfNonNegative(one, ratio);
      MergeOfNonNegative(two, ratio);
      TimesIsMonotone(Clamp(ratio), one, two);
    } else if two >= 0.0 {
      MergeOfNegative(one, ratio);
      MergeOfNonNegative(two, ratio);
      NonNegativeProduct(two, Clamp(ratio));
    } else {
      MergeOfNegative(one, ratio);
      MergeOfNegative(two, ratio);
    }
  }

  /** A line says it was capped exactly when a positive baseline met a ratio outside the band. */
  lemma CappedMeansOutsideBand(normal: Demand, weight: real, multiplier: real)
    requires normal.baseline >= 0.0
    ensures var ratio := RatioOf(normal, weight, multiplier);
      Figure(normal, weight, multiplier).wasCapped <==>
      normal.baseline > 0.0 && !(FORECAST_FLOOR_RATIO <= ratio <= FORECAST_CEILING_RATIO)
  {
    var ratio := RatioOf(normal, weight, multiplier);
    MergeOfNonNegative(normal.baseline, ratio);
    if normal.baseline > 0.0 {
      if ratio < Clamp(ratio) {
        TimesIsStrict(normal.baseline, ratio, Clamp(ratio));
      } else if ratio > Clamp(ratio) {
        TimesIsStrict(normal.baseline, Clamp(ratio), ratio);
      }
    } else {
      TimesIsMonotone(0.0, ratio, ratio);
      assert Times(normal.baseline, ratio) == 0.0 && Times(normal.baseline, Clamp(ratio)) == 0.0;
    }
  }

  lemma TimesIsStrict(c: real, x: real, y: real)
    requires c > 0.0 && x < y
    ensures Times(c, x) < Times(c, y)
  {
    PositiveProduct(c, y - x);
    Distribute(c, y, x);
  }

  /** Whatever the multipliers, the figure stays between 0.30 and 5.00 times the baseline. */
  lemma FigureStaysInBand(normal: Demand, weight: real, multiplier: real)
    requires normal.baseline >= 0.0
    ensures Q(Times(normal.baseline, FORECAST_FLOOR_RATIO)) <= Figure(normal, weight, multiplier).units
         <= Q(Times(normal.baseline, FORECAST_CEILING_RATIO))
  {
    var ratio := RatioOf(normal, weight, multiplier);
    MergeOfNonNegative(normal.baseline, ratio);
    TimesIsMonotone(normal.baseline, FORECAST_FLOOR_RATIO, Clamp(ratio));
    TimesIsMonotone(normal.baseline, Clamp(ratio), FORECAST_CEILING_RATIO);
    QIsMonotone(Times(normal.baseline, FORECAST_FLOOR_RATIO), Merge(normal.baseline, ratio));
    QIsMonotone(Merge(normal.baseline, ratio), Times(normal.baseline, FORECAST_CEILING_RATIO));
  }

  /** The event's dial: at weight 1 the weekday pattern applies in full, at 0 not at all, and
      in between it is never moved past neutral or past itself. */
  lemma DialSpansNeutralToFull(weight: real, k: int)
    requires 0.0 <= weight <= 1.0
    ensures var factor := k as real / 1000.0;
      && WeekdayApplied(1.0, factor) == factor && WeekdayApplied(0.0, factor) == 1.0
      && MinR(1.0, factor) <= WeekdayApplied(weight, factor) <= MaxR(1.0, factor)
  {
    var factor := k as real / 1000.0;
    QFixesThousandths(k);
    QFixesThousandths(1000);
    SlideIsBetween(weight, factor);
    QIsMonotone(MinR(1.0, factor), Slide(weight, factor));
    QIsMonotone(Slide(weight, factor), MaxR(1.0, factor));
  }

  lemma HalfUpIsMonotone(x: real, y: real)
    requires x <= y
    ensures HalfUp(x) <= HalfUp(y)
  {
  }

  /** The comparison figure is never below the forecast. */
  lemma IfCountedNeverBelow(inputs: Inputs, useUnmet: bool, weight: real, multiplier: real, product: int, on: int)
    ensures var f := Figure(Predicted(inputs, useUnmet, product, on), weight, multiplier);
      f.units <= f.unitsIfCounted && f.suggestedUnits <= f.suggestedUnitsIfCounted
  {
    SwitchMakesShadowLive(inputs, product, on);
    var normal := Predicted(inputs, useUnmet, product, on);
    FiguresAreOrdered(normal, weight, multiplier);
  }

  lemma FiguresAreOrdered(normal: Demand, weight: real, multiplier: real)
    requires normal.baseline <= normal.baselineWithUnmet
    ensures var f := Figure(normal, weight, multiplier);
      f.units <= f.unitsIfCounted && f.suggestedUnits <= f.suggestedUnitsIfCounted
  {
    var ratio := RatioOf(normal, weight, multiplier);
    MergeIsMonotone(normal.baseline, normal.baselineWithUnmet, ratio);
    QIsMonotone(Merge(normal.baseline, ratio), Merge(normal.baselineWithUnmet, ratio));
    HalfUpIsMonotone(Merge(normal.baseline, ratio), Merge(normal.baselineWithUnmet, ratio));
  }

  /** What is shown as "if counted" while the switch is off is what the forecast becomes
      when the switch is turned on; from then on the two figures coincide. */
  lemma IfCountedIsWhatSwitchingGives(inputs: Inputs, weight: real, multiplier: real, product: int, on: int)
    ensures var off, live := Figure(Predicted(inputs, false, product, on), weight, multiplier),
                             Figure(Predicted(inputs, true, product, on), weight, multiplier);
      && live.units == off.unitsIfCounted == live.unitsIfCounted
      && live.suggestedUnits == off.suggestedUnitsIfCounted == live.suggestedUnitsIfCounted
  {
    SwitchMakesShadowLive(inputs, product, on);
    SameBaselineSameFigure(Predicted(inputs, false, product, on), Predicted(inputs, true, product, on), weight,
                           multiplier);
  }

  lemma SameBaselineSameFigure(off: Demand, live: Demand, weight: real, multiplier: real)
    requires live.baseline == off.baselineWithUnmet == live.baselineWithUnmet && live.weekdayFactor == off.weekdayFactor
    ensures var a, b := Figure(off, weight, multiplier), Figure(live, weight, multiplier);
      b.units == a.unitsIfCounted == b.unitsIfCounted &&
      b.suggestedUnits == a.suggestedUnitsIfCounted == b.suggestedUnitsIfCounted
  {
    var ratio := RatioOf(off, weight, multiplier);
    assert ratio == RatioOf(live, weight, multiplier);
  }

  // -------------------------------------------------- the run over a branch

  /** What the daily lookups read: the tables, whose branch, and each product's tags. */
  datatype Source = Source(events: seq<Calendar.Event>, overrides: Calendar.Overrides, restaurant: int, branch: int,
                           tags: map<int, set<Calendar.Tag>>)

  function TagsOf(tags: map<int, set<Calendar.Tag>>, product: int): set<Calendar.Tag>
  {
    if product in tags then tags[product] else {}
  }

  function DailyFactorOf(source: Source, product: int, on: int): Calendar.Factor
  {
    Calendar.DailyFactor(source.events, source.overrides, source.restaurant, on, TagsOf(source.tags, product),
                         Some(product), Some(source.branch))
  }

  /** One product on one day by the single-day lookups alone. */
  function DirectLine(inputs: Inputs, useUnmet: bool, source: Source, product: int, on: int): Line
  {
    Combine(Predicted(inputs, useUnmet, product, on), DailyFactorOf(source, product, on), product, on)
  }

  /** The same line, up to the order in which its events are listed. */
  ghost predicate Agrees(one: Line, two: Line)
  {
    one.product == two.product && one.on == two.on && one.figures == two.figures &&
    multiset(one.events) == multiset(two.events)
  }

  lemma SameFactorAgrees(normal: Demand, f: Calendar.Factor, g: Calendar.Factor, product: int, on: int)
    requires Calendar.SameFactor(f, g)
    ensures Agrees(Combine(normal, f, product, on), Combine(normal, g, product, on))
  {
  }

  /** The events preloaded for a window, in whatever order the query returned them. */
  ghost predicate Preloaded(window: seq<Calendar.Event>, source: Source, first: int, last: int)
  {
    multiset(window) == multiset(Calendar.Upcoming(source.events, source.restaurant, first, last, Some(source.branch)))
  }

  function Row(day: int, products: seq<int>): seq<(int, int)>
  {
    seq(|products|, i requires 0 <= i < |products| => (day, products[i]))
  }

  /** Every day of the window, oldest first, with every product in catalogue order. */
  function Grid(first: int, last: int, products: seq<int>): seq<(int, int)>
    decreases Max(0, last + 1 - first)
  {
    if last < first then [] else Grid(first, last - 1, products) + Row(last, products)
  }

  function KeyOf(line: Line): (int, int) { (line.on, line.product) }

  /** What to target for each (day, product). */
  type LineFor = (int, int) -> Line

  /** Lines for exactly these days and products, in this order, each as wanted. */
  ghost predicate Covers(lines: seq<Line>, keys: seq<(int, int)>, target: LineFor)
  {
    |lines| == |keys| &&
    forall k :: 0 <= k < |lines| ==> KeyOf(lines[k]) == keys[k] && Agrees(lines[k], target(keys[k].0, keys[k].1))
  }

  lemma CoversConcat(a: seq<Line>, aKeys: seq<(int, int)>, b: seq<Line>, bKeys: seq<(int, int)>, target: LineFor)
    requires Covers(a, aKeys, target) && Covers(b, bKeys, target)
    ensures Covers(a + b, aKeys + bKeys, target)
  {
  }

  lemma RowGrows(day: int, products: seq<int>, i: nat)
    requires i < |products|
    ensures Row(day, products[..i + 1]) == Row(day, products[..i]) + [(day, products[i])]
  {
  }

  /** The daily lookups, as the lines wanted. */
  function Direct(inputs: Inputs, useUnmet: bool, source: Source): LineFor
  {
    (on: int, product: int) => DirectLine(inputs, useUnmet, source, product, on)
  }

  // Lines wanted that agree with the daily lookups wherever those are looked at.
  ghost predicate IsDirect(target: LineFor, inputs: Inputs, useUnmet: bool, source: Source)
  {
    forall on, product {:trigger DirectLine(inputs, useUnmet, source, product, on)} ::
      target(on, product) == DirectLine(inputs, useUnmet, source, product, on)
  }

  // --------------------------------------------- what a line is, outright

  /** The nearest whole number, of two equally near the one further from zero. */
  ghost predicate IsWhole(n: int, x: real)
  {
    if x >= 0.0 then -0.5 < n as real - x <= 0.5 else -0.5 <= n as real - x < 0.5
  }

  lemma HalfUpIsNearest(x: real)
    ensures IsWhole(HalfUp(x), x)
  {
  }

  /** The baseline times the day's ratio held to [0.30, 5.00]; a negative baseline would be left at its floor. */
  ghost function Finished(baseline: real, ratio: real): real
  {
    baseline * if baseline >= 0.0 then Held(ratio, 0.3, 5.0) else 0.3
  }

  lemma MergeFinishes(baseline: real, ratio: real)
    ensures Merge(baseline, ratio) == Finished(baseline, ratio)
  {
    MergeIsClampedBaseline(baseline, ratio);
    assert Clamp(ratio) == Held(ratio, 0.3, 5.0);
  }

  /** A finished number, before and after rounding. */
  ghost predicate IsFinished(units: real, suggested: int, baseline: real, ratio: real)
  {
    units == Q(Finished(baseline, ratio)) && IsWhole(suggested, Finished(baseline, ratio))
  }

  /** The product's own prediction for the day, carried over unchanged. */
  ghost predicate CarriesOver(f: Figures, normal: Demand)
  {
    && f.baseline == normal.baseline && f.weekdayFactor == normal.weekdayFactor && f.observedDays == normal.observedDays
    && f.unmetDays == normal.unmetDays && f.unmetPerDay == normal.unmetPerDay
    && f.baselineWithUnmet == normal.baselineWithUnmet && f.unmetCapped == normal.unmetCapped
    && f.unmetLive == normal.unmetLive
  }

  ghost predicate IsRaw(raw: real, wasCapped: bool, baseline: real, ratio: real)
  {
    raw == Q(baseline * ratio) && (wasCapped <==> Finished(baseline, ratio) != baseline * ratio)
  }

  /** The weekday pattern as far as the weight lets it through, times the multiplier, is the day's
      ratio, and every figure is finished with that one ratio. */
  ghost predicate AreFigures(f: Figures, weight: real, multiplier: real)
  {
    f.eventMultiplier == Q(multiplier) && IsLetThrough(f.weekdayApplied, weight, f.weekdayFactor) &&
    exists ratio :: ratio == f.weekdayApplied * multiplier && AreFinished(f, ratio)
  }

  ghost predicate IsLetThrough(applied: real, weight: real, weekdayFactor: real)
  {
    applied == Q(1.0 + weight * (weekdayFactor - 1.0))
  }

  ghost predicate AreFinished(f: Figures, ratio: real)
  {
    && IsRaw(f.rawUnits, f.wasCapped, f.baseline, ratio)
    && IsFinished(f.units, f.suggestedUnits, f.baseline, ratio)
    && IsFinished(f.unitsIfCounted, f.suggestedUnitsIfCounted, f.baselineWithUnmet, ratio)
  }

  /** The events behind a line: exactly those that reach the day and move the product. */
  ghost predicate AreLineParts(parts: multiset<Calendar.Applied>, source: Source, product: int, on: int)
  {
    var tags := if product in source.tags then source.tags[product] else {};
    && Calendar.AreDayParts(parts, source.events, source.overrides, source.restaurant, on, tags, product,
                            Some(source.branch))
    && |parts| == Calendar.DayMovers(source.events, source.overrides, source.restaurant, on, tags, product,
                                     Some(source.branch))
  }

  /** A line from the tables: the product's prediction, the lowest weekday weight of the day's
      events, and the product of the multipliers it lists. */
  ghost predicate LineMeans(line: Line, inputs: Inputs, useUnmet: bool, source: Source)
  {
    && AreLineParts(multiset(line.events), source, line.product, line.on)
    && HasPrediction(line.figures, inputs, useUnmet, line.product, line.on)
    && HasFigures(line.figures, source, line.on, Calendar.Product(line.events))
  }

  ghost predicate HasPrediction(f: Figures, inputs: Inputs, useUnmet: bool, product: int, on: int)
  {
    exists normal :: IsPrediction(inputs, useUnmet, product, on, normal) && CarriesOver(f, normal)
  }

  ghost predicate HasFigures(f: Figures, source: Source, on: int, multiplier: real)
  {
    exists weight ::
      Calendar.IsDayWeight(weight, source.events, source.restaurant, on, Some(source.branch)) &&
      AreFigures(f, weight, multiplier)
  }

  lemma MergeIsFinished(baseline: real, ratio: real)
    ensures IsFinished(Q(Merge(baseline, ratio)), HalfUp(Merge(baseline, ratio)), baseline, ratio)
    ensures IsRaw(Q(Times(baseline, ratio)), Merge(baseline, ratio) != Times(baseline, ratio), baseline, ratio)
  {
    MergeFinishes(baseline, ratio);
    HalfUpIsNearest(Merge(baseline, ratio));
  }

  lemma LetThrough(weight: real, weekdayFactor: real)
    ensures IsLetThrough(WeekdayApplied(weight, weekdayFactor), weight, weekdayFactor)
  {
  }

  lemma RatioMeans(normal: Demand, weight: real, multiplier: real)
    ensures RatioOf(normal, weight, multiplier) == WeekdayApplied(weight, normal.weekdayFactor) * multiplier
  {
  }

  lemma FilledMeans(normal: Demand, applied: real, multiplier: real, raw: real, capped: real, counted: real,
                    ratio: real)
    requires IsRaw(Q(raw), capped != raw, normal.baseline, ratio)
    requires IsFinished(Q(capped), HalfUp(capped), normal.baseline, ratio)
    requires IsFinished(Q(counted), HalfUp(counted), normal.baselineWithUnmet, ratio)
    ensures var f := Filled(normal, applied, multiplier, raw, capped, counted);
      && CarriesOver(f, normal) && f.weekdayApplied == applied && f.eventMultiplier == Q(multiplier)
      && AreFinished(f, ratio)
  {
  }

  lemma FigureIsFilled(normal: Demand, weight: real, multiplier: real, applied: real, ratio: real)
    requires applied == WeekdayApplied(weight, normal.weekdayFactor) && ratio == RatioOf(normal, weight, multiplier)
    ensures Figure(normal, weight, multiplier)
         == Filled(normal, applied, multiplier, Times(normal.baseline, ratio), Merge(normal.baseline, ratio),
                   Merge(normal.baselineWithUnmet, ratio))
  {
  }

  lemma FiguresFrom(f: Figures, weight: real, multiplier: real, applied: real, ratio: real)
    requires f.weekdayApplied == applied && f.eventMultiplier == Q(multiplier) && AreFinished(f, ratio)
    requires IsLetThrough(applied, weight, f.weekdayFactor) && ratio == applied * multiplier
    ensures AreFigures(f, weight, multiplier)
  {
  }

  lemma FigureMeans(normal: Demand, weight: real, multiplier: real) returns (f: Figures)
    ensures f == Figure(normal, weight, multiplier) && AreFigures(f, weight, multiplier) && CarriesOver(f, normal)
  {
    var applied, ratio := WeekdayApplied(weight, normal.weekdayFactor), RatioOf(normal, weight, multiplier);
    f := FinishedMeans(normal, applied, multiplier, ratio);
    FigureIsFilled(normal, weight, multiplier, applied, ratio);
    FiguresOn(f, normal, weight, multiplier);
  }

  lemma FiguresOn(f: Figures, normal: Demand, weight: real, multiplier: real)
    requires f.weekdayFactor == normal.weekdayFactor && f.eventMultiplier == Q(multiplier)
    requires f.weekdayApplied == WeekdayApplied(weight, normal.weekdayFactor)
    requires AreFinished(f, RatioOf(normal, weight, multiplier))
    ensures AreFigures(f, weight, multiplier)
  {
    LetThrough(weight, f.weekdayFactor);
    RatioMeans(normal, weight, multiplier);
    FiguresFrom(f, weight, multiplier, f.weekdayApplied, RatioOf(normal, weight, multiplier));
  }

  lemma FinishedMeans(normal: Demand, applied: real, multiplier: real, ratio: real) returns (f: Figures)
    ensures f == Filled(normal, applied, multiplier, Times(normal.baseline, ratio), Merge(normal.baseline, ratio),
                        Merge(normal.baselineWithUnmet, ratio))
    ensures
      && CarriesOver(f, normal) && f.weekdayApplied == applied && f.eventMultiplier == Q(multiplier)
      && AreFinished(f, ratio)
  {
    MergeIsFinished(normal.baseline, ratio);
    MergeIsFinished(normal.baselineWithUnmet, ratio);
    f := Filled(normal, applied, multiplier, Times(normal.baseline, ratio), Merge(normal.baseline, ratio),
                Merge(normal.baselineWithUnmet, ratio));
    FilledMeans(normal, applied, multiplier, Times(normal.baseline, ratio), Merge(normal.baseline, ratio),
                Merge(normal.baselineWithUnmet, ratio), ratio);
  }

  lemma DirectLineMeans(inputs: Inputs, useUnmet: bool, source: Source, product: int, on: int)
    ensures LineMeans(DirectLine(inputs, useUnmet, source, product, on), inputs, useUnmet, source)
  {
    var normal, factor := Predicted(inputs, useUnmet, product, on), DailyFactorOf(source, product, on);
    var tags, branch := TagsOf(source.tags, product), Some(source.branch);
    var active := Calendar.ActiveEvents(source.events, source.restaurant, on, branch);
    PredictionMeans(inputs, useUnmet, product, on);
    Calendar.DailyWeightIsLowest(source.events, source.overrides, source.restaurant, on, tags, product, branch);
    Calendar.DailyPartsAreExact(source.events, source.overrides, source.restaurant, on, tags, product, branch);
    Calendar.DailyPartsAreCounted(source.events, source.overrides, source.restaurant, on, tags, product, branch);
    Calendar.MultiplierIsProduct(active, tags, Some(product),
                                 Calendar.ProductOverrides(source.overrides, Calendar.EventIds(active)));
    var figures := FigureMeans(normal, factor.weeklyFactorWeight, factor.multiplier);
    assert figures == DirectLine(inputs, useUnmet, source, product, on).figures;
  }

  // Nothing in it depends on the order in which the events are listed.
  lemma AgreeingLineMeans(one: Line, two: Line, inputs: Inputs, useUnmet: bool, source: Source)
    requires Agrees(one, two) && LineMeans(two, inputs, useUnmet, source)
    ensures LineMeans(one, inputs, useUnmet, source)
  {
    Calendar.ProductIgnoresOrder(one.events, two.events);
  }

  /** Every line of the run is what its definition says. */
  lemma LinesMean(lines: seq<Line>, keys: seq<(int, int)>, inputs: Inputs, useUnmet: bool, source: Source)
    requires Covers(lines, keys, Direct(inputs, useUnmet, source))
    ensures forall line :: line in lines ==> LineMeans(line, inputs, useUnmet, source)
  {
    forall line | line in lines
      ensures LineMeans(line, inputs, useUnmet, source)
    {
      var k :| 0 <= k < |lines| && lines[k] == line;
      DirectLineMeans(inputs, useUnmet, source, keys[k].1, keys[k].0);
      AgreeingLineMeans(line, Direct(inputs, useUnmet, source)(keys[k].0, keys[k].1), inputs, useUnmet, source);
    }
  }

  // -------------------------------------------------------- the catalogue

  ghost predicate HasHistory(rollup: map<Rollup.Key, Rollup.Cell>, restaurant: int, branch: int, product: int)
  {
    exists k :: k in rollup && rollup[k].restaurant == restaurant && k.branch == branch && k.product == product
  }

  /** Products with any rollup row at the branch. */
  function WithHistory(rollup: map<Rollup.Key, Rollup.Cell>, restaurant: int, branch: int): (ids: set<int>)
    ensures forall p :: p in ids <==> HasHistory(rollup, restaurant, branch, p)
  {
    set k | k in rollup && rollup[k].restaurant == restaurant && k.branch == branch :: k.product
  }

  /** Sellable, with history or an assumption unless all are wanted, and asked for. */
  function WorthForecasting(history: set<int>, restaurant: int, includeAll: bool,
                            wanted: Option<set<int>>): Product -> bool
  {
    (p: Product) =>
      && p.restaurant == restaurant && p.sellable
      && (includeAll || p.id in history || p.assumed.Some?)
      && (wanted.None? || p.id in wanted.value)
  }

  function IdsOf(products: seq<Product>): (ids: seq<int>)
    ensures |ids| == |products| && forall k :: 0 <= k < |ids| ==> ids[k] == products[k].id
  {
    seq(|products|, i requires 0 <= i < |products| => products[i].id)
  }

  /** The products worth forecasting, in the order the query lists them. */
  function CatalogueOf(db: Tables, restaurant: int, branch: int, includeAll: bool, wanted: Option<set<int>>): seq<int>
  {
    var worth := WorthForecasting(WithHistory(db.rollup, restaurant, branch), restaurant, includeAll, wanted);
    IdsOf(Calendar.Where(db.products, worth))
  }

  /** A product is in the catalogue exactly when it is sellable there, has history at the branch
      or an assumption unless all are included, and was asked for. */
  lemma CatalogueIsExact(db: Tables, restaurant: int, branch: int, includeAll: bool, wanted: Option<set<int>>,
                         p: Product)
    requires UniqueIds(db.products) && p in db.products
    ensures p.id in CatalogueOf(db, restaurant, branch, includeAll, wanted) <==>
            && p.restaurant == restaurant && p.sellable
            && (includeAll || HasHistory(db.rollup, restaurant, branch, p.id) || p.assumed.Some?)
            && (wanted.None? || p.id in wanted.value)
  {
    var worth := WorthForecasting(WithHistory(db.rollup, restaurant, branch), restaurant, includeAll, wanted);
    var kept := Calendar.Where(db.products, worth);
    Calendar.WhereMember(db.products, worth, p);
    if p.id in IdsOf(kept) {
      var k :| 0 <= k < |kept| && kept[k].id == p.id;
      Calendar.WhereMember(db.products, worth, kept[k]);
    }
    if p in kept {
      var k :| 0 <= k < |kept| && kept[k] == p;
      assert IdsOf(kept)[k] == p.id;
    }
  }

  /** The catalogue lists its products in the order the query returned them, none twice. */
  lemma CatalogueKeepsOrder(db: Tables, restaurant: int, branch: int, includeAll: bool, wanted: Option<set<int>>)
    returns (index: seq<nat>)
    ensures var ids := CatalogueOf(db, restaurant, branch, includeAll, wanted);
      && |index| == |ids|
      && (forall k :: 0 <= k < |ids| ==> index[k] < |db.products| && ids[k] == db.products[index[k]].id)
      && (forall j, k :: 0 <= j < k < |index| ==> index[j] < index[k])
  {
    var worth := WorthForecasting(WithHistory(db.rollup, restaurant, branch), restaurant, includeAll, wanted);
    index := Calendar.WhereKeepsOrder(db.products, worth);
  }

  /** The forecast of a branch from the tables alone: the catalogue, one snapshot learned as of
      `asOf`, the events and overrides preloaded once. Every day of the window has, in order, one
      line for each product of the catalogue, and it is the line the daily lookups would give. */
  method ForBranch(db: Tables, source: Source, start: int, end: int, includeAll: bool, wanted: Option<set<int>>,
                   asOf: int, useUnmet: bool, window: seq<Calendar.Event>)
    returns (out: seq<Line>, ghost inputs: Inputs)
    requires UniqueIds(db.products) && source.events == db.events
    requires Preloaded(window, source, Min(start, end), Max(start, end))
    ensures var ids := CatalogueOf(db, source.restaurant, source.branch, includeAll, wanted);
      && (|ids| > 0 ==> IsSnapshotOf(inputs, db, source.restaurant, source.branch, Ids(ids), asOf))
      && (|ids| > 0 ==> IsLearnedFrom(inputs, db, source.restaurant, source.branch, Ids(ids), asOf))
      && Covers(out, Grid(Min(start, end), Max(start, end), ids), Direct(inputs, useUnmet, source))
    ensures forall line :: line in out ==> LineMeans(line, inputs, useUnmet, source)
  {
    var ids := CatalogueOf(db, source.restaurant, source.branch, includeAll, wanted);
    if |ids| == 0 {
      inputs := Inputs(map[], map[], map[], [], map[]);
      NothingToCover(Min(start, end), Max(start, end), Direct(inputs, useUnmet, source));
      return [], inputs;
    }
    var snapshot := Load(db, source.restaurant, source.branch, Ids(ids), asOf, useUnmet);
    inputs := snapshot.inputs;
    out := ForWindow(snapshot, source, start, end, ids, window);
    LinesMean(out, Grid(Min(start, end), Max(start, end), ids), inputs, useUnmet, source);
  }

  lemma {:induction false} EmptyGrid(first: int, last: int)
    ensures Grid(first, last, []) == []
    decreases Max(0, last + 1 - first)
  {
    if first <= last {
      EmptyGrid(first, last - 1);
    }
  }

  lemma NothingToCover(first: int, last: int, target: LineFor)
    ensures Covers([], Grid(first, last, []), target)
  {
    EmptyGrid(first, last);
  }

  function Ids(ids: seq<int>): set<int> { set id | id in ids }

  /** The loaded part of the run. */
  method ForWindow(snapshot: Snapshot, source: Source, start: int, end: int, products: seq<int>,
                   window: seq<Calendar.Event>)
    returns (out: seq<Line>)
    requires snapshot.Valid() && Preloaded(window, source, Min(start, end), Max(start, end))
    modifies snapshot
    ensures snapshot.Valid()
    ensures Covers(out, Grid(Min(start, end), Max(start, end), products),
                   Direct(snapshot.inputs, snapshot.useUnmet, source))
  {
    var overrides := Calendar.ProductOverrides(source.overrides, Calendar.EventIds(window));
    ghost var target := Direct(snapshot.inputs, snapshot.useUnmet, source);
    if end < start {
      out := ForDays(snapshot, source, end, start, products, window, overrides, target);
    } else {
      out := ForDays(snapshot, source, start, end, products, window, overrides, target);
    }
  }

  method ForDays(snapshot: Snapshot, source: Source, first: int, last: int, products: seq<int>,
                 window: seq<Calendar.Event>, overrides: Calendar.Overrides, ghost target: LineFor)
    returns (out: seq<Line>)
    requires snapshot.Valid() && first <= last && Preloaded(window, source, first, last)
    requires overrides == Calendar.ProductOverrides(source.overrides, Calendar.EventIds(window))
    requires IsDirect(target, snapshot.inputs, snapshot.useUnmet, source)
    modifies snapshot
    ensures snapshot.Valid() && Covers(out, Grid(first, last, products), target)
  {
    out := [];
    var day := first;
    while day <= last
      invariant first <= day <= last + 1 && snapshot.Valid()
      invariant Covers(out, Grid(first, day - 1, products), target)
    {
      var lines := ForDay(snapshot, source, first, last, day, products, window, overrides, target);
      CoversConcat(out, Grid(first, day - 1, products), lines, Row(day, products), target);
      out := out + lines;
      day := day + 1;
    }
  }

  method ForDay(snapshot: Snapshot, source: Source, ghost first: int, ghost last: int, day: int, products: seq<int>,
                window: seq<Calendar.Event>, overrides: Calendar.Overrides, ghost target: LineFor)
    returns (lines: seq<Line>)
    requires snapshot.Valid() && first <= day <= last && Preloaded(window, source, first, last)
    requires overrides == Calendar.ProductOverrides(source.overrides, Calendar.EventIds(window))
    requires IsDirect(target, snapshot.inputs, snapshot.useUnmet, source)
    modifies snapshot
    ensures snapshot.Valid() && Covers(lines, Row(day, products), target)
  {
    var todays := Calendar.Where(window, Calendar.OnDay(day));
    lines := [];
    var i := 0;
    while i < |products|
      invariant 0 <= i <= |products| && snapshot.Valid()
      invariant Covers(lines, Row(day, products[..i]), target)
    {
      var line := ForProduct(snapshot, source, first, last, day, products[i], window, todays, overrides, target);
      CoversConcat(lines, Row(day, products[..i]), [line], [(day, products[i])], target);
      RowGrows(day, products, i);
      lines := lines + [line];
      i := i + 1;
    }
    assert products[..i] == products;
  }

  method ForProduct(snapshot: Snapshot, source: Source, ghost first: int, ghost last: int, day: int, product: int,
                    ghost window: seq<Calendar.Event>, todays: seq<Calendar.Event>, overrides: Calendar.Overrides,
                    ghost target: LineFor)
    returns (line: Line)
    requires snapshot.Valid() && first <= day <= last && Preloaded(window, source, first, last)
    requires todays == Calendar.Where(window, Calendar.OnDay(day))
    requires overrides == Calendar.ProductOverrides(source.overrides, Calendar.EventIds(window))
    requires IsDirect(target, snapshot.inputs, snapshot.useUnmet, source)
    modifies snapshot
    ensures snapshot.Valid() && KeyOf(line) == (day, product) && Agrees(line, target(day, product))
  {
    var normal := snapshot.Predict(product, day);
    var factor := Calendar.FactorFromEvents(todays, TagsOf(source.tags, product), Some(product), overrides);
    line := Combine(normal, factor, product, day);
    Calendar.PreloadRefinesDaily(source.events, source.overrides, source.restaurant, first, last, Some(source.branch),
                                 day, window,
                                 TagsOf(source.tags, product), product);
    SameFactorAgrees(normal, factor, DailyFactorOf(source, product, day), product, day);
    assert target(day, product) == DirectLine(snapshot.inputs, snapshot.useUnmet, source, product, day);
  }
}
