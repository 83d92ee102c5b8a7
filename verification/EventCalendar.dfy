/** The event calendar: which events apply on a day, and what they multiply. Queries return
    their rows in an order the database chooses, so results are compared as multisets. */
module EventCalendar {
  import opened Prelude

  datatype Tag = IftarItem | SehriItem | Meat | Rice | Bread | Beverage | Dessert | Snack | General

  datatype TagMultiplier = TagMultiplier(tag: Tag, multiplier: real)

  datatype Event = Event(id: int, restaurant: int, name: string, startsOn: int, endsOn: int, branch: Option<int>,
                         weeklyFactorWeight: real, isEstimated: bool, multipliers: seq<TagMultiplier>)

  datatype Origin = FromProduct(isProposed: bool) | FromTag(matched: Tag)

  datatype Applied = Applied(eventId: int, name: string, multiplier: real, isEstimated: bool, origin: Origin)

  datatype Factor = Factor(multiplier: real, weeklyFactorWeight: real, applied: seq<Applied>)

  /** (event, product) to its own multiplier and whether that is only proposed. */
  type Overrides = map<(int, int), (real, bool)>

  // ------------------------------------------------------------- reads

  function Where<T>(s: seq<T>, keep: T -> bool): seq<T>
  {
    if |s| == 0 then []
    else
      var kept := Where(s[..|s| - 1], keep);
      if keep(s[|s| - 1]) then kept + [s[|s| - 1]] else kept
  }

  predicate ForBranch(e: Event, branch: Option<int>)
  {
    e.branch.None? || (branch.Some? && e.branch == branch)
  }

  function CoversDay(restaurant: int, day: int, branch: Option<int>): Event -> bool
  {
    (e: Event) => e.restaurant == restaurant && e.startsOn <= day && e.endsOn >= day && ForBranch(e, branch)
  }

  function Overlaps(restaurant: int, start: int, end: int, branch: Option<int>): Event -> bool
  {
    (e: Event) => e.restaurant == restaurant && e.endsOn >= start && e.startsOn <= end && ForBranch(e, branch)
  }

  /** The in-memory filter of a preloaded window down to one day. */
  function OnDay(day: int): Event -> bool
  {
    (e: Event) => e.startsOn <= day <= e.endsOn
  }

  /** Events covering `day`, restaurant-wide plus this branch's own. */
  function ActiveEvents(table: seq<Event>, restaurant: int, day: int, branch: Option<int>): seq<Event>
  {
    Where(table, CoversDay(restaurant, day, branch))
  }

  /** Events overlapping a window. */
  function Upcoming(table: seq<Event>, restaurant: int, start: int, end: int, branch: Option<int>): seq<Event>
  {
    Where(table, Overlaps(restaurant, start, end, branch))
  }

  function EventIds(events: seq<Event>): set<int>
  {
    set e | e in events :: e.id
  }

  function ProductOverrides(table: Overrides, eventIds: set<int>): Overrides
  {
    map k | k in table && k.0 in eventIds :: table[k]
  }

  // ---------------------------------------------------- one event's part

  predicate Matches(tags: set<Tag>, m: TagMultiplier)
  {
    m.tag == General || m.tag in tags
  }

  /** The largest matching multiplier, the first of equals. */
  function Winner(ms: seq<TagMultiplier>, tags: set<Tag>): (w: Option<TagMultiplier>)
    ensures w.None? <==> forall m :: m in ms ==> !Matches(tags, m)
    ensures w.Some? ==> w.value in ms && Matches(tags, w.value)
    ensures w.Some? ==> forall m :: m in ms && Matches(tags, m) ==> m.multiplier <= w.value.multiplier
  {
    if |ms| == 0 then None
    else
      var last := ms[|ms| - 1];
      var w := Winner(ms[..|ms| - 1], tags);
      if Matches(tags, last) && (w.None? || last.multiplier > w.value.multiplier) then Some(last) else w
  }

  /** The product's own number if it has one, otherwise its best tag, otherwise nothing. */
  function Contribution(e: Event, tags: set<Tag>, product: Option<int>, overrides: Overrides): (part: seq<Applied>)
    ensures |part| <= 1
  {
    if product.Some? && (e.id, product.value) in overrides then
      var o := overrides[(e.id, product.value)];
      [Applied(e.id, e.name, o.0, e.isEstimated, FromProduct(o.1))]
    else
      var w := Winner(e.multipliers, tags);
      if w.None? then [] else [Applied(e.id, e.name, w.value.multiplier, e.isEstimated, FromTag(w.value.tag))]
  }

  // --------------------------------------------------- the whole factor

  function Compound(total: real, multiplier: real): real { total * multiplier }

  function Scaled(total: real, part: seq<Applied>): real
  {
    if |part| == 0 then total else Compound(total, part[0].multiplier)
  }

  /** Overlapping events compound, the lowest weight wins, and each part is kept for the breakdown. */
  function AddEvent(tags: set<Tag>, product: Option<int>, overrides: Overrides): (Factor, Event) -> Factor
  {
    (f: Factor, e: Event) =>
      var part := Contribution(e, tags, product, overrides);
      Factor(Scaled(f.multiplier, part),
             MinR(f.weeklyFactorWeight, e.weeklyFactorWeight),
             f.applied + part)
  }

  const NEUTRAL: Factor := Factor(1.0, 1.0, [])

  function FactorOf(events: seq<Event>, tags: set<Tag>, product: Option<int>, overrides: Overrides): Factor
  {
    Fold(AddEvent(tags, product, overrides), NEUTRAL, events)
  }

  method FactorFromEvents(events: seq<Event>, tags: set<Tag>, product: Option<int>, overrides: Overrides)
    returns (result: Factor)
    ensures result == FactorOf(events, tags, product, overrides)
  {
    result := NEUTRAL;
    var k := 0;
    while k < |events|
      invariant 0 <= k <= |events|
      invariant result == FactorOf(events[..k], tags, product, overrides)
    {
      assert events[..k + 1] == events[..k] + [events[k]];
      FoldAppend(AddEvent(tags, product, overrides), NEUTRAL, events[..k], events[k]);
      result := Resolve(result, events[k], tags, product, overrides);
      k := k + 1;
    }
    assert events[..k] == events;
  }

  /** One event: its weight counts for the date, and its best multiplier for the product. */
  method Resolve(f: Factor, event: Event, tags: set<Tag>, product: Option<int>, overrides: Overrides)
    returns (result: Factor)
    ensures result == AddEvent(tags, product, overrides)(f, event)
  {
    result := f.(weeklyFactorWeight := MinR(f.weeklyFactorWeight, event.weeklyFactorWeight));
    if product.Some? && (event.id, product.value) in overrides {
      var o := overrides[(event.id, product.value)];
      var part := Applied(event.id, event.name, o.0, event.isEstimated, FromProduct(o.1));
      result := result.(multiplier := Compound(f.multiplier, o.0), applied := f.applied + [part]);
    } else {
      var winner := Winner(event.multipliers, tags);
      if winner.Some? {
        var best := winner.value;
        var part := Applied(event.id, event.name, best.multiplier, event.isEstimated, FromTag(best.tag));
        result := result.(multiplier := Compound(f.multiplier, best.multiplier), applied := f.applied + [part]);
      }
    }
  }

  // ------------------------------------------------ what the factor is

  /** The lowest weight wins: no listed event has a lower one, and it is neutral or some event's own. */
  lemma {:induction false} WeightIsLowest(events: seq<Event>, tags: set<Tag>, product: Option<int>,
                                          overrides: Overrides)
    ensures var w := FactorOf(events, tags, product, overrides).weeklyFactorWeight;
      && w <= 1.0 && (forall e :: e in events ==> w <= e.weeklyFactorWeight)
      && (w == 1.0 || exists e :: e in events && w == e.weeklyFactorWeight)
  {
    if |events| != 0 {
      var n := |events| - 1;
      WeightIsLowest(events[..n], tags, product, overrides);
      assert events == events[..n] + [events[n]];
    }
  }

  ghost function Times(): (real, Applied) -> real
  {
    (x: real, a: Applied) => x * a.multiplier
  }

  /** The parts' multipliers multiplied together. */
  ghost function Product(parts: seq<Applied>): real { Fold(Times(), 1.0, parts) }

  function Parts(events: seq<Event>, tags: set<Tag>, product: Option<int>, overrides: Overrides): seq<Applied>
  {
    if |events| == 0 then []
    else
      var n := |events| - 1;
      Parts(events[..n], tags, product, overrides) + Contribution(events[n], tags, product, overrides)
  }

  lemma ProductExtends(before: seq<Applied>, part: seq<Applied>)
    requires |part| <= 1
    ensures Product(before + part) == Scaled(Product(before), part)
  {
    if |part| == 0 {
      assert before + part == before;
    } else {
      assert part == [part[0]];
      FoldAppend(Times(), 1.0, before, part[0]);
    }
  }

  ghost function SameReal(): (real, real) -> bool { (x: real, y: real) => x == y }

  lemma TimesIsOrderFree()
    ensures OrderFree(Times(), SameReal())
  {
    forall x: real, e: Applied, f: Applied
      ensures SameReal()(Times()(Times()(x, e), f), Times()(Times()(x, f), e))
    {
      CompoundsCommute(x, e.multiplier, f.multiplier);
    }
  }

  /** The product does not depend on the order of the parts. */
  lemma ProductIgnoresOrder(a: seq<Applied>, b: seq<Applied>)
    requires multiset(a) == multiset(b)
    ensures Product(a) == Product(b)
  {
    TimesIsOrderFree();
    FoldPermutes(Times(), SameReal(), 1.0, a, b);
    assert SameReal()(Product(a), Product(b));
  }

  lemma FactorStep(events: seq<Event>, tags: set<Tag>, product: Option<int>, overrides: Overrides)
    requires |events| > 0
    ensures var n := |events| - 1;
      var before := FactorOf(events[..n], tags, product, overrides);
      var part := Contribution(events[n], tags, product, overrides);
      var f := FactorOf(events, tags, product, overrides);
      f.applied == before.applied + part && f.multiplier == Scaled(before.multiplier, part)
  {
  }

  /** The multiplier is the product of the listed parts, and those are one at most per event. */
  lemma {:induction false} MultiplierIsProduct(events: seq<Event>, tags: set<Tag>, product: Option<int>,
                                               overrides: Overrides)
    ensures var f := FactorOf(events, tags, product, overrides);
      f.applied == Parts(events, tags, product, overrides) && f.multiplier == Product(f.applied) &&
      |f.applied| <= |events|
  {
    if |events| != 0 {
      var n := |events| - 1;
      MultiplierIsProduct(events[..n], tags, product, overrides);
      FactorStep(events, tags, product, overrides);
      ProductExtends(Parts(events[..n], tags, product, overrides), Contribution(events[n], tags, product, overrides));
    }
  }

  // ------------------------------------------------ what a day's factor is

  /** An event reaches a day at a branch: it covers it, and is restaurant-wide or that branch's. */
  ghost predicate Reaches(e: Event, restaurant: int, day: int, branch: Option<int>)
  {
    && e.restaurant == restaurant && e.startsOn <= day <= e.endsOn
    && (e.branch.Some? ==> branch.Some? && e.branch.value == branch.value)
  }

  lemma WhereMember<T>(s: seq<T>, keep: T -> bool, x: T)
    ensures x in Where(s, keep) <==> x in s && keep(x)
  {
    WhereCounts(s, keep, x);
    assert x in Where(s, keep) <==> x in multiset(Where(s, keep));
    assert x in s <==> x in multiset(s);
  }

  lemma {:induction false} WhereSum<T>(s: seq<T>, keep: T -> bool, f: T -> int, g: T -> int)
    requires forall x :: x in s ==> g(x) == if keep(x) then f(x) else 0
    ensures SumOf(Where(s, keep), f) == SumOf(s, g)
  {
    if |s| != 0 {
      var n := |s| - 1;
      WhereSum(s[..n], keep, f, g);
      SumAppend(Where(s[..n], keep), s[n], f);
    }
  }

  lemma {:induction false} WhereCount<T>(s: seq<T>, keep: T -> bool, g: T -> int)
    requires forall x :: x in s ==> g(x) == if keep(x) then 1 else 0
    ensures |Where(s, keep)| == SumOf(s, g)
  {
    if |s| != 0 {
      WhereCount(s[..|s| - 1], keep, g);
    }
  }

  /** What is kept is kept in the order it was listed. */
  lemma {:induction false} WhereKeepsOrder<T>(s: seq<T>, keep: T -> bool) returns (index: seq<nat>)
    ensures |index| == |Where(s, keep)|
    ensures forall k :: 0 <= k < |index| ==> index[k] < |s| && Where(s, keep)[k] == s[index[k]]
    ensures forall j, k :: 0 <= j < k < |index| ==> index[j] < index[k]
  {
    index := [];
    if |s| != 0 {
      index := WhereKeepsOrder(s[..|s| - 1], keep);
      if keep(s[|s| - 1]) {
        index := index + [|s| - 1];
      }
    }
  }

  /** The day's query returns exactly the events that reach the day. */
  lemma ActiveIsExact(table: seq<Event>, restaurant: int, day: int, branch: Option<int>, e: Event)
    ensures e in ActiveEvents(table, restaurant, day, branch) <==> e in table && Reaches(e, restaurant, day, branch)
  {
    WhereMember(table, CoversDay(restaurant, day, branch), e);
  }

  /** The window's query returns exactly the events that reach some day of the window. */
  lemma UpcomingIsExact(table: seq<Event>, restaurant: int, start: int, end: int, branch: Option<int>, e: Event)
    requires start <= end && e.startsOn <= e.endsOn
    ensures e in Upcoming(table, restaurant, start, end, branch) <==>
            e in table && exists day :: start <= day <= end && Reaches(e, restaurant, day, branch)
  {
    WhereMember(table, Overlaps(restaurant, start, end, branch), e);
    if e in Upcoming(table, restaurant, start, end, branch) {
      assert Reaches(e, restaurant, Max(start, e.startsOn), branch);
    }
  }

  ghost predicate Fits(m: TagMultiplier, tags: set<Tag>) { m.tag == General || m.tag in tags }

  /** `a` is what `e` does to the product: the product's own number if it has one, and otherwise the
      largest multiplier of a tag that fits it. */
  ghost predicate IsPart(a: Applied, e: Event, tags: set<Tag>, product: int, overrides: Overrides)
  {
    && a.eventId == e.id && a.name == e.name && a.isEstimated == e.isEstimated
    && if (e.id, product) in overrides then
         a.multiplier == overrides[(e.id, product)].0 && a.origin == FromProduct(overrides[(e.id, product)].1)
       else
         exists m :: m in e.multipliers && Fits(m, tags) && a.multiplier == m.multiplier &&
                     a.origin == FromTag(m.tag) &&
                     forall other :: other in e.multipliers && Fits(other, tags) ==> other.multiplier <= m.multiplier
  }

  ghost predicate Moves(e: Event, tags: set<Tag>, product: int, overrides: Overrides)
  {
    (e.id, product) in overrides || exists m :: m in e.multipliers && Fits(m, tags)
  }

  /** An event that moves the product contributes its part, and any other nothing. */
  lemma ContributionIsPart(e: Event, tags: set<Tag>, product: int, overrides: Overrides)
    ensures var part := Contribution(e, tags, Some(product), overrides);
      (|part| == 1 <==> Moves(e, tags, product, overrides)) &&
      (|part| == 1 ==> IsPart(part[0], e, tags, product, overrides))
  {
    if (e.id, product) !in overrides {
      var w := Winner(e.multipliers, tags);
      assert forall m :: Fits(m, tags) == Matches(tags, m);
      if w.Some? {
        assert w.value in e.multipliers && Fits(w.value, tags);
      }
    }
  }

  ghost function PartOf(tags: set<Tag>, product: int, overrides: Overrides): (Applied, Event) -> bool
  {
    (a: Applied, e: Event) => IsPart(a, e, tags, product, overrides)
  }

  ghost function Movers(tags: set<Tag>, product: int, overrides: Overrides): Event -> bool
  {
    (e: Event) => Moves(e, tags, product, overrides)
  }

  // Every part listed is some event's, and every event with a part has one listed.
  ghost predicate PartsMatch(parts: seq<Applied>, events: seq<Event>, isPart: (Applied, Event) -> bool,
                             has: Event -> bool)
  {
    && (forall a :: a in parts ==> exists e :: e in events && isPart(a, e))
    && (forall e :: e in events && has(e) ==> exists a :: a in parts && isPart(a, e))
  }

  lemma PartsExtend(before: seq<Applied>, last: seq<Applied>, events: seq<Event>, e: Event,
                    isPart: (Applied, Event) -> bool, has: Event -> bool)
    requires PartsMatch(before, events, isPart, has) && |last| <= 1
    requires |last| == 1 <==> has(e)
    requires |last| == 1 ==> isPart(last[0], e)
    ensures PartsMatch(before + last, events + [e], isPart, has)
  {
    forall a | a in before + last
      ensures exists d :: d in events + [e] && isPart(a, d)
    {
      if a in before {
        var d :| d in events && isPart(a, d);
        assert d in events + [e];
      } else {
        assert a == last[0] && e in events + [e];
      }
    }
    forall d | d in events + [e] && has(d)
      ensures exists a :: a in before + last && isPart(a, d)
    {
      if d in events {
        var a :| a in before && isPart(a, d);
        assert a in before + last;
      } else {
        assert last[0] in before + last;
      }
    }
  }

  lemma {:induction false} PartsAreExact(events: seq<Event>, tags: set<Tag>, product: int, overrides: Overrides)
    ensures PartsMatch(Parts(events, tags, Some(product), overrides), events, PartOf(tags, product, overrides),
                       Movers(tags, product, overrides))
  {
    if |events| != 0 {
      var n := |events| - 1;
      PartsAreExact(events[..n], tags, product, overrides);
      ContributionIsPart(events[n], tags, product, overrides);
      assert events == events[..n] + [events[n]];
      PartsExtend(Parts(events[..n], tags, Some(product), overrides),
                  Contribution(events[n], tags, Some(product), overrides),
                  events[..n], events[n], PartOf(tags, product, overrides), Movers(tags, product, overrides));
    }
  }

  /** The lowest weekday weight of the events that reach the day, or neutral. */
  ghost predicate IsDayWeight(w: real, table: seq<Event>, restaurant: int, day: int, branch: Option<int>)
  {
    && w <= 1.0
    && (forall e :: e in table && Reaches(e, restaurant, day, branch) ==> w <= e.weeklyFactorWeight)
    && (w == 1.0 || exists e :: e in table && Reaches(e, restaurant, day, branch) && w == e.weeklyFactorWeight)
  }

  /** Every part listed is that of an event that reaches the day, and every such event that moves
      the product has its part listed. */
  ghost predicate AreDayParts(parts: multiset<Applied>, table: seq<Event>, overrides: Overrides, restaurant: int,
                              day: int, tags: set<Tag>, product: int, branch: Option<int>)
  {
    && (forall a :: a in parts ==>
          exists e :: e in table && Reaches(e, restaurant, day, branch) && IsPart(a, e, tags, product, overrides))
    && (forall e :: e in table && Reaches(e, restaurant, day, branch) && Moves(e, tags, product, overrides) ==>
          exists a :: a in parts && IsPart(a, e, tags, product, overrides))
  }

  ghost function DayMovers(table: seq<Event>, overrides: Overrides, restaurant: int, day: int, tags: set<Tag>,
                           product: int, branch: Option<int>): int
  {
    SumOf(table, (e: Event) =>
      if Reaches(e, restaurant, day, branch) && Moves(e, tags, product, overrides) then 1 else 0)
  }

  lemma DailyWeightIsLowest(table: seq<Event>, overrides: Overrides, restaurant: int, day: int, tags: set<Tag>,
                            product: int, branch: Option<int>)
    ensures IsDayWeight(DailyFactor(table, overrides, restaurant, day, tags, Some(product), branch).weeklyFactorWeight,
                        table, restaurant, day, branch)
  {
    var active := ActiveEvents(table, restaurant, day, branch);
    WeightIsLowest(active, tags, Some(product), ProductOverrides(overrides, EventIds(active)));
    forall e: Event
      ensures e in active <==> e in table && Reaches(e, restaurant, day, branch)
    {
      ActiveIsExact(table, restaurant, day, branch, e);
    }
  }

  lemma SameMover(e: Event, tags: set<Tag>, product: int, one: Overrides, two: Overrides)
    requires SameOverride(one, two, e.id, product)
    ensures Movers(tags, product, one)(e) == Moves(e, tags, product, two)
  {
  }

  lemma SamePart(a: Applied, e: Event, tags: set<Tag>, product: int, one: Overrides, two: Overrides)
    requires SameOverride(one, two, e.id, product)
    ensures PartOf(tags, product, one)(a, e) == IsPart(a, e, tags, product, two)
  {
  }

  lemma DailyPartsAreExact(table: seq<Event>, overrides: Overrides, restaurant: int, day: int, tags: set<Tag>,
                           product: int, branch: Option<int>)
    ensures AreDayParts(multiset(DailyFactor(table, overrides, restaurant, day, tags, Some(product), branch).applied),
                        table, overrides, restaurant, day, tags, product, branch)
  {
    var active := ActiveEvents(table, restaurant, day, branch);
    var own := ProductOverrides(overrides, EventIds(active));
    var parts := DailyFactor(table, overrides, restaurant, day, tags, Some(product), branch).applied;
    assert forall a :: a in multiset(parts) <==> a in parts;
    MultiplierIsProduct(active, tags, Some(product), own);
    PartsAreExact(active, tags, product, own);
    forall e: Event
      ensures e in active <==> e in table && Reaches(e, restaurant, day, branch)
      ensures e in active ==> SameOverride(own, overrides, e.id, product)
    {
      ActiveIsExact(table, restaurant, day, branch, e);
      if e in active {
        assert e.id in EventIds(active);
      }
    }
    forall a | a in parts
      ensures exists e :: e in table && Reaches(e, restaurant, day, branch) && IsPart(a, e, tags, product, overrides)
    {
      var e :| e in active && PartOf(tags, product, own)(a, e);
      SamePart(a, e, tags, product, own, overrides);
    }
    forall e | e in table && Reaches(e, restaurant, day, branch) && Moves(e, tags, product, overrides)
      ensures exists a :: a in parts && IsPart(a, e, tags, product, overrides)
    {
      SameMover(e, tags, product, own, overrides);
      var a :| a in parts && PartOf(tags, product, own)(a, e);
      SamePart(a, e, tags, product, own, overrides);
    }
  }

  /** There are as many parts as events that reach the day and move the product. */
  lemma DailyPartsAreCounted(table: seq<Event>, overrides: Overrides, restaurant: int, day: int, tags: set<Tag>,
                             product: int, branch: Option<int>)
    ensures |multiset(DailyFactor(table, overrides, restaurant, day, tags, Some(product), branch).applied)|
         == DayMovers(table, overrides, restaurant, day, tags, product, branch)
  {
    var active := ActiveEvents(table, restaurant, day, branch);
    var own := ProductOverrides(overrides, EventIds(active));
    MultiplierIsProduct(active, tags, Some(product), own);
    var one := (e: Event) => if Moves(e, tags, product, overrides) then 1 else 0;
    forall e | e in active
      ensures SameOverride(own, overrides, e.id, product)
    {
      assert e.id in EventIds(active);
    }
    PartsAreCounted(active, tags, product, own, overrides, one);
    var covers := CoversDay(restaurant, day, branch);
    WhereSum(table, covers, one,
             (e: Event) => if Reaches(e, restaurant, day, branch) && Moves(e, tags, product, overrides) then 1 else 0);
  }

  lemma {:induction false} PartsAreCounted(events: seq<Event>, tags: set<Tag>, product: int, own: Overrides,
                                           overrides: Overrides, one: Event -> int)
    requires forall e :: e in events ==> SameOverride(own, overrides, e.id, product)
    requires forall e :: e in events ==> one(e) == if Moves(e, tags, product, overrides) then 1 else 0
    ensures |Parts(events, tags, Some(product), own)| == SumOf(events, one)
  {
    if |events| != 0 {
      var n := |events| - 1;
      PartsAreCounted(events[..n], tags, product, own, overrides, one);
      ContributionIsPart(events[n], tags, product, own);
      SameMover(events[n], tags, product, own, overrides);
    }
  }

  // -------------------------------------------------- order independence

  ghost predicate SameFactor(f: Factor, g: Factor)
  {
    f.multiplier == g.multiplier && f.weeklyFactorWeight == g.weeklyFactorWeight &&
    multiset(f.applied) == multiset(g.applied)
  }

  ghost function Same(): (Factor, Factor) -> bool { (f: Factor, g: Factor) => SameFactor(f, g) }

  lemma EventsCommute(f: Factor, d: Event, e: Event, tags: set<Tag>, product: Option<int>, overrides: Overrides)
    ensures var add := AddEvent(tags, product, overrides); SameFactor(add(add(f, d), e), add(add(f, e), d))
  {
    var p, q := Contribution(d, tags, product, overrides), Contribution(e, tags, product, overrides);
    assert multiset((f.applied + p) + q) == multiset((f.applied + q) + p);
    ScalesCommute(f.multiplier, p, q);
  }

  lemma CompoundsCommute(x: real, p: real, q: real)
    ensures Compound(Compound(x, p), q) == Compound(Compound(x, q), p)
  {
    assert (x * p) * q == (x * q) * p;
  }

  lemma ScalesCommute(x: real, p: seq<Applied>, q: seq<Applied>)
    ensures Scaled(Scaled(x, p), q) == Scaled(Scaled(x, q), p)
  {
    if |p| > 0 && |q| > 0 {
      CompoundsCommute(x, p[0].multiplier, q[0].multiplier);
    }
  }

  lemma AddEventIsOrderFree(tags: set<Tag>, product: Option<int>, overrides: Overrides)
    ensures OrderFree(AddEvent(tags, product, overrides), Same())
  {
    var add := AddEvent(tags, product, overrides);
    forall f, d, e
      ensures Same()(add(add(f, d), e), add(add(f, e), d))
    {
      EventsCommute(f, d, e, tags, product, overrides);
    }
    forall f, g, e | Same()(f, g)
      ensures Same()(add(f, e), add(g, e))
    {
    }
  }

  /** The order in which events are listed changes neither the multiplier nor the weekday
      weight, and only reorders the contributions. */
  lemma FactorIgnoresOrder(a: seq<Event>, b: seq<Event>, tags: set<Tag>, product: Option<int>, overrides: Overrides)
    requires multiset(a) == multiset(b)
    ensures SameFactor(FactorOf(a, tags, product, overrides), FactorOf(b, tags, product, overrides))
  {
    AddEventIsOrderFree(tags, product, overrides);
    FoldPermutes(AddEvent(tags, product, overrides), Same(), NEUTRAL, a, b);
    assert Same()(FactorOf(a, tags, product, overrides), FactorOf(b, tags, product, overrides));
  }

  predicate SameOverride(one: Overrides, two: Overrides, event: int, product: int)
  {
    ((event, product) in one <==> (event, product) in two) &&
    ((event, product) in one ==> one[(event, product)] == two[(event, product)])
  }

  lemma OwnOverrideDecides(e: Event, tags: set<Tag>, product: int, one: Overrides, two: Overrides)
    requires SameOverride(one, two, e.id, product)
    ensures Contribution(e, tags, Some(product), one) == Contribution(e, tags, Some(product), two)
  {
    if (e.id, product) in one {
      assert one[(e.id, product)] == two[(e.id, product)];
    }
  }

  /** Only the overrides of the listed events and this product matter. */
  lemma FactorIgnoresOtherOverrides(events: seq<Event>, tags: set<Tag>, product: int, one: Overrides, two: Overrides)
    requires forall e :: e in events ==> SameOverride(one, two, e.id, product)
    ensures FactorOf(events, tags, Some(product), one) == FactorOf(events, tags, Some(product), two)
  {
    var stepOne, stepTwo := AddEvent(tags, Some(product), one), AddEvent(tags, Some(product), two);
    forall f, e | e in events
      ensures stepOne(f, e) == stepTwo(f, e)
    {
      OwnOverrideDecides(e, tags, product, one, two);
    }
    FoldAgrees(stepOne, stepTwo, NEUTRAL, events);
  }

  // ---------------------------------- preloading refines the daily query

  lemma {:induction false} WhereCounts<T>(s: seq<T>, keep: T -> bool, x: T)
    ensures multiset(Where(s, keep))[x] == if keep(x) then multiset(s)[x] else 0
  {
    if |s| != 0 {
      WhereCounts(s[..|s| - 1], keep, x);
      assert s == s[..|s| - 1] + [s[|s| - 1]];
    }
  }

  /** Filtering a preloaded window to a day inside it gives the day's own events. */
  lemma PreloadedDayIsActive(table: seq<Event>, restaurant: int, start: int, end: int, branch: Option<int>, day: int,
                             window: seq<Event>, active: seq<Event>)
    requires start <= day <= end
    requires multiset(window) == multiset(Upcoming(table, restaurant, start, end, branch))
    requires multiset(active) == multiset(ActiveEvents(table, restaurant, day, branch))
    ensures multiset(Where(window, OnDay(day))) == multiset(active)
  {
    forall e: Event
      ensures multiset(Where(window, OnDay(day)))[e] == multiset(active)[e]
    {
      WhereCounts(window, OnDay(day), e);
      WhereCounts(table, Overlaps(restaurant, start, end, branch), e);
      WhereCounts(table, CoversDay(restaurant, day, branch), e);
    }
  }

  method FactorFor(table: seq<Event>, overrideTable: Overrides, restaurant: int, day: int, tags: set<Tag>,
                   product: Option<int>, branch: Option<int>)
    returns (f: Factor)
    ensures f == DailyFactor(table, overrideTable, restaurant, day, tags, product, branch)
  {
    var events := ActiveEvents(table, restaurant, day, branch);
    var overrides := if product.Some? then ProductOverrides(overrideTable, EventIds(events)) else map[];
    f := FactorFromEvents(events, tags, product, overrides);
  }

  /** What the single-day convenience form computes. */
  function DailyFactor(table: seq<Event>, overrideTable: Overrides, restaurant: int, day: int, tags: set<Tag>,
                       product: Option<int>, branch: Option<int>): Factor
  {
    var events := ActiveEvents(table, restaurant, day, branch);
    FactorOf(events, tags, product, if product.Some? then ProductOverrides(overrideTable, EventIds(events)) else map[])
  }

  /** For every day of the window and every product, resolving the preloaded events gives
      the factor of the day's own query, whatever order either query returned its rows in. */
  lemma PreloadRefinesDaily(table: seq<Event>, overrideTable: Overrides, restaurant: int, start: int, end: int,
                            branch: Option<int>, day: int, window: seq<Event>, tags: set<Tag>, product: int)
    requires start <= day <= end
    requires multiset(window) == multiset(Upcoming(table, restaurant, start, end, branch))
    ensures SameFactor(FactorOf(Where(window, OnDay(day)), tags, Some(product),
                                ProductOverrides(overrideTable, EventIds(window))),
                       DailyFactor(table, overrideTable, restaurant, day, tags, Some(product), branch))
  {
    var todays, active := Where(window, OnDay(day)), ActiveEvents(table, restaurant, day, branch);
    var all, own := ProductOverrides(overrideTable, EventIds(window)),
                    ProductOverrides(overrideTable, EventIds(active));
    PreloadedDayIsActive(table, restaurant, start, end, branch, day, window, active);
    FactorIgnoresOrder(todays, active, tags, Some(product), all);
    forall e | e in active
      ensures SameOverride(all, own, e.id, product)
    {
      assert e in multiset(active);
      assert e in multiset(todays);
      WhereCounts(window, OnDay(day), e);
      assert e in multiset(window);
      assert e.id in EventIds(window) && e.id in EventIds(active);
    }
    FactorIgnoresOtherOverrides(active, tags, product, all, own);
  }
}
