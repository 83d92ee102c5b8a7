/** What counts as demand, the derived daily table that a rebuild writes from it, and the
    direct query the table must agree with. */
module Rollup {
  import opened Prelude
  import opened BusinessDay

  datatype OrderStatus = Draft | Parked | Sent | Preparing | Ready | Served | Void

  datatype Line = Line(product: Option<int>, quantity: int, netMinor: int, voided: bool)

  datatype Order = Order(id: int, restaurant: int, branch: int, status: OrderStatus, occurredAt: int, lines: seq<Line>)

  datatype Reason = OutOfStock | ShortStock | StaffPulled

  datatype Refusal = Refusal(restaurant: int, branch: int, product: Option<int>, reason: Reason, occurredAt: int,
                             unmetUnits: int)

  datatype Branch = Branch(id: int, restaurant: int, offset: int, cutoffHour: int)

  /** The tables the rollup reads. */
  datatype Source = Source(orders: seq<Order>, refunded: set<int>, refusals: seq<Refusal>)

  datatype Key = Key(branch: int, day: int, product: int)

  datatype Cell = Cell(restaurant: int, units: int, revenueMinor: int, orderCount: int, unmetUnits: int)

  // --------------------------------------------------- the shared rule

  /** An order line with its order, as the join yields it. */
  datatype Sale = Sale(order: Order, line: Line)

  predicate IsRealSale(s: Sale)
  {
    s.order.status == Sent && !s.line.voided && s.line.product.Some?
  }

  predicate Counts(src: Source, b: Branch, s: Sale)
  {
    s.order.branch == b.id && s.order.restaurant == b.restaurant && IsRealSale(s) && s.order.id !in src.refunded
  }

  function DayOf(b: Branch, occurredAt: int): int { BusinessDate(occurredAt, b.offset, b.cutoffHour) }

  predicate CountsFor(src: Source, b: Branch, s: Sale, day: int, product: int)
  {
    Counts(src, b, s) && DayOf(b, s.order.occurredAt) == day && s.line.product == Some(product)
  }

  predicate IsUnmet(b: Branch, r: Refusal)
  {
    r.branch == b.id && r.restaurant == b.restaurant && r.product.Some? && r.reason != StaffPulled
  }

  predicate UnmetFor(b: Branch, r: Refusal, day: int, product: int)
  {
    IsUnmet(b, r) && DayOf(b, r.occurredAt) == day && r.product == Some(product)
  }

  // ----------------------------------------- the rollup's grouped queries

  function LinesOf(o: Order): seq<Sale>
  {
    seq(|o.lines|, i requires 0 <= i < |o.lines| => Sale(o, o.lines[i]))
  }

  /** Every order line joined to its order. */
  function Joined(orders: seq<Order>): seq<Sale>
  {
    if |orders| == 0 then [] else Joined(orders[..|orders| - 1]) + LinesOf(orders[|orders| - 1])
  }

  function UnitsFor(src: Source, b: Branch, day: int, product: int): Sale -> int
  {
    (s: Sale) => if CountsFor(src, b, s, day, product) then s.line.quantity else 0
  }

  function RevenueFor(src: Source, b: Branch, day: int, product: int): Sale -> int
  {
    (s: Sale) => if CountsFor(src, b, s, day, product) then s.line.netMinor else 0
  }

  function RefusedFor(b: Branch, day: int, product: int): Refusal -> int
  {
    (r: Refusal) => if UnmetFor(b, r, day, product) then r.unmetUnits else 0
  }

  function Units(src: Source, b: Branch, day: int, product: int): int
  {
    SumOf(Joined(src.orders), UnitsFor(src, b, day, product))
  }

  function Revenue(src: Source, b: Branch, day: int, product: int): int
  {
    SumOf(Joined(src.orders), RevenueFor(src, b, day, product))
  }

  /** The distinct orders behind one group. */
  function OrderIds(src: Source, b: Branch, day: int, product: int): set<int>
  {
    set s | s in Joined(src.orders) && CountsFor(src, b, s, day, product) :: s.order.id
  }

  function Unmet(src: Source, b: Branch, day: int, product: int): int
  {
    SumOf(src.refusals, RefusedFor(b, day, product))
  }

  /** The (day, product) groups of the sales query. */
  function SaleGroups(src: Source, b: Branch, first: int, last: int): set<(int, int)>
  {
    set s | s in Joined(src.orders) && Counts(src, b, s) && first <= DayOf(b, s.order.occurredAt) <= last ::
      (DayOf(b, s.order.occurredAt), s.line.product.value)
  }

  function RefusalGroups(src: Source, b: Branch, first: int, last: int): set<(int, int)>
  {
    set r | r in src.refusals && IsUnmet(b, r) && first <= DayOf(b, r.occurredAt) <= last ::
      (DayOf(b, r.occurredAt), r.product.value)
  }

  ghost predicate Sold(src: Source, b: Branch, day: int, product: int)
  {
    exists s :: s in Joined(src.orders) && CountsFor(src, b, s, day, product)
  }

  ghost predicate TurnedAway(src: Source, b: Branch, day: int, product: int)
  {
    exists r :: r in src.refusals && UnmetFor(b, r, day, product)
  }

  /** What the table must say about one product on one day. */
  function CellOf(src: Source, b: Branch, day: int, product: int): Cell
  {
    Cell(b.restaurant, Units(src, b, day, product), Revenue(src, b, day, product),
         |OrderIds(src, b, day, product)|, Unmet(src, b, day, product))
  }

  lemma GroupsAreSold(src: Source, b: Branch, first: int, last: int, day: int, product: int)
    ensures (day, product) in SaleGroups(src, b, first, last) <==> first <= day <= last && Sold(src, b, day, product)
    ensures (day, product) in RefusalGroups(src, b, first, last) <==>
              first <= day <= last && TurnedAway(src, b, day, product)
  {
    if first <= day <= last && Sold(src, b, day, product) {
      var s :| s in Joined(src.orders) && CountsFor(src, b, s, day, product);
      assert (DayOf(b, s.order.occurredAt), s.line.product.value) == (day, product);
    }
    if first <= day <= last && TurnedAway(src, b, day, product) {
      var r :| r in src.refusals && UnmetFor(b, r, day, product);
      assert (DayOf(b, r.occurredAt), r.product.value) == (day, product);
    }
  }

  lemma {:induction false} NoneSumsToZero<T>(s: seq<T>, f: T -> int)
    requires forall x :: x in s ==> f(x) == 0
    ensures SumOf(s, f) == 0
  {
    if |s| != 0 {
      NoneSumsToZero(s[..|s| - 1], f);
    }
  }

  /** A group with no sale has no units, money or orders; one with no refusal has no unmet units. */
  lemma EmptyGroupsAreZero(src: Source, b: Branch, day: int, product: int)
    ensures !Sold(src, b, day, product) ==>
              Units(src, b, day, product) == 0 && Revenue(src, b, day, product) == 0 &&
              OrderIds(src, b, day, product) == {}
    ensures !TurnedAway(src, b, day, product) ==> Unmet(src, b, day, product) == 0
  {
    if !Sold(src, b, day, product) {
      NoneSumsToZero(Joined(src.orders), UnitsFor(src, b, day, product));
      NoneSumsToZero(Joined(src.orders), RevenueFor(src, b, day, product));
    }
    if !TurnedAway(src, b, day, product) {
      NoneSumsToZero(src.refusals, RefusedFor(b, day, product));
    }
  }

  // -------------------------------------------------------- the rebuild

  predicate InWindow(b: Branch, first: int, last: int, k: Key)
  {
    k.branch == b.id && first <= k.day <= last
  }

  /** Inside the window the table is what the source says, refusal-only rows included;
      outside it nothing has changed. */
  ghost predicate IsRebuilt(before: map<Key, Cell>, after: map<Key, Cell>, src: Source, b: Branch, first: int,
                            last: int)
  {
    && (forall k :: InWindow(b, first, last, k) ==>
          (k in after <==> Sold(src, b, k.day, k.product) || TurnedAway(src, b, k.day, k.product)) &&
          (k in after ==> after[k] == CellOf(src, b, k.day, k.product)))
    && (forall k :: !InWindow(b, first, last, k) ==>
          (k in after <==> k in before) && (k in after ==> after[k] == before[k]))
  }

  ghost predicate CountsRows(n: nat, table: map<Key, Cell>, b: Branch, first: int, last: int)
  {
    n == |set k | k in table && InWindow(b, first, last, k)|
  }

  // The kept rows, plus one correct row for each key written so far.
  ghost predicate Holds(kept: map<Key, Cell>, table: map<Key, Cell>, src: Source, b: Branch, written: set<(int, int)>)
  {
    && (forall k :: k in table <==> k in kept || (k.branch == b.id && (k.day, k.product) in written))
    && (forall k :: k in table ==>
          table[k] == if k.branch == b.id &&
          (k.day, k.product) in written then CellOf(src, b, k.day, k.product) else kept[k])
  }

  lemma HoldsAfterInsert(kept: map<Key, Cell>, table: map<Key, Cell>, src: Source, b: Branch, written: set<(int, int)>,
                         g: (int, int))
    requires Holds(kept, table, src, b, written)
    ensures Holds(kept, table[Key(b.id, g.0, g.1) := CellOf(src, b, g.0, g.1)], src, b, written + {g})
  {
    var more := table[Key(b.id, g.0, g.1) := CellOf(src, b, g.0, g.1)];
    forall k: Key
      ensures k in more <==> k in kept || (k.branch == b.id && (k.day, k.product) in written + {g})
      ensures k in more ==> more[k] == if k.branch == b.id && (k.day, k.product) in written + {g}
                                       then CellOf(src, b, k.day, k.product) else kept[k]
    {
      assert (k.day, k.product) == g <==> k.day == g.0 && k.product == g.1;
      assert k.branch == b.id && (k.day, k.product) == g <==> k == Key(b.id, g.0, g.1);
    }
  }

  // ----------------------------------------- what a table says, outright

  /** The business day runs from its own cutoff, local time, to the next day's. */
  ghost predicate IsWithin(b: Branch, at: int, day: int)
  {
    day * DAY + b.cutoffHour * HOUR <= at + b.offset < (day + 1) * DAY + b.cutoffHour * HOUR
  }

  /** A line that sold the product that day: of a sent order of the branch with no refund, and not voided. */
  ghost predicate IsSold(src: Source, b: Branch, o: Order, line: Line, day: int, product: int)
  {
    && o.restaurant == b.restaurant && o.branch == b.id && o.status == Sent && o.id !in src.refunded
    && IsWithin(b, o.occurredAt, day) && !line.voided && line.product == Some(product)
  }

  /** A shortfall of the product that day, not an item that staff pulled. */
  ghost predicate IsShortfall(b: Branch, r: Refusal, day: int, product: int)
  {
    && r.restaurant == b.restaurant && r.branch == b.id && (r.reason == OutOfStock || r.reason == ShortStock)
    && IsWithin(b, r.occurredAt, day) && r.product == Some(product)
  }

  /** Orders with a line that sold the product that day. */
  ghost predicate Sells(src: Source, b: Branch, o: Order, day: int, product: int)
  {
    exists line :: line in o.lines && IsSold(src, b, o, line, day, product)
  }

  ghost predicate AnySells(src: Source, b: Branch, day: int, product: int)
  {
    exists o :: o in src.orders && Sells(src, b, o, day, product)
  }

  ghost predicate AnyShort(src: Source, b: Branch, day: int, product: int)
  {
    exists r :: r in src.refusals && IsShortfall(b, r, day, product)
  }

  /** A measure of the lines that sold the product that day, added up over every line of every order. */
  ghost function OverSales(src: Source, b: Branch, day: int, product: int, measure: Line -> int): int
  {
    SumOf(src.orders, (o: Order) =>
      SumOf(o.lines, (line: Line) => if IsSold(src, b, o, line, day, product) then measure(line) else 0))
  }

  ghost function OverShortfalls(src: Source, b: Branch, day: int, product: int): int
  {
    SumOf(src.refusals, (r: Refusal) => if IsShortfall(b, r, day, product) then r.unmetUnits else 0)
  }

  /** Units, money, distinct orders and refused units of one product on one day. */
  ghost predicate IsRow(src: Source, b: Branch, day: int, product: int, cell: Cell)
  {
    && cell.restaurant == b.restaurant
    && cell.units == OverSales(src, b, day, product, (line: Line) => line.quantity)
    && cell.revenueMinor == OverSales(src, b, day, product, (line: Line) => line.netMinor)
    && cell.orderCount == |set o | o in src.orders && Sells(src, b, o, day, product) :: o.id|
    && cell.unmetUnits == OverShortfalls(src, b, day, product)
  }

  /** In the window there is a row exactly where something sold or fell short, and it says what the
      orders and refusals say; no other row has changed. */
  ghost predicate IsRewritten(before: map<Key, Cell>, after: map<Key, Cell>, src: Source, b: Branch, first: int,
                              last: int)
  {
    forall k: Key ::
      if k.branch == b.id && first <= k.day <= last then
        (k in after <==> AnySells(src, b, k.day, k.product) || AnyShort(src, b, k.day, k.product)) &&
        (k in after ==> IsRow(src, b, k.day, k.product, after[k]))
      else
        (k in after <==> k in before) && (k in after ==> after[k] == before[k])
  }

  lemma DayIsWithin(b: Branch, at: int, day: int)
    ensures DayOf(b, at) == day <==> IsWithin(b, at, day)
  {
    DateIsTheWindowHolding(at, day, b.offset, b.cutoffHour);
  }

  lemma CountsIsSold(src: Source, b: Branch, o: Order, line: Line, day: int, product: int)
    ensures CountsFor(src, b, Sale(o, line), day, product) <==> IsSold(src, b, o, line, day, product)
  {
    DayIsWithin(b, o.occurredAt, day);
  }

  lemma UnmetIsShortfall(b: Branch, r: Refusal, day: int, product: int)
    ensures UnmetFor(b, r, day, product) <==> IsShortfall(b, r, day, product)
  {
    DayIsWithin(b, r.occurredAt, day);
  }

  /** The join has a row for every line of every order, and no other. */
  lemma {:induction false} JoinedMember(orders: seq<Order>, s: Sale)
    ensures s in Joined(orders) <==> s.order in orders && s.line in s.order.lines
  {
    if |orders| != 0 {
      var n := |orders| - 1;
      JoinedMember(orders[..n], s);
      assert orders == orders[..n] + [orders[n]];
      if s.order == orders[n] && s.line in s.order.lines {
        var i :| 0 <= i < |s.order.lines| && s.order.lines[i] == s.line;
        assert LinesOf(orders[n])[i] == s;
      }
    }
  }

  lemma SoldMeans(src: Source, b: Branch, day: int, product: int)
    ensures Sold(src, b, day, product) <==> AnySells(src, b, day, product)
    ensures TurnedAway(src, b, day, product) <==> AnyShort(src, b, day, product)
  {
    forall s: Sale
      ensures s in Joined(src.orders) && CountsFor(src, b, s, day, product) <==>
              s.order in src.orders && s.line in s.order.lines && IsSold(src, b, s.order, s.line, day, product)
    {
      JoinedMember(src.orders, s);
      CountsIsSold(src, b, s.order, s.line, day, product);
    }
    if AnySells(src, b, day, product) {
      var o :| o in src.orders && Sells(src, b, o, day, product);
      var line :| line in o.lines && IsSold(src, b, o, line, day, product);
      assert CountsFor(src, b, Sale(o, line), day, product);
    }
    forall r
      ensures UnmetFor(b, r, day, product) <==> IsShortfall(b, r, day, product)
    {
      UnmetIsShortfall(b, r, day, product);
    }
  }

  lemma OrdersMean(src: Source, b: Branch, day: int, product: int)
    ensures OrderIds(src, b, day, product) == set o | o in src.orders && Sells(src, b, o, day, product) :: o.id
  {
    var ids := set o | o in src.orders && Sells(src, b, o, day, product) :: o.id;
    forall id | id in OrderIds(src, b, day, product)
      ensures id in ids
    {
      var s :| s in Joined(src.orders) && CountsFor(src, b, s, day, product) && s.order.id == id;
      JoinedMember(src.orders, s);
      CountsIsSold(src, b, s.order, s.line, day, product);
      assert Sells(src, b, s.order, day, product);
    }
    forall id | id in ids
      ensures id in OrderIds(src, b, day, product)
    {
      var o :| o in src.orders && Sells(src, b, o, day, product) && o.id == id;
      var line :| line in o.lines && IsSold(src, b, o, line, day, product);
      JoinedMember(src.orders, Sale(o, line));
      CountsIsSold(src, b, o, line, day, product);
    }
  }

  // A grouped sum over the join is the sum over orders of the sums over their lines.
  lemma JoinedMeasure(src: Source, b: Branch, day: int, product: int, f: Sale -> int, measure: Line -> int)
    requires forall s :: f(s) == if CountsFor(src, b, s, day, product) then measure(s.line) else 0
    ensures SumOf(Joined(src.orders), f) == OverSales(src, b, day, product, measure)
  {
    JoinedSum(src.orders, f, (o: Order) => SumOf(LinesOf(o), f));
    var perOrder := (o: Order) =>
      SumOf(o.lines, (line: Line) => if IsSold(src, b, o, line, day, product) then measure(line) else 0);
    forall i | 0 <= i < |src.orders|
      ensures SumOf(LinesOf(src.orders[i]), f) == perOrder(src.orders[i])
    {
      OrderMeasure(src, b, src.orders[i], day, product, f, measure);
    }
    SumEqual(src.orders, src.orders, (o: Order) => SumOf(LinesOf(o), f), perOrder);
  }

  lemma OrderMeasure(src: Source, b: Branch, o: Order, day: int, product: int, f: Sale -> int, measure: Line -> int)
    requires forall s :: f(s) == if CountsFor(src, b, s, day, product) then measure(s.line) else 0
    ensures SumOf(LinesOf(o), f)
         == SumOf(o.lines, (line: Line) => if IsSold(src, b, o, line, day, product) then measure(line) else 0)
  {
    var own := (line: Line) => if IsSold(src, b, o, line, day, product) then measure(line) else 0;
    forall i | 0 <= i < |o.lines|
      ensures f(LinesOf(o)[i]) == own(o.lines[i])
    {
      CountsIsSold(src, b, o, o.lines[i], day, product);
    }
    SumEqual(LinesOf(o), o.lines, f, own);
  }

  lemma ShortfallsMean(src: Source, b: Branch, day: int, product: int)
    ensures Unmet(src, b, day, product) == OverShortfalls(src, b, day, product)
  {
    var own := (r: Refusal) => if IsShortfall(b, r, day, product) then r.unmetUnits else 0;
    forall i | 0 <= i < |src.refusals|
      ensures RefusedFor(b, day, product)(src.refusals[i]) == own(src.refusals[i])
    {
      UnmetIsShortfall(b, src.refusals[i], day, product);
    }
    SumEqual(src.refusals, src.refusals, RefusedFor(b, day, product), own);
  }

  lemma CellMeans(src: Source, b: Branch, day: int, product: int)
    ensures IsRow(src, b, day, product, CellOf(src, b, day, product))
  {
    JoinedMeasure(src, b, day, product, UnitsFor(src, b, day, product), (line: Line) => line.quantity);
    JoinedMeasure(src, b, day, product, RevenueFor(src, b, day, product), (line: Line) => line.netMinor);
    OrdersMean(src, b, day, product);
    ShortfallsMean(src, b, day, product);
  }

  /** A rebuilt window says, row by row, what the orders and refusals say. */
  lemma RebuiltMeans(before: map<Key, Cell>, after: map<Key, Cell>, src: Source, b: Branch, first: int, last: int)
    requires IsRebuilt(before, after, src, b, first, last)
    ensures IsRewritten(before, after, src, b, first, last)
  {
    forall k: Key
      ensures if k.branch == b.id && first <= k.day <= last then
                (k in after <==> AnySells(src, b, k.day, k.product) || AnyShort(src, b, k.day, k.product)) &&
                (k in after ==> IsRow(src, b, k.day, k.product, after[k]))
              else
                (k in after <==> k in before) && (k in after ==> after[k] == before[k])
    {
      SoldMeans(src, b, k.day, k.product);
      CellMeans(src, b, k.day, k.product);
      assert InWindow(b, first, last, k) <==> k.branch == b.id && first <= k.day <= last;
    }
  }

  class DemandRollup {
    var table: map<Key, Cell>

    method RebuildRange(src: Source, b: Branch, start: int, end: int) returns (written: nat)
      modifies this
      ensures IsRebuilt(old(table), table, src, b, Min(start, end), Max(start, end))
      ensures IsRewritten(old(table), table, src, b, Min(start, end), Max(start, end))
      ensures CountsRows(written, table, b, Min(start, end), Max(start, end))
    {
      var first, last := start, end;
      if last < first {
        first, last := last, first;
      }
      ghost var was := table;
      table := map k | k in table && !InWindow(b, first, last, k) :: table[k];
      ghost var kept := table;
      InsertSales(src, b, first, last, kept);
      var writtenKeys := InsertRefusals(src, b, first, last, kept);
      HoldsMeansRebuilt(was, kept, table, src, b, first, last, writtenKeys);
      RebuiltMeans(was, table, src, b, first, last);
      return |writtenKeys|;
    }

    /** The branch's recent business days, up to the one it is trading in now. */
    method RunForBranch(src: Source, b: Branch, daysBack: int, now: int) returns (first: int, today: int, written: nat)
      modifies this
      ensures today == DayOf(b, now) && IsWithin(b, now, today) && first == today - Max(daysBack, 0)
      ensures IsRebuilt(old(table), table, src, b, first, today)
      ensures IsRewritten(old(table), table, src, b, first, today)
      ensures CountsRows(written, table, b, first, today)
    {
      today := DayOf(b, now);
      DayIsWithin(b, now, today);
      first := today - Max(daysBack, 0);
      written := RebuildRange(src, b, first, today);
    }

    /** A row for every group of the sales query, with its unmet units when it has any. */
    method InsertSales(src: Source, b: Branch, first: int, last: int, ghost kept: map<Key, Cell>)
      requires Holds(kept, table, src, b, {})
      modifies this
      ensures Holds(kept, table, src, b, SaleGroups(src, b, first, last))
    {
      var groups, refused := SaleGroups(src, b, first, last), RefusalGroups(src, b, first, last);
      var todo := groups;
      while todo != {}
        invariant todo <= groups && Holds(kept, table, src, b, groups - todo)
        decreases todo
      {
        var g :| g in todo;
        SaleRowIsCell(src, b, first, last, g);
        HoldsAfterInsert(kept, table, src, b, groups - todo, g);
        assert groups - (todo - {g}) == groups - todo + {g};
        table := table[Key(b.id, g.0, g.1) := Cell(b.restaurant, Units(src, b, g.0, g.1), Revenue(src, b, g.0, g.1),
                                                   |OrderIds(src, b, g.0, g.1)|,
                                                       if g in refused then Unmet(src, b, g.0, g.1) else 0)];
        todo := todo - {g};
      }
      assert groups - todo == groups;
    }

    /** A row of zeros for every refused group that sold nothing. */
    method InsertRefusals(src: Source, b: Branch, first: int, last: int, ghost kept: map<Key, Cell>)
      returns (written: set<(int, int)>)
      requires Holds(kept, table, src, b, SaleGroups(src, b, first, last))
      modifies this
      ensures written == SaleGroups(src, b, first, last) + RefusalGroups(src, b, first, last)
      ensures Holds(kept, table, src, b, written)
    {
      written := SaleGroups(src, b, first, last);
      var todo := RefusalGroups(src, b, first, last);
      while todo != {}
        invariant written + todo == SaleGroups(src, b, first, last) + RefusalGroups(src, b, first, last)
        invariant SaleGroups(src, b, first, last) <= written && todo <= RefusalGroups(src, b, first, last)
        invariant Holds(kept, table, src, b, written)
        decreases todo
      {
        var g :| g in todo;
        if g !in written {
          RefusalRowIsCell(src, b, first, last, g);
          HoldsAfterInsert(kept, table, src, b, written, g);
          table := table[Key(b.id, g.0, g.1) := Cell(b.restaurant, 0, 0, 0, Unmet(src, b, g.0, g.1))];
          written := written + {g};
        }
        todo := todo - {g};
      }
    }
  }

  lemma SaleRowIsCell(src: Source, b: Branch, first: int, last: int, g: (int, int))
    requires g in SaleGroups(src, b, first, last)
    ensures (if g in RefusalGroups(src, b, first, last) then Unmet(src, b, g.0, g.1) else 0) == Unmet(src, b, g.0, g.1)
  {
    GroupsAreSold(src, b, first, last, g.0, g.1);
    EmptyGroupsAreZero(src, b, g.0, g.1);
  }

  lemma RefusalRowIsCell(src: Source, b: Branch, first: int, last: int, g: (int, int))
    requires g in RefusalGroups(src, b, first, last) && g !in SaleGroups(src, b, first, last)
    ensures CellOf(src, b, g.0, g.1) == Cell(b.restaurant, 0, 0, 0, Unmet(src, b, g.0, g.1))
  {
    GroupsAreSold(src, b, first, last, g.0, g.1);
    EmptyGroupsAreZero(src, b, g.0, g.1);
  }

  lemma HoldsMeansRebuilt(was: map<Key, Cell>, kept: map<Key, Cell>, table: map<Key, Cell>, src: Source, b: Branch,
                          first: int, last: int, written: set<(int, int)>)
    requires kept == map k | k in was && !InWindow(b, first, last, k) :: was[k]
    requires written == SaleGroups(src, b, first, last) + RefusalGroups(src, b, first, last)
    requires Holds(kept, table, src, b, written)
    ensures IsRebuilt(was, table, src, b, first, last)
    ensures CountsRows(|written|, table, b, first, last)
  {
    forall day, product
      ensures (day, product) in written <==>
              first <= day <= last && (Sold(src, b, day, product) || TurnedAway(src, b, day, product))
    {
      GroupsAreSold(src, b, first, last, day, product);
    }
    var rows := set k | k in table && InWindow(b, first, last, k);
    assert rows == set g | g in written :: Key(b.id, g.0, g.1) by {
      forall g | g in written
        ensures Key(b.id, g.0, g.1) in rows
      {
        assert g == (g.0, g.1);
      }
    }
    ImageSize(b, written);
  }

  lemma {:induction false} ImageSize(b: Branch, written: set<(int, int)>)
    ensures |set g | g in written :: Key(b.id, g.0, g.1)| == |written|
    decreases |written|
  {
    var image := set g | g in written :: Key(b.id, g.0, g.1);
    if written != {} {
      var x :| x in written;
      var rest := written - {x};
      ImageSize(b, rest);
      assert image == (set g | g in rest :: Key(b.id, g.0, g.1)) + {Key(b.id, x.0, x.1)};
      assert forall g :: g in rest ==> g != x && (g.0 != x.0 || g.1 != x.1);
    }
  }

  // ------------------------------------------------ many rebuilds are one

  ghost predicate Covered(b: Branch, windows: seq<(int, int)>, k: Key)
  {
    exists i :: 0 <= i < |windows| && InWindow(b, windows[i].0, windows[i].1, k)
  }

  /** A run of rebuilds over unchanged orders. */
  ghost predicate RebuildRun(tables: seq<map<Key, Cell>>, src: Source, b: Branch, windows: seq<(int, int)>)
  {
    |tables| == |windows| + 1 &&
    forall i :: 0 <= i < |windows| ==> IsRebuilt(tables[i], tables[i + 1], src, b, windows[i].0, windows[i].1)
  }

  /** However often, in whatever order and with whatever overlap days are rebuilt, the table
      ends as the source says on every covered day and as it began on every other. */
  lemma {:induction false} RebuildsDependOnlyOnCoverage(tables: seq<map<Key, Cell>>, src: Source, b: Branch,
                                                        windows: seq<(int, int)>, k: Key)
    requires RebuildRun(tables, src, b, windows)
    ensures var after := tables[|windows|];
      && (Covered(b, windows, k) ==>
            (k in after <==> Sold(src, b, k.day, k.product) || TurnedAway(src, b, k.day, k.product)) &&
            (k in after ==> after[k] == CellOf(src, b, k.day, k.product)))
      && (!Covered(b, windows, k) ==> (k in after <==> k in tables[0]) && (k in after ==> after[k] == tables[0][k]))
  {
    if |windows| != 0 {
      var n := |windows| - 1;
      RebuildsDependOnlyOnCoverage(tables[..n + 1], src, b, windows[..n], k);
      assert IsRebuilt(tables[n], tables[n + 1], src, b, windows[n].0, windows[n].1);
      if !InWindow(b, windows[n].0, windows[n].1, k) && Covered(b, windows, k) {
        var i :| 0 <= i < |windows| && InWindow(b, windows[i].0, windows[i].1, k);
        assert windows[..n][i] == windows[i];
      }
      if Covered(b, windows[..n], k) {
        var i :| 0 <= i < n && InWindow(b, windows[..n][i].0, windows[..n][i].1, k);
        assert InWindow(b, windows[i].0, windows[i].1, k);
      }
    }
  }

  /** Overlapping rebuilds in any order equal one rebuild of their union. */
  lemma RebuildsEqualUnion(tables: seq<map<Key, Cell>>, src: Source, b: Branch, windows: seq<(int, int)>, first: int,
                           last: int, once: map<Key, Cell>)
    requires RebuildRun(tables, src, b, windows)
    requires forall k :: Covered(b, windows, k) <==> InWindow(b, first, last, k)
    requires IsRebuilt(tables[0], once, src, b, first, last)
    ensures tables[|windows|] == once
  {
    forall k
      ensures k in tables[|windows|] <==> k in once
      ensures k in once ==> tables[|windows|][k] == once[k]
    {
      RebuildsDependOnlyOnCoverage(tables, src, b, windows, k);
    }
  }

  // ------------------------------------------------- the direct query

  function OrderUnits(src: Source, b: Branch, day: int, product: int): Order -> int
  {
    (o: Order) => SumOf(LinesOf(o), UnitsFor(src, b, day, product))
  }

  function OrderRevenue(src: Source, b: Branch, day: int, product: int): Order -> int
  {
    (o: Order) => SumOf(LinesOf(o), RevenueFor(src, b, day, product))
  }

  /** `sales_history`: units and revenue per day and product, order by order. */
  function SalesHistory(src: Source, b: Branch, start: int, end: int): map<(int, int), (int, int)>
  {
    map g | g in SaleGroups(src, b, start, end) ::
      (SumOf(src.orders, OrderUnits(src, b, g.0, g.1)), SumOf(src.orders, OrderRevenue(src, b, g.0, g.1)))
  }

  lemma {:induction false} JoinedSum(orders: seq<Order>, f: Sale -> int, g: Order -> int)
    requires forall o :: g(o) == SumOf(LinesOf(o), f)
    ensures SumOf(Joined(orders), f) == SumOf(orders, g)
  {
    if |orders| != 0 {
      var n := |orders| - 1;
      JoinedSum(orders[..n], f, g);
      SumConcat(Joined(orders[..n]), LinesOf(orders[n]), f);
    }
  }

  /** After a rebuild, the rows of the window with any order behind them are exactly the
      rows of the direct query, with the same units and revenue. */
  lemma RollupMatchesHistory(before: map<Key, Cell>, after: map<Key, Cell>, src: Source, b: Branch, first: int,
                             last: int, day: int, product: int)
    requires IsRebuilt(before, after, src, b, first, last) && first <= day <= last
    ensures var k := Key(b.id, day, product);
      && ((day, product) in SalesHistory(src, b, first, last) <==> k in after && after[k].orderCount > 0)
      && ((day, product) in SalesHistory(src, b, first, last) ==>
            SalesHistory(src, b, first, last)[(day, product)] == (after[k].units, after[k].revenueMinor))
  {
    var k := Key(b.id, day, product);
    assert InWindow(b, first, last, k);
    GroupsAreSold(src, b, first, last, day, product);
    EmptyGroupsAreZero(src, b, day, product);
    if Sold(src, b, day, product) {
      var s :| s in Joined(src.orders) && CountsFor(src, b, s, day, product);
      assert s.order.id in OrderIds(src, b, day, product);
    }
    JoinedSum(src.orders, UnitsFor(src, b, day, product), OrderUnits(src, b, day, product));
    JoinedSum(src.orders, RevenueFor(src, b, day, product), OrderRevenue(src, b, day, product));
  }
}
