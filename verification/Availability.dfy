/** Can this menu item be sold at this branch now? Stock answers for simple items, a manual
    86 overrides it, and a combo needs every one of its components. */
module Availability {
  import opened Prelude
  import Menu
  import Stock

  // ---------------------------------------------------------- stock on hand

  predicate InDate(r: Stock.Row, today: int)
  {
    r.expiry.None? || r.expiry.value >= today
  }

  /** A row's part in what a branch physically has, in date, of one product. */
  function InDateQty(place: Stock.Place, today: int, product: int): Stock.Row -> int
  {
    (r: Stock.Row) => if r.slot == Stock.Slot(place, product) && InDate(r, today) then r.quantity else 0
  }

  function Counted(totals: map<int, int>, product: int): int
  {
    if product in totals then totals[product] else 0
  }

  method OnHandMap(rows: seq<Stock.Row>, restaurant: int, branch: int, today: int) returns (totals: map<int, int>)
    ensures forall p ::
              Counted(totals, p) == SumOf(rows, InDateQty(Stock.Place(restaurant, Stock.Branch, branch), today, p))
  {
    totals := map[];
    var place := Stock.Place(restaurant, Stock.Branch, branch);
    var k := 0;
    while k < |rows|
      invariant 0 <= k <= |rows|
      invariant forall p :: Counted(totals, p) == SumOf(rows[..k], InDateQty(place, today, p))
    {
      var r := rows[k];
      forall p
        ensures SumOf(rows[..k + 1], InDateQty(place, today, p))
                == SumOf(rows[..k], InDateQty(place, today, p)) + InDateQty(place, today, p)(r)
      {
        assert rows[..k + 1] == rows[..k] + [r];
        SumAppend(rows[..k], r, InDateQty(place, today, p));
      }
      if r.slot.place == place && InDate(r, today) {
        totals := totals[r.slot.product := Counted(totals, r.slot.product) + r.quantity];
      }
      k := k + 1;
    }
    assert rows[..k] == rows;
  }

  /** What the availability read sums is what a dispatch could ship: rows are never negative. */
  lemma {:induction false} OnHandIsDispatchable(rows: seq<Stock.Row>, place: Stock.Place, today: int, product: int)
    requires Stock.NonNegative(rows)
    ensures SumOf(rows, InDateQty(place, today, product)) ==
            Stock.Available(rows, Stock.ForDispatch(Stock.Slot(place, product), today))
  {
    if |rows| != 0 {
      OnHandIsDispatchable(rows[..|rows| - 1], place, today, product);
    }
  }

  // ------------------------------------------------------------- manual 86s

  /** One row of the manual marks: `clearsAt` is when it lapses by itself. */
  datatype Mark = Mark(branch: int, item: nat, isAvailable: bool, reason: Option<string>, clearsAt: Option<int>)

  predicate Applies(m: Mark, branch: int, item: nat, now: int)
  {
    m.branch == branch && m.item == item && (m.clearsAt.None? || m.clearsAt.value > now)
  }

  /** The unique (branch, item) index. */
  ghost predicate OneMarkEach(marks: seq<Mark>)
  {
    forall i, j :: 0 <= i < j < |marks| ==> !(marks[i].branch == marks[j].branch && marks[i].item == marks[j].item)
  }

  /** The mark in force for an item, the later row winning. */
  function MarkInForce(marks: seq<Mark>, branch: int, now: int, item: nat): (m: Option<Mark>)
    ensures m.Some? ==> m.value in marks && Applies(m.value, branch, item, now)
    ensures m.None? ==> forall i :: 0 <= i < |marks| ==> !Applies(marks[i], branch, item, now)
  {
    if |marks| == 0 then None
    else if Applies(marks[|marks| - 1], branch, item, now) then Some(marks[|marks| - 1])
    else MarkInForce(marks[..|marks| - 1], branch, now, item)
  }

  function Lookup(live: map<nat, Mark>, item: nat): Option<Mark>
  {
    if item in live then Some(live[item]) else None
  }

  method ManualMap(marks: seq<Mark>, branch: int, now: int) returns (live: map<nat, Mark>)
    ensures forall item: nat :: Lookup(live, item) == MarkInForce(marks, branch, now, item)
  {
    live := map[];
    var k := 0;
    while k < |marks|
      invariant 0 <= k <= |marks|
      invariant forall item: nat :: Lookup(live, item) == MarkInForce(marks[..k], branch, now, item)
    {
      assert marks[..k + 1][..k] == marks[..k];
      var row := marks[k];
      if row.branch == branch && !(row.clearsAt.Some? && row.clearsAt.value <= now) {
        live := live[row.item := row];
      }
      k := k + 1;
    }
    assert marks[..k] == marks;
  }

  /** Taken off sale by hand, right now. */
  predicate TakenOff(marks: seq<Mark>, branch: int, now: int, item: nat)
  {
    var m := MarkInForce(marks, branch, now, item);
    m.Some? && !m.value.isAvailable
  }

  // ------------------------------------------------------------- the states

  datatype Cause = ByStock | ByHand

  datatype Reason = Marked(text: Option<string>) | OutOfStock | PartsMissing(names: seq<string>)

  datatype State = State(isAvailable: bool, reason: Option<Reason>, onHand: Option<int>, clearsAt: Option<int>,
                         blockedBy: Option<Cause>)

  /** Everything one poll of a branch reads. */
  datatype View = View(items: seq<Menu.Item>, version: nat, onHand: map<int, int>, manual: map<nat, Mark>,
                       madeToOrderOk: bool)

  function ClearsAt(view: View, item: nat): Option<int>
  {
    if item in view.manual then view.manual[item].clearsAt else None
  }

  predicate Off(view: View, item: nat)
  {
    item in view.manual && !view.manual[item].isAvailable
  }

  function OffState(view: View, item: nat): State
    requires Off(view, item)
  {
    State(false, Some(Marked(view.manual[item].reason)), None, view.manual[item].clearsAt, Some(ByHand))
  }

  function SimpleState(view: View, item: nat): State
    requires item < |view.items|
  {
    var row := view.items[item];
    if Off(view, item) then OffState(view, item)
    else if row.product.None? then State(true, None, None, ClearsAt(view, item), None)
    else
      var qty := Counted(view.onHand, row.product.value);
      if view.madeToOrderOk && row.madeToOrder then State(true, None, Some(qty), ClearsAt(view, item), None)
      else if qty <= 0 then State(false, Some(OutOfStock), Some(qty), ClearsAt(view, item), Some(ByStock))
      else State(true, None, Some(qty), ClearsAt(view, item), None)
  }

  /** The components that are not available, in component order. */
  function Missing(view: View, parts: seq<nat>): (names: seq<string>)
    requires forall k :: 0 <= k < |parts| ==> parts[k] < |view.items|
    ensures |names| == 0 <==> forall k :: 0 <= k < |parts| ==> SimpleState(view, parts[k]).isAvailable
  {
    if |parts| == 0 then []
    else
      var last := parts[|parts| - 1];
      var names := Missing(view, parts[..|parts| - 1]);
      if SimpleState(view, last).isAvailable then names else names + [view.items[last].name]
  }

  predicate PartsAreSimple(items: seq<Menu.Item>, version: nat)
  {
    forall i :: 0 <= i < |items| && items[i].version == version ==> PartsFit(items, i)
  }

  predicate PartsFit(items: seq<Menu.Item>, i: nat)
    requires i < |items|
  {
    forall k :: 0 <= k < |items[i].parts| ==>
      items[i].parts[k] < |items| && !items[items[i].parts[k]].isCombo &&
      items[items[i].parts[k]].version == items[i].version
  }

  lemma SoundMenusHaveSimpleParts(t: Menu.Tables, version: nat)
    requires Menu.Sound(t)
    ensures PartsAreSimple(t.items, version)
  {
    forall i | 0 <= i < |t.items|
      ensures PartsFit(t.items, i)
    {
      assert Menu.ItemSound(t.items, i);
    }
  }

  function StateOf(view: View, item: nat): State
    requires item < |view.items| && PartsFit(view.items, item)
  {
    var row := view.items[item];
    if !row.isCombo then SimpleState(view, item)
    else if Off(view, item) then OffState(view, item)
    else
      var names := Missing(view, row.parts);
      if |names| > 0 then State(false, Some(PartsMissing(names)), None, ClearsAt(view, item), Some(ByStock))
      else State(true, None, None, ClearsAt(view, item), None)
  }

  predicate Wanted(view: View, item: nat, combos: bool)
  {
    item < |view.items| && view.items[item].version == view.version && view.items[item].isCombo == combos
  }

  /** The first pass: the simple items of the version. */
  method SimplePass(view: View) returns (states: map<nat, State>)
    ensures forall i: nat :: i in states <==> Wanted(view, i, false)
    ensures forall i: nat :: i in states ==> i < |view.items| && states[i] == SimpleState(view, i)
  {
    states := map[];
    var k := 0;
    while k < |view.items|
      invariant 0 <= k <= |view.items|
      invariant forall i: nat :: i in states <==> i < k && Wanted(view, i, false)
      invariant forall i: nat :: i in states ==> states[i] == SimpleState(view, i)
    {
      if view.items[k].version == view.version && !view.items[k].isCombo {
        states := states[k := SimpleState(view, k)];
      }
      k := k + 1;
    }
  }

  /** A combo's blocked components, read off the states already there. */
  method BlockedParts(view: View, parts: seq<nat>, states: map<nat, State>) returns (blocked: seq<string>)
    requires forall k :: 0 <= k < |parts| ==> parts[k] < |view.items| && Wanted(view, parts[k], false)
    requires forall i: nat :: Wanted(view, i, false) ==> i in states && states[i] == SimpleState(view, i)
    ensures blocked == Missing(view, parts)
  {
    blocked := [];
    var k := 0;
    while k < |parts|
      invariant 0 <= k <= |parts|
      invariant blocked == Missing(view, parts[..k])
    {
      assert parts[..k + 1][..k] == parts[..k];
      var p := parts[k];
      if p in states && !states[p].isAvailable {
        blocked := blocked + [view.items[p].name];
      }
      k := k + 1;
    }
    assert parts[..k] == parts;
  }

  /** The state of every item of the version: simple items first, then combos from them. */
  method States(view: View) returns (states: map<nat, State>)
    requires PartsAreSimple(view.items, view.version)
    ensures forall i: nat :: i in states <==> i < |view.items| && view.items[i].version == view.version
    ensures forall i: nat :: i in states ==> states[i] == StateOf(view, i)
  {
    states := SimplePass(view);
    var k := 0;
    while k < |view.items|
      invariant 0 <= k <= |view.items|
      invariant forall i: nat :: i in states <==> Wanted(view, i, false) || (i < k && Wanted(view, i, true))
      invariant forall i: nat :: i in states ==> states[i] == StateOf(view, i)
    {
      if Wanted(view, k, true) {
        var state := ComboState(view, k, states);
        states := states[k := state];
      }
      k := k + 1;
    }
  }

  method ComboState(view: View, item: nat, states: map<nat, State>) returns (state: State)
    requires Wanted(view, item, true) && PartsFit(view.items, item)
    requires forall i: nat :: Wanted(view, i, false) ==> i in states && states[i] == SimpleState(view, i)
    ensures state == StateOf(view, item)
  {
    if item in view.manual && !view.manual[item].isAvailable {
      return OffState(view, item);
    }
    var blocked := BlockedParts(view, view.items[item].parts, states);
    if |blocked| > 0 {
      return State(false, Some(PartsMissing(blocked)), None, ClearsAt(view, item), Some(ByStock));
    }
    return State(true, None, None, ClearsAt(view, item), None);
  }

  // --------------------------------------------------------- what it means

  /** A branch at a moment: the menu's tables, its stock rows, its marks. */
  datatype Branch = Branch(menu: Menu.Tables, rows: seq<Stock.Row>, marks: seq<Mark>, restaurant: int, branch: int,
                           today: int, now: int, hasCentralKitchen: bool)

  function PlaceOf(b: Branch): Stock.Place { Stock.Place(b.restaurant, Stock.Branch, b.branch) }

  ghost predicate Reads(view: View, b: Branch)
  {
    && view.items == b.menu.items
    && view.madeToOrderOk == !b.hasCentralKitchen
    && (forall p :: Counted(view.onHand, p) == SumOf(b.rows, InDateQty(PlaceOf(b), b.today, p)))
    && (forall item: nat :: Lookup(view.manual, item) == MarkInForce(b.marks, b.branch, b.now, item))
  }

  function Shippable(b: Branch, product: int): int
  {
    Stock.Available(b.rows, Stock.ForDispatch(Stock.Slot(PlaceOf(b), product), b.today))
  }

  ghost predicate Sane(b: Branch)
  {
    Menu.Sound(b.menu) && Stock.NonNegative(b.rows)
  }

  /** The count shown: what can be shipped, unless a combo or taken off by hand. */
  function CountShown(b: Branch, item: nat): Option<int>
    requires item < |b.menu.items|
  {
    var row := b.menu.items[item];
    if row.isCombo || row.product.None? || TakenOff(b.marks, b.branch, b.now, item) then None
    else Some(Shippable(b, row.product.value))
  }

  predicate StockGated(b: Branch, item: nat)
    requires item < |b.menu.items|
  {
    var row := b.menu.items[item];
    !row.isCombo && !(row.madeToOrder && !b.hasCentralKitchen)
  }

  /** What a poll answers for every item of the version it asks about. */
  method Poll(b: Branch, version: nat) returns (states: map<nat, State>)
    requires Sane(b)
    ensures forall i: nat :: i in states <==> i < |b.menu.items| && b.menu.items[i].version == version
    ensures forall i: nat :: i in states ==> (states[i].isAvailable <==> Sellable(b, i))
    ensures forall i: nat :: i in states ==>
              (states[i].blockedBy == Some(ByHand) <==> TakenOff(b.marks, b.branch, b.now, i))
    ensures forall i: nat :: i in states ==> (states[i].blockedBy.None? <==> states[i].isAvailable)
    ensures forall i: nat :: i in states ==> states[i].onHand == CountShown(b, i)
    ensures OneMarkEach(b.marks) ==> AllAnswered(b, states)
  {
    var onHand := OnHandMap(b.rows, b.restaurant, b.branch, b.today);
    var manual := ManualMap(b.marks, b.branch, b.now);
    var view := View(b.menu.items, version, onHand, manual, !b.hasCentralKitchen);
    SoundMenusHaveSimpleParts(b.menu, version);
    states := States(view);
    forall i: nat | i in states
      ensures states[i].isAvailable <==> Sellable(b, i)
      ensures states[i].blockedBy == Some(ByHand) <==> TakenOff(b.marks, b.branch, b.now, i)
      ensures states[i].blockedBy.None? <==> states[i].isAvailable
      ensures states[i].onHand == CountShown(b, i)
      ensures OneMarkEach(b.marks) ==> PartsFit(b.menu.items, i) && Answers(b, i, states[i])
    {
      StateMeansSellable(view, b, i);
      if OneMarkEach(b.marks) {
        StateAnswers(view, b, i);
      }
    }
  }

  /** Independent of any pass: not taken off by hand; and then a combo needs each component
      sellable, a stock-gated item something to ship, anything else nothing more. */
  ghost predicate SimpleSellable(b: Branch, item: nat)
    requires item < |b.menu.items|
  {
    var row := b.menu.items[item];
    !TakenOff(b.marks, b.branch, b.now, item) &&
    (StockGated(b, item) ==> row.product.Some? ==> Shippable(b, row.product.value) > 0)
  }

  ghost predicate Sellable(b: Branch, item: nat)
    requires item < |b.menu.items| && Menu.Sound(b.menu)
  {
    var row := b.menu.items[item];
    assert Menu.ItemSound(b.menu.items, item);
    if row.isCombo then
      !TakenOff(b.marks, b.branch, b.now, item) && forall k :: 0 <= k < |row.parts| ==> SimpleSellable(b, row.parts[k])
    else SimpleSellable(b, item)
  }

  lemma OffMeansTakenOff(view: View, b: Branch, item: nat)
    requires Reads(view, b)
    ensures Off(view, item) <==> TakenOff(b.marks, b.branch, b.now, item)
  {
    assert Lookup(view.manual, item) == MarkInForce(b.marks, b.branch, b.now, item);
  }

  lemma SimpleMeansSellable(view: View, b: Branch, item: nat)
    requires Reads(view, b) && Stock.NonNegative(b.rows) && item < |b.menu.items| && !b.menu.items[item].isCombo
    ensures SimpleState(view, item).isAvailable <==> SimpleSellable(b, item)
    ensures SimpleState(view, item).blockedBy == Some(ByHand) <==> TakenOff(b.marks, b.branch, b.now, item)
    ensures SimpleState(view, item).blockedBy.None? <==> SimpleState(view, item).isAvailable
    ensures SimpleState(view, item).onHand == CountShown(b, item)
  {
    OffMeansTakenOff(view, b, item);
    var row := b.menu.items[item];
    if row.product.Some? {
      OnHandIsDispatchable(b.rows, PlaceOf(b), b.today, row.product.value);
    }
  }

  /** A combo is available exactly when it has no live manual 86 and every component is
      available; a stock-gated item exactly when it has no live manual 86 and a dispatch
      could ship some of it. */
  lemma StateMeansSellable(view: View, b: Branch, item: nat)
    requires Reads(view, b) && Sane(b) && item < |b.menu.items| && PartsFit(b.menu.items, item)
    ensures StateOf(view, item).isAvailable <==> Sellable(b, item)
    ensures StateOf(view, item).blockedBy == Some(ByHand) <==> TakenOff(b.marks, b.branch, b.now, item)
    ensures StateOf(view, item).blockedBy.None? <==> StateOf(view, item).isAvailable
    ensures StateOf(view, item).onHand == CountShown(b, item)
  {
    var row := b.menu.items[item];
    if row.isCombo {
      OffMeansTakenOff(view, b, item);
      forall k | 0 <= k < |row.parts|
        ensures SimpleState(view, row.parts[k]).isAvailable <==> SimpleSellable(b, row.parts[k])
      {
        SimpleMeansSellable(view, b, row.parts[k]);
      }
    } else {
      SimpleMeansSellable(view, b, item);
    }
  }

  // --------------------------------------------------- the answer, outright

  /** A mark of the item at the branch that has not lapsed. */
  ghost predicate InForce(b: Branch, m: Mark, item: nat)
  {
    m.branch == b.branch && m.item == item && (m.clearsAt.None? || m.clearsAt.value > b.now)
  }

  ghost predicate Pulled(b: Branch, item: nat)
  {
    exists i :: 0 <= i < |b.marks| && InForce(b, b.marks[i], item) && !b.marks[i].isAvailable
  }

  /** In date at the branch, over its rows. */
  ghost function InStock(b: Branch, product: int): int
  {
    SumOf(b.rows, (r: Stock.Row) =>
      if r.slot == Stock.Slot(Stock.Place(b.restaurant, Stock.Branch, b.branch), product) &&
         (r.expiry.Some? ==> r.expiry.value >= b.today)
      then r.quantity else 0)
  }

  /** Not pulled, and in stock if it has a product, unless it is made to order here. */
  ghost predicate CanSellAlone(b: Branch, item: nat)
    requires item < |b.menu.items|
  {
    var row := b.menu.items[item];
    !Pulled(b, item) &&
    (row.product.Some? ==> InStock(b, row.product.value) > 0 || (row.madeToOrder && !b.hasCentralKitchen))
  }

  /** The names of the parts that cannot be sold, in component order. */
  ghost function Unsold(b: Branch, parts: seq<nat>): seq<string>
    requires forall k :: 0 <= k < |parts| ==> parts[k] < |b.menu.items|
  {
    if |parts| == 0 then []
    else
      var part := parts[|parts| - 1];
      Unsold(b, parts[..|parts| - 1]) + if CanSellAlone(b, part) then [] else [b.menu.items[part].name]
  }

  ghost predicate CanSell(b: Branch, item: nat)
    requires item < |b.menu.items| && PartsFit(b.menu.items, item)
  {
    var row := b.menu.items[item];
    if row.isCombo then !Pulled(b, item) && forall k :: 0 <= k < |row.parts| ==> CanSellAlone(b, row.parts[k])
    else CanSellAlone(b, item)
  }

  /** When the mark in force lapses, if it does. */
  ghost predicate Lapses(b: Branch, item: nat, at: Option<int>)
  {
    && (at.Some? ==> exists i :: 0 <= i < |b.marks| && InForce(b, b.marks[i], item) && b.marks[i].clearsAt == at)
    && (at.None? ==> forall i :: 0 <= i < |b.marks| && InForce(b, b.marks[i], item) ==> b.marks[i].clearsAt.None?)
  }

  ghost predicate Explains86(b: Branch, item: nat, text: Option<string>)
  {
    exists i :: 0 <= i < |b.marks| && InForce(b, b.marks[i], item) && !b.marks[i].isAvailable &&
                b.marks[i].reason == text
  }

  /** Why the item cannot be sold: the mark's own reason, the parts it lacks, or no stock. */
  ghost predicate Explains(b: Branch, item: nat, reason: Reason)
    requires item < |b.menu.items| && PartsFit(b.menu.items, item)
  {
    if Pulled(b, item) then reason.Marked? && Explains86(b, item, reason.text)
    else if b.menu.items[item].isCombo then reason == PartsMissing(Unsold(b, b.menu.items[item].parts))
    else reason == OutOfStock
  }

  /** What is answered for an item. */
  ghost predicate Answers(b: Branch, item: nat, s: State)
    requires item < |b.menu.items| && PartsFit(b.menu.items, item)
  {
    var row := b.menu.items[item];
    && (s.isAvailable <==> CanSell(b, item))
    && s.blockedBy == (if Pulled(b, item) then Some(ByHand) else if CanSell(b, item) then None else Some(ByStock))
    && s.onHand == (if Pulled(b, item) || row.isCombo || row.product.None? then None
                    else Some(InStock(b, row.product.value)))
    && Lapses(b, item, s.clearsAt)
    && (s.reason.None? <==> CanSell(b, item)) && (s.reason.Some? ==> Explains(b, item, s.reason.value))
  }

  ghost predicate AllAnswered(b: Branch, states: map<nat, State>)
  {
    forall i: nat :: i in states ==> i < |b.menu.items| && PartsFit(b.menu.items, i) && Answers(b, i, states[i])
  }

  lemma MarkIsInForce(b: Branch, item: nat)
    requires OneMarkEach(b.marks)
    ensures var m := MarkInForce(b.marks, b.branch, b.now, item);
      && (m.None? ==> forall i :: 0 <= i < |b.marks| ==> !InForce(b, b.marks[i], item))
      && (m.Some? ==> exists i :: 0 <= i < |b.marks| && b.marks[i] == m.value)
      && (forall i :: 0 <= i < |b.marks| && InForce(b, b.marks[i], item) ==> m == Some(b.marks[i]))
      && (m.Some? ==> InForce(b, m.value, item))
  {
    assert forall m: Mark :: Applies(m, b.branch, item, b.now) <==> InForce(b, m, item);
  }

  lemma MarksRead(view: View, b: Branch, item: nat)
    requires Reads(view, b) && OneMarkEach(b.marks)
    ensures Off(view, item) <==> Pulled(b, item)
    ensures Lapses(b, item, ClearsAt(view, item))
    ensures Off(view, item) ==> Explains86(b, item, view.manual[item].reason)
  {
    MarkIsInForce(b, item);
    assert Lookup(view.manual, item) == MarkInForce(b.marks, b.branch, b.now, item);
    if item in view.manual {
      var i :| 0 <= i < |b.marks| && b.marks[i] == view.manual[item];
      assert InForce(b, b.marks[i], item);
    }
  }

  lemma StockRead(view: View, b: Branch, product: int)
    requires Reads(view, b)
    ensures Counted(view.onHand, product) == InStock(b, product)
  {
    SumEqual(b.rows, b.rows, InDateQty(PlaceOf(b), b.today, product), (r: Stock.Row) =>
      if r.slot == Stock.Slot(Stock.Place(b.restaurant, Stock.Branch, b.branch), product) &&
         (r.expiry.Some? ==> r.expiry.value >= b.today)
      then r.quantity else 0);
  }

  lemma SimpleAnswers(view: View, b: Branch, item: nat)
    requires Reads(view, b) && OneMarkEach(b.marks) && item < |b.menu.items| && !b.menu.items[item].isCombo
    requires PartsFit(b.menu.items, item)
    ensures Answers(b, item, SimpleState(view, item))
  {
    MarksRead(view, b, item);
    var row := b.menu.items[item];
    if row.product.Some? {
      StockRead(view, b, row.product.value);
    }
  }

  lemma SimpleIsSold(view: View, b: Branch, item: nat)
    requires Reads(view, b) && OneMarkEach(b.marks) && item < |b.menu.items|
    ensures SimpleState(view, item).isAvailable <==> CanSellAlone(b, item)
  {
    MarksRead(view, b, item);
    if b.menu.items[item].product.Some? {
      StockRead(view, b, b.menu.items[item].product.value);
    }
  }

  lemma {:induction false} MissingIsUnsold(view: View, b: Branch, parts: seq<nat>)
    requires Reads(view, b) && OneMarkEach(b.marks)
    requires forall k :: 0 <= k < |parts| ==> parts[k] < |b.menu.items|
    ensures Missing(view, parts) == Unsold(b, parts)
    ensures |Unsold(b, parts)| == 0 <==> forall k :: 0 <= k < |parts| ==> CanSellAlone(b, parts[k])
  {
    if |parts| != 0 {
      MissingIsUnsold(view, b, parts[..|parts| - 1]);
      SimpleIsSold(view, b, parts[|parts| - 1]);
      forall k | 0 <= k < |parts|
        ensures SimpleState(view, parts[k]).isAvailable <==> CanSellAlone(b, parts[k])
      {
        SimpleIsSold(view, b, parts[k]);
      }
    }
  }

  /** Every state is the answer, from the marks and rows alone. */
  lemma StateAnswers(view: View, b: Branch, item: nat)
    requires Reads(view, b) && OneMarkEach(b.marks) && item < |b.menu.items| && PartsFit(b.menu.items, item)
    ensures Answers(b, item, StateOf(view, item))
  {
    if b.menu.items[item].isCombo {
      MarksRead(view, b, item);
      MissingIsUnsold(view, b, b.menu.items[item].parts);
    } else {
      SimpleAnswers(view, b, item);
    }
  }

  // ------------------------------------------------------ marking by hand

  class Board {
    var marks: seq<Mark>

    ghost predicate Valid()
      reads this
    {
      OneMarkEach(marks)
    }

    constructor ()
      ensures Valid() && marks == []
    {
      marks := [];
    }

    /** Upsert the mark of one item at one branch; an item of another restaurant is not found. */
    method SetManual(menu: Menu.Tables, restaurant: int, branch: int, item: nat, isAvailable: bool,
                     reason: Option<string>, clearsAt: Option<int>)
      returns (found: bool)
      requires Valid()
      modifies this
      ensures Valid()
      ensures found <==> ItemBelongs(menu, restaurant, item)
      ensures found <==> item < |menu.items| && menu.items[item].version < |menu.versions| &&
                         menu.versions[menu.items[item].version].restaurant == restaurant
      ensures !found ==> marks == old(marks)
      ensures found ==> Remarked(old(marks), marks, Mark(branch, item, isAvailable, reason, clearsAt))
      ensures found ==> Replaced(old(marks), marks, Mark(branch, item, isAvailable, reason, clearsAt))
    {
      if !ItemBelongs(menu, restaurant, item) {
        return false;
      }
      ghost var before := marks;
      var m := Mark(branch, item, isAvailable, reason, clearsAt);
      var k := 0;
      while k < |marks| && !(marks[k].branch == branch && marks[k].item == item)
        invariant 0 <= k <= |marks| && marks == before
        invariant forall i :: 0 <= i < k ==> !(marks[i].branch == branch && marks[i].item == item)
      {
        k := k + 1;
      }
      marks := if k < |marks| then marks[k := m] else marks + [m];
      RemarkAt(before, m, k);
      ReplacedAt(before, m, k);
      return true;
    }
  }

  predicate ItemBelongs(menu: Menu.Tables, restaurant: int, item: nat)
  {
    item < |menu.items| && menu.items[item].version < |menu.versions| &&
    menu.versions[menu.items[item].version].restaurant == restaurant
  }

  /** From now on the item at the branch has exactly this mark while it lasts, and every other
      item and branch the mark it had. */
  ghost predicate Remarked(before: seq<Mark>, after: seq<Mark>, m: Mark)
  {
    forall branch: int, item: nat, now: int ::
      MarkInForce(after, branch, now, item) ==
      if branch == m.branch && item == m.item then (if Applies(m, branch, item, now) then Some(m) else None)
      else MarkInForce(before, branch, now, item)
  }

  /** The rows are the same but for this one, which is the item's only row at the branch. */
  ghost predicate Replaced(before: seq<Mark>, after: seq<Mark>, m: Mark)
  {
    forall row :: row in after <==>
      if row.branch == m.branch && row.item == m.item then row == m else row in before
  }

  lemma ReplacedAt(marks: seq<Mark>, m: Mark, k: nat)
    requires OneMarkEach(marks) && k <= |marks|
    requires forall i :: 0 <= i < k ==> !(marks[i].branch == m.branch && marks[i].item == m.item)
    requires k < |marks| ==> marks[k].branch == m.branch && marks[k].item == m.item
    ensures Replaced(marks, if k < |marks| then marks[k := m] else marks + [m], m)
  {
    var after := if k < |marks| then marks[k := m] else marks + [m];
    assert after[k] == m;
    forall row | row in marks && !(row.branch == m.branch && row.item == m.item)
      ensures row in after
    {
      var i :| 0 <= i < |marks| && marks[i] == row;
      assert after[i] == row;
    }
  }

  lemma {:induction false} MarkUpdate(marks: seq<Mark>, m: Mark, k: nat, branch: int, now: int, item: nat)
    requires OneMarkEach(marks) && k < |marks| && marks[k].branch == m.branch && marks[k].item == m.item
    ensures MarkInForce(marks[k := m], branch, now, item) ==
            if branch == m.branch && item == m.item then (if Applies(m, branch, item, now) then Some(m) else None)
            else MarkInForce(marks, branch, now, item)
  {
    var n := |marks| - 1;
    if k < n {
      assert marks[k := m][..n] == marks[..n][k := m];
      MarkUpdate(marks[..n], m, k, branch, now, item);
    } else {
      assert marks[k := m][..n] == marks[..n];
    }
  }

  lemma RemarkAt(marks: seq<Mark>, m: Mark, k: nat)
    requires OneMarkEach(marks) && k <= |marks|
    requires forall i :: 0 <= i < k ==> !(marks[i].branch == m.branch && marks[i].item == m.item)
    requires k < |marks| ==> marks[k].branch == m.branch && marks[k].item == m.item
    ensures var after := if k < |marks| then marks[k := m] else marks + [m];
      OneMarkEach(after) && Remarked(marks, after, m)
  {
    var after := if k < |marks| then marks[k := m] else marks + [m];
    forall branch: int, item: nat, now: int
      ensures MarkInForce(after, branch, now, item) ==
              if branch == m.branch && item == m.item then (if Applies(m, branch, item, now) then Some(m) else None)
              else MarkInForce(marks, branch, now, item)
    {
      if k < |marks| {
        MarkUpdate(marks, m, k, branch, now, item);
      } else {
        assert after[..|marks|] == marks;
      }
    }
  }
}
