/** On-hand rows, the movements that explain them, and the earliest-expiry-first
    draw, all on values. Quantities are whole thousandths of a unit (the ledger's
    three-decimal scale); days are day numbers; a row's primary key is its position. */
module Stock {
  import opened Prelude

  datatype LocationType = Branch | Kitchen | Warehouse

  datatype Place = Place(restaurant: int, kind: LocationType, locationId: int)

  /** What a reorder level and a dispatch are about: one product at one place. */
  datatype Slot = Slot(place: Place, product: int)

  datatype Row = Row(slot: Slot, batch: string, expiry: Option<int>, quantity: int)

  datatype MovementType = Receipt | Adjustment | Dispatch | Waste | Expiry

  datatype Movement = Movement(slot: Slot, batch: string, expiry: Option<int>, delta: int, kind: MovementType)

  // ------------------------------------------------------- batch codes

  /** The characters that Python's `str.strip` removes. */
  predicate IsSpace(c: char)
  {
    var n := c as int;
    9 <= n <= 13 || 28 <= n <= 32 || n in {0x85, 0xA0, 0x1680, 0x2028, 0x2029, 0x202F, 0x205F, 0x3000} ||
    0x2000 <= n <= 0x200A
  }

  predicate Clean(s: string)
  {
    |s| > 0 ==> !IsSpace(s[0]) && !IsSpace(s[|s| - 1])
  }

  function StripLeft(s: string): (r: string)
    ensures |r| > 0 ==> !IsSpace(r[0])
    ensures |s| > 0 && !IsSpace(s[0]) ==> r == s
  {
    if |s| > 0 && IsSpace(s[0]) then StripLeft(s[1..]) else s
  }

  function StripRight(s: string): (r: string)
    ensures r <= s
    ensures |r| > 0 ==> !IsSpace(r[|r| - 1])
    ensures |s| > 0 && !IsSpace(s[|s| - 1]) ==> r == s
  {
    if |s| > 0 && IsSpace(s[|s| - 1]) then StripRight(s[..|s| - 1]) else s
  }

  /** A stripped code is clean, and stripping a clean code changes nothing. */
  function Strip(s: string): (r: string)
    ensures Clean(r)
    ensures Clean(s) ==> r == s
  {
    StripRight(StripLeft(s))
  }

  // ------------------------------------------------------------ lookup

  /** `_UNSET` places no condition on the expiry; otherwise it is matched exactly,
      with undated rows matching undated. */
  datatype ExpiryFilter = AnyExpiry | Exactly(expiry: Option<int>)

  ghost predicate AllSpace(s: string) { forall k :: 0 <= k < |s| ==> IsSpace(s[k]) }

  /** Stripping removes the space before and after, and nothing else. */
  lemma StripTrims(s: string)
    ensures exists i, j :: 0 <= i <= j <= |s| && Strip(s) == s[i..j] && AllSpace(s[..i]) && AllSpace(s[j..])
  {
    var i := TrimsLeft(s);
    var t := StripLeft(s);
    var j := TrimsRight(t);
    assert s[i..i + j] == t[..j] && s[i + j..] == t[j..];
  }

  lemma {:induction false} TrimsLeft(s: string) returns (i: nat)
    ensures i <= |s| && StripLeft(s) == s[i..] && AllSpace(s[..i])
  {
    i := 0;
    if |s| > 0 && IsSpace(s[0]) {
      var k := TrimsLeft(s[1..]);
      i := k + 1;
      assert s[1..][k..] == s[i..] && s[..i] == [s[0]] + s[1..][..k];
    }
  }

  lemma {:induction false} TrimsRight(s: string) returns (j: nat)
    ensures j <= |s| && StripRight(s) == s[..j] && AllSpace(s[j..])
  {
    j := |s|;
    if |s| > 0 && IsSpace(s[|s| - 1]) {
      var n := |s| - 1;
      j := TrimsRight(s[..n]);
      assert s[..n][..j] == s[..j] && s[j..] == s[..n][j..] + [s[n]];
    }
  }


  predicate Matches(r: Row, slot: Slot, batch: string, want: ExpiryFilter)
  {
    r.slot == slot && r.batch == batch && (want.Exactly? ==> r.expiry == want.expiry)
  }

  /** `scalar_one_or_none`: no row, the one row, or more than one (which it raises on). */
  datatype Lookup = Missing | Found(index: nat) | Ambiguous

  function GetItem(rows: seq<Row>, slot: Slot, batch: string, want: ExpiryFilter): (r: Lookup)
    ensures r.Missing? ==> forall i :: 0 <= i < |rows| ==> !Matches(rows[i], slot, batch, want)
    ensures r.Found? ==> r.index < |rows| && Matches(rows[r.index], slot, batch, want)
    ensures r.Found? ==> forall i :: 0 <= i < |rows| && Matches(rows[i], slot, batch, want) ==> i == r.index
    ensures r.Ambiguous? <==>
            exists i, j :: 0 <= i < j < |rows| && Matches(rows[i], slot, batch, want) &&
              Matches(rows[j], slot, batch, want)
  {
    if |rows| == 0 then Missing
    else
      var last := |rows| - 1;
      var before := GetItem(rows[..last], slot, batch, want);
      if !Matches(rows[last], slot, batch, want) then before
      else if before.Missing? then Found(last)
      else Ambiguous
  }

  /** The two partial unique indexes, with undated expiries counted as one value. */
  ghost predicate UniqueLots(rows: seq<Row>)
  {
    forall i, j :: 0 <= i < j < |rows| ==>
      !(rows[i].slot == rows[j].slot && rows[i].batch == rows[j].batch && rows[i].expiry == rows[j].expiry)
  }

  ghost predicate NonNegative(rows: seq<Row>)
  {
    forall i :: 0 <= i < |rows| ==> rows[i].quantity >= 0
  }

  ghost predicate CleanBatches(rows: seq<Row>)
  {
    forall i :: 0 <= i < |rows| ==> Clean(rows[i].batch)
  }

  ghost predicate Sound(rows: seq<Row>)
  {
    NonNegative(rows) && UniqueLots(rows) && CleanBatches(rows)
  }

  /** Looking a selected row up again by its own batch code (blank read as none, then
      stripped again) and its own expiry finds that very row. */
  lemma ReLookupFindsSameRow(rows: seq<Row>, i: nat)
    requires Sound(rows) && i < |rows|
    ensures GetItem(rows, rows[i].slot, Strip(rows[i].batch), Exactly(rows[i].expiry)) == Found(i)
  {
    var r := GetItem(rows, rows[i].slot, Strip(rows[i].batch), Exactly(rows[i].expiry));
    assert Matches(rows[i], rows[i].slot, Strip(rows[i].batch), Exactly(rows[i].expiry));
  }

  lemma ExactLookupIsNeverAmbiguous(rows: seq<Row>, slot: Slot, batch: string, expiry: Option<int>)
    requires UniqueLots(rows)
    ensures !GetItem(rows, slot, batch, Exactly(expiry)).Ambiguous?
  {
  }

  // -------------------------------------------------- totals and balance

  /** What a total ranges over: a product at a place, or one batch code of it. */
  datatype Scope = WholeSlot(slot: Slot) | OneBatch(slot: Slot, batch: string)

  predicate InScope(sc: Scope, slot: Slot, batch: string)
  {
    sc.slot == slot && (sc.OneBatch? ==> sc.batch == batch)
  }

  function QtyIn(sc: Scope): Row -> int
  {
    (r: Row) => if InScope(sc, r.slot, r.batch) then r.quantity else 0
  }

  function DeltaIn(sc: Scope): Movement -> int
  {
    (m: Movement) => if InScope(sc, m.slot, m.batch) then m.delta else 0
  }

  function OnHand(rows: seq<Row>, sc: Scope): int { SumOf(rows, QtyIn(sc)) }

  function Recorded(moves: seq<Movement>, sc: Scope): int { SumOf(moves, DeltaIn(sc)) }

  ghost predicate Conserved(rows: seq<Row>, moves: seq<Movement>)
  {
    forall sc :: OnHand(rows, sc) == Recorded(moves, sc)
  }

  /** The rows after `delta` is posted at position `i`, a position one past the end
      meaning a row that the upsert has just created. */
  function Posted(rows: seq<Row>, i: nat, slot: Slot, batch: string, created: Option<int>, delta: int): seq<Row>
    requires i <= |rows|
  {
    if i < |rows| then rows[i := rows[i].(quantity := rows[i].quantity + delta)]
    else rows + [Row(slot, batch, created, delta)]
  }

  lemma PostingConserves(rows: seq<Row>, moves: seq<Movement>, i: nat, m: Movement, created: Option<int>)
    requires Conserved(rows, moves) && i <= |rows|
    requires i < |rows| ==> rows[i].slot == m.slot && rows[i].batch == m.batch
    ensures Conserved(Posted(rows, i, m.slot, m.batch, created, m.delta), moves + [m])
  {
    forall sc
      ensures OnHand(Posted(rows, i, m.slot, m.batch, created, m.delta), sc) == Recorded(moves + [m], sc)
    {
      assert OnHand(rows, sc) == Recorded(moves, sc);
      SumAppend(moves, m, DeltaIn(sc));
      if i < |rows| {
        SumUpdate(rows, i, rows[i].(quantity := rows[i].quantity + m.delta), QtyIn(sc));
      } else {
        SumAppend(rows, Row(m.slot, m.batch, created, m.delta), QtyIn(sc));
      }
    }
  }

  /** Re-dating a row moves stock between expiries with no movement, and still balances. */
  lemma RedatingConserves(rows: seq<Row>, moves: seq<Movement>, i: nat, expiry: Option<int>)
    requires Conserved(rows, moves) && i < |rows|
    ensures Conserved(rows[i := rows[i].(expiry := expiry)], moves)
  {
    forall sc
      ensures OnHand(rows[i := rows[i].(expiry := expiry)], sc) == Recorded(moves, sc)
    {
      assert OnHand(rows, sc) == Recorded(moves, sc);
      SumUpdate(rows, i, rows[i].(expiry := expiry), QtyIn(sc));
    }
  }

  /** Where a receipt into (slot, batch, expiry) leaves the rows: the lot grows, or is opened. */
  function Received(rows: seq<Row>, slot: Slot, batch: string, expiry: Option<int>, quantity: int): seq<Row>
  {
    var lot := GetItem(rows, slot, Strip(batch), Exactly(expiry));
    Posted(rows, if lot.Found? then lot.index else |rows|, slot, Strip(batch), expiry, quantity)
  }

  /** A receipt is a posting at the one lot with that key, or at a new row. */
  lemma ReceivedIsPosting(rows: seq<Row>, slot: Slot, batch: string, expiry: Option<int>, quantity: int)
    returns (i: nat)
    requires UniqueLots(rows)
    ensures i <= |rows| &&
            Received(rows, slot, batch, expiry, quantity) == Posted(rows, i, slot, Strip(batch), expiry, quantity)
    ensures i < |rows| ==> Matches(rows[i], slot, Strip(batch), Exactly(expiry))
    ensures i == |rows| ==> forall j :: 0 <= j < |rows| ==> !Matches(rows[j], slot, Strip(batch), Exactly(expiry))
  {
    var lot := GetItem(rows, slot, Strip(batch), Exactly(expiry));
    i := if lot.Found? then lot.index else |rows|;
  }

  lemma ReceivedSound(rows: seq<Row>, slot: Slot, batch: string, expiry: Option<int>, quantity: int)
    requires Sound(rows) && quantity > 0
    ensures Sound(Received(rows, slot, batch, expiry, quantity))
  {
    var i := ReceivedIsPosting(rows, slot, batch, expiry, quantity);
  }

  // ------------------------------------------------------- the FEFO draw

  /** Which rows a draw may take from. A dispatch or sale excludes expired lots; waste
      includes them and may be narrowed to one batch or one expiry. */
  datatype Draw =
    | ForDispatch(slot: Slot, today: int)
    | ForWaste(slot: Slot, batch: Option<string>, expiry: Option<int>)

  predicate Drawable(d: Draw, r: Row)
  {
    && r.slot == d.slot
    && r.quantity > 0
    && match d
       case ForDispatch(_, today) => r.expiry.None? || r.expiry.value >= today
       case ForWaste(_, batch, expiry) =>
         (batch.Some? ==> r.batch == Strip(batch.value)) && (expiry.Some? ==> r.expiry == expiry)
  }

  function DrawableQty(d: Draw): Row -> int
  {
    (r: Row) => if Drawable(d, r) then r.quantity else 0
  }

  /** `available_for_dispatch` when `d` is a dispatch. */
  function Available(rows: seq<Row>, d: Draw): int { SumOf(rows, DrawableQty(d)) }

  predicate Sooner(a: Option<int>, b: Option<int>)
  {
    a.Some? && (b.None? || a.value < b.value)
  }

  /** Dated lots first, then the soonest expiry, then the lower row id. */
  predicate Ahead(rows: seq<Row>, i: nat, j: nat)
    requires i < |rows| && j < |rows|
  {
    Sooner(rows[i].expiry, rows[j].expiry) || (rows[i].expiry == rows[j].expiry && i < j)
  }

  function AheadOn(rows: seq<Row>): (nat, nat) -> bool
  {
    (i: nat, j: nat) => i < |rows| && j < |rows| && Ahead(rows, i, j)
  }

  /** Positions of the drawable rows, in id order. */
  function Selected(rows: seq<Row>, d: Draw, upTo: nat): (r: seq<nat>)
    requires upTo <= |rows|
    ensures forall i: nat :: i in r <==> i < upTo && Drawable(d, rows[i])
    ensures forall a, b :: 0 <= a < b < |r| ==> r[a] < r[b]
  {
    if upTo == 0 then []
    else
      var r := Selected(rows, d, upTo - 1);
      assert forall k :: 0 <= k < |r| ==> r[k] in r;
      if Drawable(d, rows[upTo - 1]) then r + [upTo - 1] else r
  }

  /** The `SELECT .. ORDER BY` of the draw: the drawable rows, earliest expiry first. */
  function FefoOrder(rows: seq<Row>, d: Draw): (r: seq<nat>)
    ensures forall i: nat :: i in r <==> i < |rows| && Drawable(d, rows[i])
  {
    SortBy(AheadOn(rows), Selected(rows, d, |rows|))
  }

  ghost predicate InFefoOrder(rows: seq<Row>, order: seq<nat>)
  {
    && (forall k :: 0 <= k < |order| ==> order[k] < |rows|)
    && (forall a, b :: 0 <= a < b < |order| ==> Ahead(rows, order[a], order[b]))
  }

  lemma AheadIsLinear(rows: seq<Row>, s: seq<nat>)
    requires forall k :: k in s ==> k < |rows|
    ensures Ranks(AheadOn(rows), s)
  {
    forall a, b, c | a in s && b in s && c in s && Ahead(rows, a, b) && Ahead(rows, b, c)
      ensures Ahead(rows, a, c)
    {
    }
  }

  lemma FefoOrderIsOrdered(rows: seq<Row>, d: Draw)
    ensures InFefoOrder(rows, FefoOrder(rows, d))
  {
    AheadIsLinear(rows, Selected(rows, d, |rows|));
    SortBySorts(AheadOn(rows), Selected(rows, d, |rows|));
    assert forall k :: 0 <= k < |FefoOrder(rows, d)| ==> FefoOrder(rows, d)[k] in FefoOrder(rows, d);
  }

  function QtyAt(rows: seq<Row>): nat -> int
  {
    (i: nat) => if i < |rows| then rows[i].quantity else 0
  }

  lemma {:induction false} SelectedSum(rows: seq<Row>, d: Draw, upTo: nat)
    requires upTo <= |rows|
    ensures SumOf(Selected(rows, d, upTo), QtyAt(rows)) == SumOf(rows[..upTo], DrawableQty(d))
  {
    if upTo != 0 {
      SelectedSum(rows, d, upTo - 1);
      assert rows[..upTo] == rows[..upTo - 1] + [rows[upTo - 1]];
      SumAppend(rows[..upTo - 1], rows[upTo - 1], DrawableQty(d));
      SumAppend<nat>(Selected(rows, d, upTo - 1), upTo - 1, QtyAt(rows));
    }
  }

  /** Summing the selected rows in draw order gives what the aggregate query gives, so
      the availability check and the debit cannot disagree. */
  lemma OrderSumIsAvailable(rows: seq<Row>, d: Draw)
    ensures SumOf(FefoOrder(rows, d), QtyAt(rows)) == Available(rows, d)
  {
    SortBySum(AheadOn(rows), Selected(rows, d, |rows|), QtyAt(rows));
    SelectedSum(rows, d, |rows|);
    assert rows[..|rows|] == rows;
  }

  ghost predicate SameLots(rows: seq<Row>, after: seq<Row>)
  {
    |after| == |rows| && forall i :: 0 <= i < |rows| ==> after[i] == rows[i].(quantity := after[i].quantity)
  }

  function AllQty(): Row -> int { (r: Row) => r.quantity }

  /** A draw of exactly `q` by any policy at all: it takes from drawable rows only. */
  ghost predicate AnyDraw(rows: seq<Row>, after: seq<Row>, d: Draw, q: int)
  {
    && SameLots(rows, after)
    && (forall i :: 0 <= i < |rows| ==> 0 <= after[i].quantity <= rows[i].quantity)
    && (forall i :: 0 <= i < |rows| && !Drawable(d, rows[i]) ==> after[i] == rows[i])
    && SumOf(after, AllQty()) == SumOf(rows, AllQty()) - q
  }

  /** No row is touched while a drawable row ahead of it still holds anything. */
  ghost predicate EarliestFirst(rows: seq<Row>, after: seq<Row>, d: Draw)
    requires |after| == |rows|
  {
    forall i, j | 0 <= i < |rows| && 0 <= j < |rows| && Ahead(rows, i, j) ::
      Drawable(d, rows[i]) && Drawable(d, rows[j]) && after[j].quantity < rows[j].quantity ==> after[i].quantity == 0
  }

  ghost predicate FefoDraw(rows: seq<Row>, after: seq<Row>, d: Draw, q: int)
  {
    AnyDraw(rows, after, d, q) && EarliestFirst(rows, after, d)
  }

  // The loop as a function: empty each row in turn until nothing remains to take.
  function DrawRows(rows: seq<Row>, order: seq<nat>, q: int): (r: seq<Row>)
    requires forall k :: 0 <= k < |order| ==> order[k] < |rows|
    ensures |r| == |rows|
    decreases |order|
  {
    if q <= 0 || |order| == 0 then rows
    else
      var take := Min(rows[order[0]].quantity, q);
      var next := rows[order[0] := rows[order[0]].(quantity := rows[order[0]].quantity - take)];
      DrawRows(next, order[1..], q - take)
  }

  ghost predicate Draws(rows: seq<Row>, order: seq<nat>)
  {
    NonNegative(rows) && Distinct(order) && forall k :: 0 <= k < |order| ==> order[k] < |rows|
  }

  // The state after the first round of the loop still meets the loop's preconditions.
  lemma FirstRound(rows: seq<Row>, order: seq<nat>, q: int)
    returns (o: nat, next: seq<Row>, rest: seq<nat>, left: int)
    requires Draws(rows, order) && q > 0 && |order| > 0
    ensures o == order[0] < |rows| && rest == order[1..] && o !in rest && Draws(next, rest)
    ensures left == q - Min(rows[o].quantity, q)
    ensures next == rows[o := rows[o].(quantity := rows[o].quantity - Min(rows[o].quantity, q))]
    ensures DrawRows(rows, order, q) == DrawRows(next, rest, left)
  {
    o, rest := order[0], order[1..];
    next := rows[o := rows[o].(quantity := rows[o].quantity - Min(rows[o].quantity, q))];
    left := q - Min(rows[o].quantity, q);
  }

  lemma {:induction false} DrawRowsShape(rows: seq<Row>, order: seq<nat>, q: int)
    requires Draws(rows, order)
    ensures SameLots(rows, DrawRows(rows, order, q))
    ensures forall i :: 0 <= i < |rows| ==> 0 <= DrawRows(rows, order, q)[i].quantity <= rows[i].quantity
    ensures forall i :: 0 <= i < |rows| && i !in order ==> DrawRows(rows, order, q)[i] == rows[i]
    decreases |order|
  {
    if q > 0 && |order| > 0 {
      var o, next, rest, left := FirstRound(rows, order, q);
      DrawRowsShape(next, rest, left);
    }
  }

  lemma {:induction false} DrawRowsPriority(rows: seq<Row>, order: seq<nat>, q: int, a: nat, b: nat)
    requires Draws(rows, order) && a < b < |order|
    requires DrawRows(rows, order, q)[order[b]].quantity < rows[order[b]].quantity
    ensures DrawRows(rows, order, q)[order[a]].quantity == 0
    decreases |order|
  {
    if q > 0 {
      var o, next, rest, left := FirstRound(rows, order, q);
      DrawRowsShape(next, rest, left);
      if a > 0 {
        DrawRowsPriority(next, rest, left, a - 1, b - 1);
      }
    }
  }

  lemma {:induction false} DrawRowsTotal(rows: seq<Row>, order: seq<nat>, q: int)
    requires Draws(rows, order) && 0 <= q <= SumOf(order, QtyAt(rows))
    ensures SumOf(DrawRows(rows, order, q), AllQty()) == SumOf(rows, AllQty()) - q
    decreases |order|
  {
    if q > 0 && |order| > 0 {
      var o, next, rest, left := FirstRound(rows, order, q);
      assert order == [o] + rest;
      SumConcat([o], rest, QtyAt(rows));
      SumEqual(rest, rest, QtyAt(rows), QtyAt(next));
      SumUpdate(rows, o, next[o], AllQty());
      if left > 0 {
        DrawRowsTotal(next, rest, left);
      }
    }
  }

  lemma FefoOrderDraws(rows: seq<Row>, d: Draw)
    requires NonNegative(rows)
    ensures Draws(rows, FefoOrder(rows, d)) && InFefoOrder(rows, FefoOrder(rows, d))
  {
    FefoOrderIsOrdered(rows, d);
  }

  lemma OrderHasPosition(rows: seq<Row>, d: Draw, i: nat) returns (a: nat)
    requires i < |rows| && Drawable(d, rows[i])
    ensures a < |FefoOrder(rows, d)| && FefoOrder(rows, d)[a] == i
  {
    var order := FefoOrder(rows, d);
    assert i in order;
    a :| 0 <= a < |order| && order[a] == i;
  }

  lemma DrawIsEarliestFirst(rows: seq<Row>, d: Draw, q: int, i: nat, j: nat)
    requires NonNegative(rows) && Draws(rows, FefoOrder(rows, d)) && i < |rows| && j < |rows|
    requires Ahead(rows, i, j) && Drawable(d, rows[i]) && Drawable(d, rows[j])
    requires DrawRows(rows, FefoOrder(rows, d), q)[j].quantity < rows[j].quantity
    ensures DrawRows(rows, FefoOrder(rows, d), q)[i].quantity == 0
  {
    FefoOrderIsOrdered(rows, d);
    var a := OrderHasPosition(rows, d, i);
    var b := OrderHasPosition(rows, d, j);
    DrawRowsPriority(rows, FefoOrder(rows, d), q, a, b);
  }

  /** The loop meets the declarative statement of a first-expired-first-out draw. */
  lemma DrawRowsIsFefo(rows: seq<Row>, d: Draw, q: int)
    requires NonNegative(rows) && 0 <= q <= Available(rows, d)
    requires Draws(rows, FefoOrder(rows, d))
    ensures FefoDraw(rows, DrawRows(rows, FefoOrder(rows, d), q), d, q)
  {
    var order := FefoOrder(rows, d);
    OrderSumIsAvailable(rows, d);
    DrawRowsShape(rows, order, q);
    DrawRowsTotal(rows, order, q);
    forall i, j | 0 <= i < |rows| && 0 <= j < |rows| && Ahead(rows, i, j) && Drawable(d, rows[i]) &&
                  Drawable(d, rows[j]) && DrawRows(rows, order, q)[j].quantity < rows[j].quantity
      ensures DrawRows(rows, order, q)[i].quantity == 0
    {
      DrawIsEarliestFirst(rows, d, q, i, j);
    }
  }

  lemma {:induction false} HigherElsewhere(s: seq<Row>, t: seq<Row>, i: nat) returns (j: nat)
    requires |s| == |t| && i < |s| && SumOf(s, AllQty()) == SumOf(t, AllQty())
    requires s[i].quantity < t[i].quantity
    ensures j < |s| && s[j].quantity > t[j].quantity
  {
    if forall j :: 0 <= j < |s| ==> s[j].quantity <= t[j].quantity {
      SumAtMost(s[i := t[i]], t, AllQty(), AllQty());
      SumUpdate(s, i, t[i], AllQty());
      assert false;
    }
    j :| 0 <= j < |s| && s[j].quantity > t[j].quantity;
  }

  lemma FefoDrawNoLess(rows: seq<Row>, one: seq<Row>, two: seq<Row>, d: Draw, q: int, i: nat)
    requires FefoDraw(rows, one, d, q) && FefoDraw(rows, two, d, q) && i < |rows|
    ensures one[i].quantity >= two[i].quantity
  {
    if one[i].quantity < two[i].quantity {
      var j := HigherElsewhere(one, two, i);
      if Ahead(rows, i, j) {
      } else {
        assert Ahead(rows, j, i);
      }
    }
  }

  /** The declarative statement leaves no freedom: at most one outcome satisfies it. */
  lemma FefoDrawUnique(rows: seq<Row>, one: seq<Row>, two: seq<Row>, d: Draw, q: int)
    requires FefoDraw(rows, one, d, q) && FefoDraw(rows, two, d, q)
    ensures one == two
  {
    forall i | 0 <= i < |rows|
      ensures one[i] == two[i]
    {
      FefoDrawNoLess(rows, one, two, d, q, i);
      FefoDrawNoLess(rows, two, one, d, q, i);
    }
  }
}
