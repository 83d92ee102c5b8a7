/** The inventory service: every change to an on-hand row goes through `ApplyDelta`,
    which also writes one movement. Rows, movements and alerts are the tables it mutates. */
module Ledger {
  import opened Prelude
  import opened Stock
  import opened Alerts

  datatype Error =
    | MissingRestaurant
    | LocationNotFound
    | ProductNotFound
    | InvalidQuantity
    | InvalidMovementType
    | ItemNotFound
    | MultipleResults
    | DuplicateLot
    | Insufficient(requested: int, available: int, batch: string)

  /** `(batch_code or "").strip()`. */
  function BatchCode(batch: Option<string>): string
  {
    Strip(if batch.Some? then batch.value else "")
  }

  function CreateExpiry(expiry: ExpiryFilter, setExpiryOnCreate: bool): Option<int>
  {
    if setExpiryOnCreate && expiry.Exactly? then expiry.expiry else None
  }

  function LookupExpiry(expiry: ExpiryFilter, allowCreate: bool, setExpiryOnCreate: bool): ExpiryFilter
  {
    if allowCreate && setExpiryOnCreate then Exactly(CreateExpiry(expiry, setExpiryOnCreate)) else expiry
  }

  /** The row a write goes to: the one row of the batch that the call names, its lot when the call
      may open one with an expiry, and otherwise any date unless one is given; or, when the call
      may open one, a new row where there is none. */
  ghost predicate Addresses(before: seq<Row>, i: nat, slot: Slot, batch: string, expiry: ExpiryFilter,
                            allowCreate: bool, setExpiryOnCreate: bool)
  {
    var opens := allowCreate && setExpiryOnCreate;
    && (forall j :: 0 <= j < |before| && Addressed(before[j], slot, batch, expiry, opens) ==> j == i)
    && (if i < |before| then Addressed(before[i], slot, batch, expiry, opens) else i == |before| && allowCreate)
  }

  ghost predicate Addressed(r: Row, slot: Slot, batch: string, expiry: ExpiryFilter, opens: bool)
  {
    && r.slot == slot && r.batch == batch
    && if expiry.Exactly? then r.expiry == expiry.expiry else opens ==> r.expiry == None
  }

  lemma OutcomeAddresses(rows: seq<Row>, slot: Slot, batch: string, expiry: ExpiryFilter, allowCreate: bool,
                         setExpiryOnCreate: bool, delta: int, i: nat)
    requires Resolve(rows, slot, batch, LookupExpiry(expiry, allowCreate, setExpiryOnCreate), allowCreate, delta)
             == Ok(i)
    ensures Addresses(rows, i, slot, batch, expiry, allowCreate, setExpiryOnCreate)
  {
    var want := LookupExpiry(expiry, allowCreate, setExpiryOnCreate);
    assert forall r: Row ::
      Addressed(r, slot, batch, expiry, allowCreate && setExpiryOnCreate) <==> Matches(r, slot, batch, want);
  }

  /** A batch code spread over several lots: same product, same place, different expiries. */
  ghost predicate SpansLots(rows: seq<Row>, slot: Slot, batch: string)
  {
    exists i, j :: 0 <= i < j < |rows| &&
      rows[i].slot == slot && rows[i].batch == batch && rows[j].slot == slot && rows[j].batch == batch
  }

  /** An adjustment or removal by batch code alone meets several rows exactly when the code
      spans several lots, whatever the quantity and whether or not a row may be opened. */
  lemma RefusedWhenBatchSpansLots(rows: seq<Row>, slot: Slot, batch: string, allowCreate: bool, delta: int)
    ensures Resolve(rows, slot, batch, AnyExpiry, allowCreate, delta) == Err(MultipleResults) <==>
              SpansLots(rows, slot, batch)
  {
    if SpansLots(rows, slot, batch) {
      var i, j :| 0 <= i < j < |rows| && rows[i].slot == slot && rows[i].batch == batch &&
                  rows[j].slot == slot && rows[j].batch == batch;
      assert Matches(rows[i], slot, batch, AnyExpiry) && Matches(rows[j], slot, batch, AnyExpiry);
    }
  }

  lemma ReceiptLeavesLot(rows: seq<Row>, slot: Slot, batch: string, expiry: Option<int>, quantity: int) returns (i: nat)
    requires Sound(rows) && quantity > 0
    ensures var after := Received(rows, slot, batch, expiry, quantity);
      && Sound(after) && |rows| <= |after|
      && i < |after| && Matches(after[i], slot, Strip(batch), Exactly(expiry))
      && forall j :: 0 <= j < |rows| ==> after[j] == rows[j].(quantity := after[j].quantity)
  {
    ReceivedSound(rows, slot, batch, expiry, quantity);
    i := ReceivedIsPosting(rows, slot, batch, expiry, quantity);
  }

  /** Two receipts of one batch code under different expiries are enough: from then on neither
      an adjustment nor a single-row removal of that code can succeed. */
  lemma TwoExpiriesBlockAdjustment(rows: seq<Row>, slot: Slot, batch: string, one: Option<int>, two: Option<int>,
                                   q: int, r: int, allowCreate: bool, delta: int)
    requires Sound(rows) && q > 0 && r > 0 && one != two
    ensures Resolve(Received(Received(rows, slot, batch, one, q), slot, batch, two, r), slot, Strip(batch), AnyExpiry,
                    allowCreate, delta)
         == Err(MultipleResults)
  {
    var after := Received(rows, slot, batch, one, q);
    var i := ReceiptLeavesLot(rows, slot, batch, one, q);
    var j := ReceiptLeavesLot(after, slot, batch, two, r);
    var last := Received(after, slot, batch, two, r);
    assert last[i] == after[i].(quantity := last[i].quantity);
    assert SpansLots(last, slot, Strip(batch)) by {
      var a, b := Min(i, j), Max(i, j);
      assert 0 <= a < b < |last|;
    }
    RefusedWhenBatchSpansLots(last, slot, Strip(batch), allowCreate, delta);
  }

  /** Where a posting of `delta` lands, or why it is refused. */
  function Resolve(rows: seq<Row>, slot: Slot, batch: string, want: ExpiryFilter, allowCreate: bool,
                   delta: int): Result<nat, Error>
  {
    match GetItem(rows, slot, batch, want)
    case Ambiguous => Err(MultipleResults)
    case Missing =>
      if !allowCreate then Err(ItemNotFound)
      else if delta < 0 then Err(Insufficient(-delta, 0, batch))
      else Ok(|rows|)
    case Found(i) =>
      if rows[i].quantity + delta < 0 then Err(Insufficient(-delta, rows[i].quantity, batch)) else Ok(i)
  }

  function Outcome(guard: Result<Slot, Error>, rows: seq<Row>, batch: string, want: ExpiryFilter, allowCreate: bool,
                   delta: int): Result<nat, Error>
  {
    if guard.Err? then Err(guard.error) else Resolve(rows, guard.value, batch, want, allowCreate, delta)
  }

  /** Rows are sound, they balance against the movements, and the alert table is what
      the movements say it should be. */
  ghost predicate Books(rules: Rules, rows: seq<Row>, moves: seq<Movement>, alerts: seq<nat>)
  {
    Sound(rows) && Conserved(rows, moves) && alerts == AlertLog(rules, moves)
  }

  // After the upsert, the second lookup finds the row it created.
  lemma UpsertIsFound(rows: seq<Row>, slot: Slot, batch: string, want: ExpiryFilter, created: Option<int>)
    requires GetItem(rows, slot, batch, want).Missing? && (want == AnyExpiry || want == Exactly(created))
    ensures GetItem(rows, slot, batch, Exactly(created)).Missing?
    ensures GetItem(rows + [Row(slot, batch, created, 0)], slot, batch, Exactly(created)) == Found(|rows|)
  {
    var more := rows + [Row(slot, batch, created, 0)];
    assert more[..|rows|] == rows;
  }

  // A receipt always resolves, to the lot with its own key or to a new row.
  lemma ReceiptResolves(rows: seq<Row>, slot: Slot, batch: string, expiry: Option<int>, quantity: int)
    requires Sound(rows) && Clean(batch) && quantity > 0
    ensures var i := Resolve(rows, slot, batch, Exactly(expiry), true, quantity);
      && i.Ok? && i.value <= |rows|
      && Received(rows, slot, batch, expiry, quantity) == Posted(rows, i.value, slot, batch, expiry, quantity)
      && Posted(rows, i.value, slot, batch, expiry, quantity)[i.value].expiry == expiry
  {
    ExactLookupIsNeverAmbiguous(rows, slot, batch, expiry);
  }

  /** Select for update; when there is no row and one may be created, upsert and select again. */
  method FindOrCreate(rows: seq<Row>, slot: Slot, batch: string, want: ExpiryFilter, allowCreate: bool,
                      created: Option<int>)
    returns (table: seq<Row>, res: Result<nat, Error>)
    requires allowCreate ==> want == AnyExpiry || want == Exactly(created)
    ensures res.Ok? ==> res.value < |table| && table[res.value].slot == slot && table[res.value].batch == batch
    ensures res.Ok? && res.value < |rows| ==> table == rows && GetItem(rows, slot, batch, want) == Found(res.value)
    ensures res.Ok? && res.value >= |rows| ==>
              allowCreate && GetItem(rows, slot, batch, want).Missing? &&
              GetItem(rows, slot, batch, Exactly(created)).Missing? &&
              res.value == |rows| && table == rows + [Row(slot, batch, created, 0)]
    ensures res.Err? ==> forall delta :: Resolve(rows, slot, batch, want, allowCreate, delta) == res
  {
    table := rows;
    var item := GetItem(table, slot, batch, want);
    if item.Ambiguous? {
      return table, Err(MultipleResults);
    }
    if item.Missing? {
      if !allowCreate {
        return table, Err(ItemNotFound);
      }
      UpsertIsFound(rows, slot, batch, want, created);
      if GetItem(table, slot, batch, Exactly(created)).Missing? {
        table := table + [Row(slot, batch, created, 0)];
      }
      item := GetItem(table, slot, batch, Exactly(created));
    }
    res := Ok(item.index);
  }

  lemma PostingKeepsBooks(rules: Rules, rows: seq<Row>, moves: seq<Movement>, i: nat, created: Option<int>, m: Movement)
    requires Sound(rows) && Conserved(rows, moves) && Clean(m.batch)
    requires if i < |rows| then rows[i].slot == m.slot && rows[i].batch == m.batch && rows[i].quantity + m.delta >= 0
             else i == |rows| && m.delta >= 0 && GetItem(rows, m.slot, m.batch, Exactly(created)).Missing?
    ensures Sound(Posted(rows, i, m.slot, m.batch, created, m.delta))
    ensures Conserved(Posted(rows, i, m.slot, m.batch, created, m.delta), moves + [m])
    ensures AlertLog(rules, moves + [m]) == AlertLog(rules, moves) +
            (if m.delta < 0 && rules.Crossed(m.slot, OnHand(rows, WholeSlot(m.slot)),
                                             OnHand(rows, WholeSlot(m.slot)) + m.delta)
             then [|moves|] else [])
  {
    PostingConserves(rows, moves, i, m, created);
    AlertLogAppend(rules, moves, m);
    assert OnHand(rows, WholeSlot(m.slot)) == Recorded(moves, WholeSlot(m.slot));
  }

  function DrawMove(rows: seq<Row>, after: seq<Row>, i: nat, kind: MovementType): Movement
    requires i < |rows| && i < |after|
  {
    Movement(rows[i].slot, rows[i].batch, rows[i].expiry, after[i].quantity - rows[i].quantity, kind)
  }

  /** One movement per touched lot, in draw order, each carrying what that lot lost. */
  ghost predicate DrawLogged(rows: seq<Row>, after: seq<Row>, touched: seq<nat>, log: seq<Movement>, kind: MovementType)
  {
    && |after| == |rows|
    && (forall k :: 0 <= k < |touched| ==> touched[k] < |rows|)
    && (forall i: nat :: i in touched <==> i < |rows| && after[i].quantity < rows[i].quantity)
    && |log| == |touched|
    && forall k :: 0 <= k < |touched| ==> log[k] == DrawMove(rows, after, touched[k], kind)
  }

  // What the loop writes and returns, as functions of where it starts.
  function DrawTouched(rows: seq<Row>, order: seq<nat>, q: int): seq<nat>
    requires forall k :: 0 <= k < |order| ==> order[k] < |rows|
    decreases |order|
  {
    if q <= 0 || |order| == 0 then []
    else [order[0]] + DrawTouched(Taken(rows, order[0], Min(rows[order[0]].quantity, q)), order[1..],
                                  q - Min(rows[order[0]].quantity, q))
  }

  function DrawMoves(rows: seq<Row>, order: seq<nat>, q: int, kind: MovementType): seq<Movement>
    requires forall k :: 0 <= k < |order| ==> order[k] < |rows|
    decreases |order|
  {
    if q <= 0 || |order| == 0 then []
    else
      var r, take := rows[order[0]], Min(rows[order[0]].quantity, q);
      [Movement(r.slot, r.batch, r.expiry, -take, kind)]
      + DrawMoves(Taken(rows, order[0], take), order[1..], q - take, kind)
  }

  function Taken(rows: seq<Row>, i: nat, take: int): seq<Row>
    requires i < |rows|
  {
    rows[i := rows[i].(quantity := rows[i].quantity - take)]
  }

  ghost predicate Stocked(rows: seq<Row>, order: seq<nat>, slot: Slot)
  {
    forall k :: 0 <= k < |order| ==> order[k] < |rows| && rows[order[k]].quantity > 0 && rows[order[k]].slot == slot
  }

  // One round of the loop moves the state along and leaves the rest of the work unchanged.
  lemma Round(rows: seq<Row>, todo: seq<nat>, q: int, slot: Slot, kind: MovementType)
    requires Draws(rows, todo) && Stocked(rows, todo, slot) && |todo| > 0 && q > 0
    ensures var o, take := todo[0], Min(rows[todo[0]].quantity, q);
      && o !in todo[1..] && 0 < take <= rows[o].quantity
      && Draws(Taken(rows, o, take), todo[1..]) && Stocked(Taken(rows, o, take), todo[1..], slot)
      && DrawRows(rows, todo, q) == DrawRows(Taken(rows, o, take), todo[1..], q - take)
      && DrawTouched(rows, todo, q) == [o] + DrawTouched(Taken(rows, o, take), todo[1..], q - take)
      && DrawMoves(rows, todo, q, kind)
         == [Movement(rows[o].slot, rows[o].batch, rows[o].expiry, -take, kind)]
         + DrawMoves(Taken(rows, o, take), todo[1..], q - take, kind)
  {
    var o := todo[0];
    forall k | 0 <= k < |todo[1..]|
      ensures todo[1..][k] != o
    {
      assert todo[1..][k] == todo[k + 1];
    }
  }

  lemma {:induction false} TouchedIsPrefix(rows: seq<Row>, order: seq<nat>, q: int, slot: Slot, kind: MovementType)
    requires Draws(rows, order) && Stocked(rows, order, slot)
    ensures DrawTouched(rows, order, q) <= order && |DrawMoves(rows, order, q, kind)| == |DrawTouched(rows, order, q)|
    decreases |order|
  {
    if q > 0 && |order| > 0 {
      Round(rows, order, q, slot, kind);
      var take := Min(rows[order[0]].quantity, q);
      TouchedIsPrefix(Taken(rows, order[0], take), order[1..], q - take, slot, kind);
      assert order == [order[0]] + order[1..];
    }
  }

  lemma RestLeavesRow(rows: seq<Row>, rest: seq<nat>, q: int, o: nat, slot: Slot, kind: MovementType)
    requires Draws(rows, rest) && Stocked(rows, rest, slot) && o < |rows| && o !in rest
    ensures SameLots(rows, DrawRows(rows, rest, q)) && DrawRows(rows, rest, q)[o] == rows[o]
    ensures o !in DrawTouched(rows, rest, q)
  {
    DrawRowsShape(rows, rest, q);
    TouchedIsPrefix(rows, rest, q, slot, kind);
  }

  lemma {:induction false} DrawIsLogged(rows: seq<Row>, order: seq<nat>, q: int, slot: Slot, kind: MovementType)
    requires Draws(rows, order) && Stocked(rows, order, slot)
    ensures DrawLogged(rows, DrawRows(rows, order, q), DrawTouched(rows, order, q), DrawMoves(rows, order, q, kind),
                       kind)
    decreases |order|
  {
    if q > 0 && |order| > 0 {
      Round(rows, order, q, slot, kind);
      var o, take := order[0], Min(rows[order[0]].quantity, q);
      var next, rest := Taken(rows, o, take), order[1..];
      DrawIsLogged(next, rest, q - take, slot, kind);
      RestLeavesRow(next, rest, q - take, o, slot, kind);
      LoggedAfterRound(rows, next, DrawRows(next, rest, q - take), o, take,
                       DrawTouched(next, rest, q - take), DrawMoves(next, rest, q - take, kind), kind);
    } else {
      NothingLogged(rows, order, q, kind);
    }
  }

  lemma NothingLogged(rows: seq<Row>, order: seq<nat>, q: int, kind: MovementType)
    requires Draws(rows, order) && (q <= 0 || |order| == 0)
    ensures DrawLogged(rows, DrawRows(rows, order, q), DrawTouched(rows, order, q), DrawMoves(rows, order, q, kind),
                       kind)
  {
    assert DrawRows(rows, order, q) == rows;
  }

  lemma LoggedAfterRound(rows: seq<Row>, next: seq<Row>, after: seq<Row>, o: nat, take: int, touched: seq<nat>,
                         log: seq<Movement>, kind: MovementType)
    requires o < |rows| && next == Taken(rows, o, take) && take > 0 && o !in touched
    requires SameLots(next, after) && after[o] == next[o] && DrawLogged(next, after, touched, log, kind)
    ensures DrawLogged(rows, after, [o] + touched,
                       [Movement(rows[o].slot, rows[o].batch, rows[o].expiry, -take, kind)] + log, kind)
  {
    assert forall k :: 0 <= k < |touched| ==> touched[k] in touched;
  }

  // What has been done so far and what is left add up to the whole draw.
  ghost predicate Underway(was: seq<Row>, order: seq<nat>, q: int, rows: seq<Row>, todo: seq<nat>, left: int,
                           touched: seq<nat>, log: seq<Movement>, moves: seq<Movement>, slot: Slot, kind: MovementType)
  {
    && Draws(was, order) && Draws(rows, todo) && Stocked(rows, todo, slot)
    && DrawRows(rows, todo, left) == DrawRows(was, order, q)
    && touched + DrawTouched(rows, todo, left) == DrawTouched(was, order, q)
    && moves + DrawMoves(rows, todo, left, kind) == log + DrawMoves(was, order, q, kind)
  }

  lemma UnderwayStep(was: seq<Row>, order: seq<nat>, q: int, rows: seq<Row>, todo: seq<nat>, left: int,
                     touched: seq<nat>, log: seq<Movement>, moves: seq<Movement>, slot: Slot, kind: MovementType)
    requires Underway(was, order, q, rows, todo, left, touched, log, moves, slot, kind) && |todo| > 0 && left > 0
    ensures var o, take := todo[0], Min(rows[todo[0]].quantity, left);
      && 0 < take <= rows[o].quantity && rows[o].slot == slot
      && Underway(was, order, q, Taken(rows, o, take), todo[1..], left - take, touched + [o], log,
                  moves + [Movement(rows[o].slot, rows[o].batch, rows[o].expiry, -take, kind)], slot, kind)
  {
    Round(rows, todo, left, slot, kind);
  }

  /** Everything a successful draw promises about the tables. */
  ghost predicate Drawn(rows: seq<Row>, after: seq<Row>, d: Draw, q: int, touched: seq<nat>, log: seq<Movement>,
                        kind: MovementType)
  {
    && FefoDraw(rows, after, d, q)
    && touched <= FefoOrder(rows, d)
    && DrawLogged(rows, after, touched, log, kind)
  }

  lemma OrderIsStocked(rows: seq<Row>, d: Draw)
    requires NonNegative(rows)
    ensures Draws(rows, FefoOrder(rows, d)) && Stocked(rows, FefoOrder(rows, d), d.slot)
  {
    FefoOrderDraws(rows, d);
    var order := FefoOrder(rows, d);
    assert forall k :: 0 <= k < |order| ==> order[k] in order;
  }

  lemma LoopMeetsSpec(rows: seq<Row>, d: Draw, q: int, kind: MovementType)
    requires NonNegative(rows) && 0 < q <= Available(rows, d)
    requires Draws(rows, FefoOrder(rows, d))
    ensures var order := FefoOrder(rows, d);
      Drawn(rows, DrawRows(rows, order, q), d, q, DrawTouched(rows, order, q), DrawMoves(rows, order, q, kind), kind)
  {
    var order := FefoOrder(rows, d);
    OrderIsStocked(rows, d);
    DrawRowsIsFefo(rows, d, q);
    TouchedIsPrefix(rows, order, q, d.slot, kind);
    DrawIsLogged(rows, order, q, d.slot, kind);
  }

  /** One alert if the product has a level there, someone to tell, and taking `q` brings its total
      from above the level, in thousandths, to at or below it. */
  ghost function AlertsDue(rules: Rules, rows: seq<Row>, slot: Slot, q: int): int
  {
    var total := OnHand(rows, WholeSlot(slot));
    if slot in rules.levels && slot.place in rules.staffed && total > rules.levels[slot] * 1000 >= total - q
    then 1 else 0
  }

  /** The alerts a multi-lot draw raises depend only on the product's total before and after. */
  lemma DrawAlertsOnce(rules: Rules, rows: seq<Row>, after: seq<Row>, moves: seq<Movement>, log: seq<Movement>,
                       d: Draw, q: int, touched: seq<nat>, kind: MovementType)
    requires Drawn(rows, after, d, q, touched, log, kind) && Conserved(rows, moves) && Conserved(after, moves + log)
    ensures OnHand(after, WholeSlot(d.slot)) == OnHand(rows, WholeSlot(d.slot)) - q
    ensures AlertLog(rules, moves) <= AlertLog(rules, moves + log)
    ensures |AlertLog(rules, moves + log)| - |AlertLog(rules, moves)| == AlertsDue(rules, rows, d.slot, q)
  {
    var sc := WholeSlot(d.slot);
    SumSameGap(rows, after, AllQty(), QtyIn(sc));
    forall k | 0 <= k < |log|
      ensures log[k].slot == d.slot && log[k].delta < 0
    {
      assert touched[k] in touched;
    }
    RemovalsAlertOnce(rules, moves, log, d.slot);
    assert OnHand(rows, sc) == Recorded(moves, sc);
    assert OnHand(after, sc) == Recorded(moves + log, sc);
  }

  /** The row has the other's product, place and batch, and this date. */
  ghost predicate IsLotOf(one: Row, other: Row, expiry: Option<int>)
  {
    one.slot == other.slot && one.batch == other.batch && one.expiry == expiry
  }

  /** Another lot already has this row's slot and batch with that expiry. */
  predicate KeyInUse(rows: seq<Row>, i: nat, expiry: Option<int>)
    requires i < |rows|
  {
    exists j :: 0 <= j < |rows| && j != i && Matches(rows[j], rows[i].slot, rows[i].batch, Exactly(expiry))
  }

  // ------------------------------------------- what each call comes to

  /** Only rows of `slot` change or appear, and only movements of `slot` are written. */
  ghost predicate OnlyAt(before: seq<Row>, after: seq<Row>, moves: seq<Movement>, moves': seq<Movement>, slot: Slot)
  {
    && |before| <= |after| && moves <= moves'
    && (forall i :: 0 <= i < |before| && after[i] != before[i] ==> before[i].slot == slot && after[i].slot == slot)
    && (forall i :: |before| <= i < |after| ==> after[i].slot == slot)
    && (forall k :: |moves| <= k < |moves'| ==> moves'[k].slot == slot)
  }

  lemma PostedOnlyAt(rows: seq<Row>, moves: seq<Movement>, i: nat, m: Movement, created: Option<int>)
    requires i <= |rows| && (i < |rows| ==> rows[i].slot == m.slot)
    ensures OnlyAt(rows, Posted(rows, i, m.slot, m.batch, created, m.delta), moves, moves + [m], m.slot)
  {
  }

  lemma DrawnOnlyAt(rows: seq<Row>, after: seq<Row>, moves: seq<Movement>, moves': seq<Movement>, d: Draw, q: int,
                    touched: seq<nat>, kind: MovementType)
    requires moves <= moves' && Drawn(rows, after, d, q, touched, moves'[|moves|..], kind)
    ensures OnlyAt(rows, after, moves, moves', d.slot)
  {
    forall k | |moves| <= k < |moves'|
      ensures moves'[k].slot == d.slot
    {
      assert moves'[k] == moves'[|moves|..][k - |moves|];
      assert touched[k - |moves|] in touched;
    }
  }

  ghost function LotQty(slot: Slot, batch: string, expiry: Option<int>): Row -> int
  {
    (r: Row) => if r.slot == slot && r.batch == batch && r.expiry == expiry then r.quantity else 0
  }

  /** The lot with this key has `q` more than before, and every other lot what it had. */
  ghost predicate OneLotGrew(before: seq<Row>, after: seq<Row>, slot: Slot, batch: string, expiry: Option<int>, q: int)
  {
    forall s, b, e ::
      SumOf(after, LotQty(s, b, e)) == SumOf(before, LotQty(s, b, e)) +
        (if s == slot && b == batch && e == expiry then q else 0)
  }

  lemma ReceiptGrowsOneLot(rows: seq<Row>, slot: Slot, batch: string, expiry: Option<int>, q: int)
    requires UniqueLots(rows)
    ensures OneLotGrew(rows, Received(rows, slot, batch, expiry, q), slot, Strip(batch), expiry, q)
  {
    var i := ReceivedIsPosting(rows, slot, batch, expiry, q);
    forall s, b, e
      ensures SumOf(Received(rows, slot, batch, expiry, q), LotQty(s, b, e)) == SumOf(rows, LotQty(s, b, e)) +
                (if s == slot && b == Strip(batch) && e == expiry then q else 0)
    {
      if i < |rows| {
        SumUpdate(rows, i, rows[i].(quantity := rows[i].quantity + q), LotQty(s, b, e));
      } else {
        SumAppend(rows, Row(slot, Strip(batch), expiry, q), LotQty(s, b, e));
      }
    }
  }

  ghost predicate HasBatch(rows: seq<Row>, slot: Slot, batch: string)
  {
    exists i :: 0 <= i < |rows| && rows[i].slot == slot && rows[i].batch == batch
  }

  /** A correction by batch code succeeds when the code is one lot that can bear it, or no lot
      yet and one may be opened. */
  ghost predicate CanAdjust(rows: seq<Row>, slot: Slot, batch: string, mayOpen: bool, delta: int)
  {
    !SpansLots(rows, slot, batch) &&
    if HasBatch(rows, slot, batch) then OnHand(rows, OneBatch(slot, batch)) + delta >= 0 else mayOpen && delta >= 0
  }

  lemma {:induction false} NoRowNoStock(rows: seq<Row>, slot: Slot, batch: string)
    requires forall i :: 0 <= i < |rows| ==> !(rows[i].slot == slot && rows[i].batch == batch)
    ensures OnHand(rows, OneBatch(slot, batch)) == 0
  {
    if |rows| != 0 {
      NoRowNoStock(rows[..|rows| - 1], slot, batch);
    }
  }

  lemma {:induction false} OneRowIsTheStock(rows: seq<Row>, slot: Slot, batch: string, i: nat)
    requires i < |rows| && rows[i].slot == slot && rows[i].batch == batch
    requires forall j :: 0 <= j < |rows| && rows[j].slot == slot && rows[j].batch == batch ==> j == i
    ensures OnHand(rows, OneBatch(slot, batch)) == rows[i].quantity
  {
    var n := |rows| - 1;
    if i == n {
      NoRowNoStock(rows[..n], slot, batch);
    } else {
      OneRowIsTheStock(rows[..n], slot, batch, i);
    }
  }

  lemma ResolvesWhenItCan(rows: seq<Row>, slot: Slot, batch: string, mayOpen: bool, delta: int)
    ensures Resolve(rows, slot, batch, AnyExpiry, mayOpen, delta).Ok? <==> CanAdjust(rows, slot, batch, mayOpen, delta)
  {
    RefusedWhenBatchSpansLots(rows, slot, batch, mayOpen, delta);
    var item := GetItem(rows, slot, batch, AnyExpiry);
    if item.Found? {
      assert Matches(rows[item.index], slot, batch, AnyExpiry);
      OneRowIsTheStock(rows, slot, batch, item.index);
    } else if HasBatch(rows, slot, batch) {
      var i :| 0 <= i < |rows| && rows[i].slot == slot && rows[i].batch == batch;
      assert Matches(rows[i], slot, batch, AnyExpiry);
    }
  }

  lemma PostedMovesBatch(rows: seq<Row>, i: nat, slot: Slot, batch: string, created: Option<int>, delta: int)
    requires i <= |rows| && (i < |rows| ==> rows[i].slot == slot && rows[i].batch == batch)
    ensures OnHand(Posted(rows, i, slot, batch, created, delta), OneBatch(slot, batch))
            == OnHand(rows, OneBatch(slot, batch)) + delta
  {
    var sc := OneBatch(slot, batch);
    if i < |rows| {
      SumUpdate(rows, i, rows[i].(quantity := rows[i].quantity + delta), QtyIn(sc));
    } else {
      SumAppend(rows, Row(slot, batch, created, delta), QtyIn(sc));
    }
  }

  /** How a correction of one batch code went: it succeeded exactly when it could, and then the
      code's stock moved by `delta`. */
  ghost predicate Corrected(before: seq<Row>, after: seq<Row>, slot: Slot, batch: string, mayOpen: bool, delta: int,
                            ok: bool)
  {
    && (ok <==> CanAdjust(before, slot, batch, mayOpen, delta))
    && (ok ==> OnHand(after, OneBatch(slot, batch)) == OnHand(before, OneBatch(slot, batch)) + delta)
  }

  lemma OutcomeIsCorrection(rows: seq<Row>, after: seq<Row>, guard: Result<Slot, Error>, batch: string, mayOpen: bool,
                            delta: int, res: Result<nat, Error>)
    requires res == Outcome(guard, rows, batch, AnyExpiry, mayOpen, delta)
    requires res.Ok? ==> after == Posted(rows, res.value, guard.value, batch, None, delta)
    ensures guard.Err? ==> res.Err?
    ensures guard.Ok? ==> Corrected(rows, after, guard.value, batch, mayOpen, delta, res.Ok?)
  {
    if guard.Ok? {
      ResolvesWhenItCan(rows, guard.value, batch, mayOpen, delta);
      if res.Ok? {
        PostedMovesBatch(rows, res.value, guard.value, batch, None, delta);
      }
    }
  }

  /** What a dispatch on `today` may take from: the slot's own lots, undated or still in date. */
  ghost function Unexpired(slot: Slot, today: int): Row -> bool
  {
    (r: Row) => r.slot == slot && (r.expiry.None? || today <= r.expiry.value)
  }

  /** What waste may take from: the slot's own lots, expired ones too, of one batch code and of
      one expiry when those are given. */
  ghost function Wastable(slot: Slot, batch: Option<string>, expiry: Option<int>): Row -> bool
  {
    (r: Row) => r.slot == slot && (batch.None? || r.batch == Strip(batch.value)) && (expiry.None? || r.expiry == expiry)
  }

  ghost function QtyWhere(may: Row -> bool): Row -> int
  {
    (r: Row) => if may(r) then r.quantity else 0
  }

  /** Dated before undated, sooner before later, and of equals the older row. */
  ghost predicate Before(i: nat, one: Option<int>, j: nat, two: Option<int>)
  {
    match (one, two)
    case (Some(a), Some(b)) => a < b || (a == b && i < j)
    case (Some(_), None) => true
    case (None, Some(_)) => false
    case (None, None) => i < j
  }

  /** Exactly `q` leaves the eligible rows, in order of expiry, and nothing else changes. */
  ghost predicate TakenInOrder(before: seq<Row>, after: seq<Row>, may: Row -> bool, q: int)
  {
    && |after| == |before|
    && (forall i :: 0 <= i < |before| ==> after[i] == before[i].(quantity := after[i].quantity))
    && (forall i :: 0 <= i < |before| ==> 0 <= after[i].quantity <= before[i].quantity)
    && (forall i :: 0 <= i < |before| && !may(before[i]) ==> after[i] == before[i])
    && SumOf(before, QtyWhere(may)) - SumOf(after, QtyWhere(may)) == q
    && (forall i, j | 0 <= i < |before| && 0 <= j < |before| ::
          may(before[i]) && after[j].quantity < before[j].quantity &&
          Before(i, before[i].expiry, j, before[j].expiry) ==>
          after[i].quantity == 0)
  }

  /** `may` names the rows that `d` draws from, rows that are already empty apart. */
  ghost predicate Names(d: Draw, may: Row -> bool)
  {
    forall r: Row :: Drawable(d, r) <==> may(r) && r.quantity > 0
  }

  lemma {:induction false} AvailableIsNamed(rows: seq<Row>, d: Draw, may: Row -> bool)
    requires NonNegative(rows) && Names(d, may)
    ensures Available(rows, d) == SumOf(rows, QtyWhere(may))
  {
    if |rows| != 0 {
      AvailableIsNamed(rows[..|rows| - 1], d, may);
      assert Drawable(d, rows[|rows| - 1]) <==> may(rows[|rows| - 1]) && rows[|rows| - 1].quantity > 0;
    }
  }

  lemma DrawnIsTakenInOrder(rows: seq<Row>, after: seq<Row>, d: Draw, may: Row -> bool, q: int)
    requires NonNegative(rows) && FefoDraw(rows, after, d, q) && Names(d, may)
    requires forall r: Row, n: int :: may(r) ==> may(r.(quantity := n))
    ensures TakenInOrder(rows, after, may, q)
  {
    forall i | 0 <= i < |rows|
      ensures !may(rows[i]) ==> after[i] == rows[i]
      ensures AllQty()(after[i]) - QtyWhere(may)(after[i]) == AllQty()(rows[i]) - QtyWhere(may)(rows[i])
    {
      assert Drawable(d, rows[i]) <==> may(rows[i]) && rows[i].quantity > 0;
      assert after[i] == rows[i].(quantity := after[i].quantity);
    }
    SumSameGap(rows, after, AllQty(), QtyWhere(may));
    forall i, j | 0 <= i < |rows| && 0 <= j < |rows| && may(rows[i]) && after[j].quantity < rows[j].quantity &&
                  Before(i, rows[i].expiry, j, rows[j].expiry)
      ensures after[i].quantity == 0
    {
      assert Drawable(d, rows[i]) <==> may(rows[i]) && rows[i].quantity > 0;
      assert Drawable(d, rows[j]);
      assert Ahead(rows, i, j);
    }
  }

  lemma DispatchNames(slot: Slot, today: int)
    ensures Names(ForDispatch(slot, today), Unexpired(slot, today))
  {
  }

  lemma WasteNames(slot: Slot, batch: Option<string>, expiry: Option<int>)
    ensures Names(ForWaste(slot, batch, expiry), Wastable(slot, batch, expiry))
  {
  }

  class Ledger {
    const rules: Rules
    const places: set<Place>
    const catalogue: set<(int, int)>
    var rows: seq<Row>
    var movements: seq<Movement>
    var alerts: seq<nat>

    ghost predicate Valid()
      reads this
    {
      Books(rules, rows, movements, alerts)
    }

    constructor (rules: Rules, places: set<Place>, catalogue: set<(int, int)>)
      ensures Valid() && rows == [] && movements == [] && alerts == []
      ensures this.rules == rules && this.places == places && this.catalogue == catalogue
    {
      this.rules, this.places, this.catalogue := rules, places, catalogue;
      rows, movements, alerts := [], [], [];
    }

    /** Tenant, location and product checks, in that order. */
    function Guard(actor: Option<int>, kind: LocationType, locationId: int, product: int): Result<Slot, Error>
    {
      if actor.None? then Err(MissingRestaurant)
      else if Place(actor.value, kind, locationId) !in places then Err(LocationNotFound)
      else if (actor.value, product) !in catalogue then Err(ProductNotFound)
      else Ok(Slot(Place(actor.value, kind, locationId), product))
    }

    /** The caller's restaurant has this place and this product. */
    ghost predicate Known(actor: Option<int>, kind: LocationType, locationId: int, product: int)
    {
      actor.Some? && Place(actor.value, kind, locationId) in places && (actor.value, product) in catalogue
    }

    /** The write itself: the row's new quantity, its movement, and the alert decision. */
    method Book(table: seq<Row>, i: nat, ghost created: Option<int>, movement: Movement)
      requires Valid() && Clean(movement.batch) && i < |table| && table[i].quantity + movement.delta >= 0
      requires i < |rows| ==> table == rows && table[i].slot == movement.slot && table[i].batch == movement.batch
      requires i >= |rows| ==>
                 i == |rows| && table == rows + [Row(movement.slot, movement.batch, created, 0)] &&
                 GetItem(rows, movement.slot, movement.batch, Exactly(created)).Missing?
      modifies this
      ensures Valid()
      ensures rows == Posted(old(rows), i, movement.slot, movement.batch, created, movement.delta)
      ensures movements == old(movements) + [movement]
    {
      var totalBefore := OnHand(table, WholeSlot(movement.slot));
      PostingKeepsBooks(rules, rows, movements, i, created, movement);
      assert totalBefore == OnHand(rows, WholeSlot(movement.slot)) by {
        SumAppend(rows, Row(movement.slot, movement.batch, created, 0), QtyIn(WholeSlot(movement.slot)));
      }
      var quantity := table[i].quantity + movement.delta;
      assert table[i := table[i].(quantity := quantity)] ==
             Posted(rows, i, movement.slot, movement.batch, created, movement.delta);
      rows := table[i := table[i].(quantity := quantity)];
      if movement.delta < 0 && rules.Crossed(movement.slot, totalBefore, totalBefore + movement.delta) {
        alerts := alerts + [|movements|];
      }
      movements := movements + [movement];
    }

    /** Who is asking is checked first, then the place, then the product. */
    lemma GuardRefuses(actor: Option<int>, kind: LocationType, locationId: int, product: int)
      ensures var guard := Guard(actor, kind, locationId, product);
        && (guard.Ok? <==> Known(actor, kind, locationId, product))
        && (guard == Err(MissingRestaurant) <==> actor.None?)
        && (guard == Err(LocationNotFound) <==> actor.Some? && Place(actor.value, kind, locationId) !in places)
        && (guard == Err(ProductNotFound) <==>
              actor.Some? && Place(actor.value, kind, locationId) in places && (actor.value, product) !in catalogue)
    {
    }

    method ApplyDelta(actor: Option<int>, kind: LocationType, locationId: int, product: int, delta: int,
                      movementType: MovementType, batch: Option<string>, expiry: ExpiryFilter,
                      allowCreate: bool, setExpiryOnCreate: bool)
      returns (res: Result<nat, Error>)
      requires Valid() && (allowCreate && !setExpiryOnCreate ==> expiry == AnyExpiry)
      modifies this
      ensures Valid()
      ensures res == Outcome(Guard(actor, kind, locationId, product), old(rows), BatchCode(batch),
                             LookupExpiry(expiry, allowCreate, setExpiryOnCreate), allowCreate, delta)
      ensures res.Err? ==> unchanged(this)
      ensures res.Ok? ==> res.value <= |old(rows)| && res.value < |rows|
      ensures res.Ok? ==>
                rows == Posted(old(rows), res.value, Guard(actor, kind, locationId, product).value, BatchCode(batch),
                               CreateExpiry(expiry, setExpiryOnCreate), delta)
      ensures res.Ok? ==>
                movements == old(movements) +
                  [Movement(Guard(actor, kind, locationId, product).value, BatchCode(batch), rows[res.value].expiry,
                            delta, movementType)]
      ensures res.Ok? ==>
                Known(actor, kind, locationId, product) &&
                OnlyAt(old(rows), rows, old(movements), movements, Slot(Place(actor.value, kind, locationId), product))
      ensures res.Ok? ==>
                Addresses(old(rows), res.value, Slot(Place(actor.value, kind, locationId), product),
                          Strip(if batch.Some? then batch.value else ""), expiry, allowCreate, setExpiryOnCreate)
    {
      var guard := Guard(actor, kind, locationId, product);
      if guard.Err? {
        return Err(guard.error);
      }
      var slot, code := guard.value, BatchCode(batch);
      var created := CreateExpiry(expiry, setExpiryOnCreate);
      var table, found := FindOrCreate(rows, slot, code, LookupExpiry(expiry, allowCreate, setExpiryOnCreate),
                                       allowCreate, created);
      if found.Err? {
        return found;
      }
      var i := found.value;
      var quantity := table[i].quantity + delta;
      if quantity < 0 {
        return Err(Insufficient(-delta, table[i].quantity, code));
      }
      var movement := Movement(slot, code, table[i].expiry, delta, movementType);
      PostedOnlyAt(rows, movements, i, movement, created);
      OutcomeAddresses(rows, slot, code, expiry, allowCreate, setExpiryOnCreate, delta, i);
      Book(table, i, created, movement);
      return Ok(i);
    }

    /** A receipt grows the one lot with its key, or opens it; it is never refused for the
        state of the stock. */
    method ReceiveStock(actor: Option<int>, kind: LocationType, locationId: int, product: int, quantity: int,
                        batch: Option<string>, expiry: Option<int>)
      returns (res: Result<nat, Error>)
      requires Valid()
      modifies this
      ensures Valid()
      ensures quantity <= 0 ==> res == Err(InvalidQuantity)
      ensures quantity > 0 ==>
                (res.Ok? <==> Guard(actor, kind, locationId, product).Ok?) &&
                (res.Err? ==> res.error == Guard(actor, kind, locationId, product).error)
      ensures res.Err? ==> unchanged(this)
      ensures res.Ok? ==> res.value < |rows|
      ensures res.Ok? ==> rows == Received(old(rows), Guard(actor, kind, locationId, product).value,
                                           BatchCode(batch), expiry, quantity)
      ensures res.Ok? ==>
                movements == old(movements) +
                  [Movement(Guard(actor, kind, locationId, product).value, BatchCode(batch), expiry, quantity, Receipt)]
      ensures res.Ok? <==> quantity > 0 && Known(actor, kind, locationId, product)
      ensures res.Ok? ==>
                Known(actor, kind, locationId, product) &&
                OnlyAt(old(rows), rows, old(movements), movements, Slot(Place(actor.value, kind, locationId), product))
      ensures res.Ok? ==> OneLotGrew(old(rows), rows, Slot(Place(actor.value, kind, locationId), product),
                                     Strip(if batch.Some? then batch.value else ""), expiry, quantity)
      ensures res.Ok? ==>
                movements == old(movements) +
                  [Movement(Slot(Place(actor.value, kind, locationId), product),
                            Strip(if batch.Some? then batch.value else ""), expiry, quantity, Receipt)]
    {
      if quantity <= 0 {
        return Err(InvalidQuantity);
      }
      ghost var guard := Guard(actor, kind, locationId, product);
      if guard.Ok? {
        ReceiptResolves(rows, guard.value, BatchCode(batch), expiry, quantity);
        ReceiptGrowsOneLot(rows, guard.value, BatchCode(batch), expiry, quantity);
      }
      res := ApplyDelta(actor, kind, locationId, product, quantity, Receipt, batch, Exactly(expiry), true, true);
    }

    /** A correction of one batch code, looked up without regard to expiry: it is refused
        when the batch spans several lots, and only an increase may open a row. */
    method AdjustStock(actor: Option<int>, kind: LocationType, locationId: int, product: int, delta: int,
                       batch: Option<string>)
      returns (res: Result<nat, Error>)
      requires Valid()
      modifies this
      ensures Valid()
      ensures delta == 0 ==> res == Err(InvalidQuantity)
      ensures delta != 0 ==>
                res == Outcome(Guard(actor, kind, locationId, product), old(rows), BatchCode(batch), AnyExpiry,
                               delta > 0, delta)
      ensures res.Err? ==> unchanged(this)
      ensures res.Ok? ==> res.value <= |old(rows)| && res.value < |rows|
      ensures res.Ok? ==>
                rows == Posted(old(rows), res.value, Guard(actor, kind, locationId, product).value, BatchCode(batch),
                               None, delta)
      ensures res.Ok? ==>
                movements == old(movements) +
                  [Movement(Guard(actor, kind, locationId, product).value, BatchCode(batch), rows[res.value].expiry,
                            delta, Adjustment)]
      ensures !Known(actor, kind, locationId, product) ==> res.Err?
      ensures delta != 0 && Known(actor, kind, locationId, product) ==>
                Corrected(old(rows), rows, Slot(Place(actor.value, kind, locationId), product),
                          Strip(if batch.Some? then batch.value else ""), delta > 0, delta, res.Ok?)
      ensures res.Ok? ==>
                Known(actor, kind, locationId, product) &&
                OnlyAt(old(rows), rows, old(movements), movements, Slot(Place(actor.value, kind, locationId), product))
    {
      if delta == 0 {
        return Err(InvalidQuantity);
      }
      ghost var guard, was := Guard(actor, kind, locationId, product), rows;
      res := ApplyDelta(actor, kind, locationId, product, delta, Adjustment, batch, AnyExpiry, delta > 0, false);
      OutcomeIsCorrection(was, rows, guard, BatchCode(batch), delta > 0, delta, res);
    }

    /** Single-row removal of waste or expired stock, looked up by batch code without regard to expiry. */
    method MarkWasteOrExpiry(actor: Option<int>, kind: LocationType, locationId: int, product: int, quantity: int,
                             movementType: MovementType, batch: Option<string>)
      returns (res: Result<nat, Error>)
      requires Valid()
      modifies this
      ensures Valid()
      ensures movementType !in {Waste, Expiry} ==> res == Err(InvalidMovementType)
      ensures movementType in {Waste, Expiry} && quantity <= 0 ==> res == Err(InvalidQuantity)
      ensures movementType in {Waste, Expiry} && quantity > 0 ==>
                res == Outcome(Guard(actor, kind, locationId, product), old(rows), BatchCode(batch), AnyExpiry, false,
                               -quantity)
      ensures res.Err? ==> unchanged(this)
      ensures res.Ok? ==> res.value < |old(rows)| == |rows|
      ensures res.Ok? ==>
                rows == Taken(old(rows), res.value, quantity)
      ensures res.Ok? ==>
                movements == old(movements) +
                  [Movement(Guard(actor, kind, locationId, product).value, BatchCode(batch), rows[res.value].expiry,
                            -quantity, movementType)]
      ensures !Known(actor, kind, locationId, product) ==> res.Err?
      ensures movementType in {Waste, Expiry} && quantity > 0 && Known(actor, kind, locationId, product) ==>
                Corrected(old(rows), rows, Slot(Place(actor.value, kind, locationId), product),
                          Strip(if batch.Some? then batch.value else ""), false, -quantity, res.Ok?)
      ensures res.Ok? ==>
                Known(actor, kind, locationId, product) &&
                OnlyAt(old(rows), rows, old(movements), movements, Slot(Place(actor.value, kind, locationId), product))
    {
      if movementType !in {Waste, Expiry} {
        return Err(InvalidMovementType);
      }
      if quantity <= 0 {
        return Err(InvalidQuantity);
      }
      ghost var guard, was := Guard(actor, kind, locationId, product), rows;
      res := ApplyDelta(actor, kind, locationId, product, -quantity, movementType, batch, AnyExpiry, false, false);
      OutcomeIsCorrection(was, rows, guard, BatchCode(batch), false, -quantity, res);
    }

    /** The loop shared by dispatch and waste: walk the selected lots, looking each one up
        again by its own key, until nothing remains to take. */
    method DrawFefo(actor: Option<int>, kind: LocationType, locationId: int, product: int, ghost slot: Slot,
                    order: seq<nat>, quantity: int, movementType: MovementType)
      returns (touched: seq<nat>)
      requires Valid() && Guard(actor, kind, locationId, product) == Ok(slot)
      requires Draws(rows, order) && Stocked(rows, order, slot)
      modifies this
      ensures Valid()
      ensures forall k :: 0 <= k < |order| ==> order[k] < |old(rows)|
      ensures rows == DrawRows(old(rows), order, quantity)
      ensures touched == DrawTouched(old(rows), order, quantity)
      ensures movements == old(movements) + DrawMoves(old(rows), order, quantity, movementType)
    {
      touched := [];
      var remaining, todo := quantity, order;
      while |todo| > 0 && remaining > 0
        invariant Valid()
        invariant Underway(old(rows), order, quantity, rows, todo, remaining, touched, old(movements), movements, slot,
                           movementType)
        decreases |todo|
      {
        UnderwayStep(old(rows), order, quantity, rows, todo, remaining, touched, old(movements), movements, slot,
                     movementType);
        var take := Min(rows[todo[0]].quantity, remaining);
        var item := TakeFrom(actor, kind, locationId, product, todo[0], take, movementType);
        touched, remaining, todo := touched + [item], remaining - take, todo[1..];
      }
    }

    /** One round: the row is looked up again by its own batch code and expiry, and the
        lookup lands on the row that was selected. */
    method TakeFrom(actor: Option<int>, kind: LocationType, locationId: int, product: int, o: nat, take: int,
                    movementType: MovementType)
      returns (item: nat)
      requires Valid() && o < |rows| && 0 < take <= rows[o].quantity
      requires Guard(actor, kind, locationId, product) == Ok(rows[o].slot)
      modifies this
      ensures Valid() && item == o
      ensures rows == Taken(old(rows), o, take)
      ensures movements == old(movements) +
              [Movement(old(rows)[o].slot, old(rows)[o].batch, old(rows)[o].expiry, -take, movementType)]
    {
      ReLookupFindsSameRow(rows, o);
      var res := ApplyDelta(actor, kind, locationId, product, -take, movementType,
                            if rows[o].batch == "" then None else Some(rows[o].batch),
                            Exactly(rows[o].expiry), false, false);
      item := res.value;
    }

    /** Select, total, refuse or draw: the part dispatch and waste have in common. */
    method SelectAndDraw(actor: Option<int>, kind: LocationType, locationId: int, product: int, d: Draw,
                         quantity: int, movementType: MovementType)
      returns (res: Result<seq<nat>, Error>)
      requires Valid() && quantity > 0 && Guard(actor, kind, locationId, product) == Ok(d.slot)
      modifies this
      ensures Valid()
      ensures res.Ok? <==> Available(old(rows), d) >= quantity
      ensures res.Err? ==> res.error == Insufficient(quantity, Available(old(rows), d), "") && unchanged(this)
      ensures res.Ok? ==> old(movements) <= movements
      ensures res.Ok? ==> Drawn(old(rows), rows, d, quantity, res.value, movements[|old(movements)|..], movementType)
      ensures res.Ok? ==> old(alerts) <= alerts
      ensures res.Ok? ==> |alerts| - |old(alerts)| == AlertsDue(rules, old(rows), d.slot, quantity)
      ensures res.Ok? ==> OnlyAt(old(rows), rows, old(movements), movements, d.slot)
    {
      var order := FefoOrder(rows, d);
      var available := SumOf(order, QtyAt(rows));
      OrderSumIsAvailable(rows, d);
      if available < quantity {
        return Err(Insufficient(quantity, available, ""));
      }
      OrderIsStocked(rows, d);
      LoopMeetsSpec(rows, d, quantity, movementType);
      ghost var was, log, raised := rows, movements, alerts;
      var touched := DrawFefo(actor, kind, locationId, product, d.slot, order, quantity, movementType);
      ghost var added := DrawMoves(was, order, quantity, movementType);
      assert movements == log + added;
      assert movements[|log|..] == added;
      DrawAlertsOnce(rules, was, rows, log, added, d, quantity, touched, movementType);
      DrawnOnlyAt(was, rows, log, movements, d, quantity, touched, movementType);
      return Ok(touched);
    }

    /** Dispatch `quantity` across a product's unexpired lots, soonest expiry first. It
        succeeds exactly when that much is available for dispatch on the day. */
    method DispatchFefo(actor: Option<int>, kind: LocationType, locationId: int, product: int, quantity: int,
                        today: int)
      returns (res: Result<seq<nat>, Error>)
      requires Valid()
      modifies this
      ensures Valid()
      ensures quantity <= 0 ==> res == Err(InvalidQuantity)
      ensures quantity > 0 && Guard(actor, kind, locationId, product).Err? ==>
                res == Err(Guard(actor, kind, locationId, product).error)
      ensures res.Err? ==> unchanged(this)
      ensures quantity > 0 && Guard(actor, kind, locationId, product).Ok? ==>
                var d := ForDispatch(Guard(actor, kind, locationId, product).value, today);
                && (res.Ok? <==> Available(old(rows), d) >= quantity)
                && (res.Err? ==> res.error == Insufficient(quantity, Available(old(rows), d), ""))
                && (res.Ok? ==> old(movements) <= movements &&
                                Drawn(old(rows), rows, d, quantity, res.value, movements[|old(movements)|..], Dispatch))
                && (res.Ok? ==> |alerts| - |old(alerts)| == AlertsDue(rules, old(rows), d.slot, quantity))
      ensures res.Ok? <==>
                quantity > 0 && Known(actor, kind, locationId, product) &&
                SumOf(old(rows), QtyWhere(Unexpired(Slot(Place(actor.value, kind, locationId), product),
                                                    today))) >= quantity
      ensures res.Ok? ==>
                TakenInOrder(old(rows), rows, Unexpired(Slot(Place(actor.value, kind, locationId), product), today),
                             quantity)
                && OnlyAt(old(rows), rows, old(movements), movements,
                          Slot(Place(actor.value, kind, locationId), product))
    {
      if quantity <= 0 {
        return Err(InvalidQuantity);
      }
      var guard := Guard(actor, kind, locationId, product);
      if guard.Err? {
        return Err(guard.error);
      }
      ghost var may, was := Unexpired(guard.value, today), rows;
      DispatchNames(guard.value, today);
      AvailableIsNamed(was, ForDispatch(guard.value, today), may);
      res := SelectAndDraw(actor, kind, locationId, product, ForDispatch(guard.value, today), quantity, Dispatch);
      if res.Ok? {
        DrawnIsTakenInOrder(was, rows, ForDispatch(guard.value, today), may, quantity);
      }
    }

    /** A sale is a dispatch from branch stock; the batch code it is given is ignored. */
    method ApplySaleDeduction(actor: Option<int>, branchId: int, product: int, quantity: int, batch: Option<string>,
                              today: int)
      returns (res: Result<seq<nat>, Error>)
      requires Valid()
      modifies this
      ensures Valid()
      ensures quantity <= 0 ==> res == Err(InvalidQuantity)
      ensures quantity > 0 && Guard(actor, Branch, branchId, product).Err? ==>
                res == Err(Guard(actor, Branch, branchId, product).error)
      ensures res.Err? ==> unchanged(this)
      ensures quantity > 0 && Guard(actor, Branch, branchId, product).Ok? ==>
                var d := ForDispatch(Guard(actor, Branch, branchId, product).value, today);
                && (res.Ok? <==> Available(old(rows), d) >= quantity)
                && (res.Err? ==> res.error == Insufficient(quantity, Available(old(rows), d), ""))
                && (res.Ok? ==> old(movements) <= movements &&
                                Drawn(old(rows), rows, d, quantity, res.value, movements[|old(movements)|..], Dispatch))
                && (res.Ok? ==> |alerts| - |old(alerts)| == AlertsDue(rules, old(rows), d.slot, quantity))
      ensures res.Ok? <==>
                quantity > 0 && Known(actor, Branch, branchId, product) &&
                SumOf(old(rows), QtyWhere(Unexpired(Slot(Place(actor.value, Branch, branchId), product),
                                                    today))) >= quantity
      ensures res.Ok? ==>
                TakenInOrder(old(rows), rows, Unexpired(Slot(Place(actor.value, Branch, branchId), product), today),
                             quantity)
                && OnlyAt(old(rows), rows, old(movements), movements,
                          Slot(Place(actor.value, Branch, branchId), product))
    {
      res := DispatchFefo(actor, Branch, branchId, product, quantity, today);
    }

    /** Waste across lots, expired ones included, optionally pinned to a batch or an expiry. */
    method WasteFefo(actor: Option<int>, kind: LocationType, locationId: int, product: int, quantity: int,
                     movementType: MovementType, batch: Option<string>, expiry: Option<int>)
      returns (res: Result<seq<nat>, Error>)
      requires Valid()
      modifies this
      ensures Valid()
      ensures movementType !in {Waste, Expiry} ==> res == Err(InvalidMovementType)
      ensures movementType in {Waste, Expiry} && quantity <= 0 ==> res == Err(InvalidQuantity)
      ensures movementType in {Waste, Expiry} && quantity > 0 && Guard(actor, kind, locationId, product).Err? ==>
                res == Err(Guard(actor, kind, locationId, product).error)
      ensures res.Err? ==> unchanged(this)
      ensures movementType in {Waste, Expiry} && quantity > 0 && Guard(actor, kind, locationId, product).Ok? ==>
                var d := ForWaste(Guard(actor, kind, locationId, product).value, batch, expiry);
                && (res.Ok? <==> Available(old(rows), d) >= quantity)
                && (res.Err? ==> res.error == Insufficient(quantity, Available(old(rows), d), ""))
                && (res.Ok? ==> old(movements) <= movements &&
                                Drawn(old(rows), rows, d, quantity, res.value, movements[|old(movements)|..],
                                      movementType))
                && (res.Ok? ==> |alerts| - |old(alerts)| == AlertsDue(rules, old(rows), d.slot, quantity))
      ensures res.Ok? <==>
                movementType in {Waste, Expiry} && quantity > 0 && Known(actor, kind, locationId, product) &&
                SumOf(old(rows), QtyWhere(Wastable(Slot(Place(actor.value, kind, locationId), product), batch,
                                                   expiry))) >= quantity
      ensures res.Ok? ==>
                TakenInOrder(old(rows), rows,
                             Wastable(Slot(Place(actor.value, kind, locationId), product), batch, expiry), quantity)
                && OnlyAt(old(rows), rows, old(movements), movements,
                          Slot(Place(actor.value, kind, locationId), product))
    {
      if movementType !in {Waste, Expiry} {
        return Err(InvalidMovementType);
      }
      if quantity <= 0 {
        return Err(InvalidQuantity);
      }
      var guard := Guard(actor, kind, locationId, product);
      if guard.Err? {
        return Err(guard.error);
      }
      ghost var may, was := Wastable(guard.value, batch, expiry), rows;
      WasteNames(guard.value, batch, expiry);
      AvailableIsNamed(was, ForWaste(guard.value, batch, expiry), may);
      res := SelectAndDraw(actor, kind, locationId, product, ForWaste(guard.value, batch, expiry), quantity,
                           movementType);
      if res.Ok? {
        DrawnIsTakenInOrder(was, rows, ForWaste(guard.value, batch, expiry), may, quantity);
      }
    }

    /** Re-date one row of the caller's own place. No movement is written; a date that
        would duplicate another lot's key is refused by the unique index. */
    method UpdateExpiry(place: Place, itemId: nat, expiry: Option<int>) returns (res: Result<nat, Error>)
      requires Valid()
      modifies this
      ensures Valid()
      ensures res.Err? ==> unchanged(this)
      ensures res == if itemId >= |old(rows)| || old(rows)[itemId].slot.place != place then Err(ItemNotFound)
                     else if KeyInUse(old(rows), itemId, expiry) then Err(DuplicateLot) else Ok(itemId)
      ensures res == Err(DuplicateLot) <==>
                itemId < |old(rows)| && old(rows)[itemId].slot.place == place &&
                exists j :: 0 <= j < |old(rows)| && j != itemId && IsLotOf(old(rows)[j], old(rows)[itemId], expiry)
      ensures res.Ok? ==> rows == old(rows)[itemId := old(rows)[itemId].(expiry := expiry)]
      ensures movements == old(movements) && alerts == old(alerts)
    {
      if itemId >= |rows| || rows[itemId].slot.place != place {
        return Err(ItemNotFound);
      }
      if KeyInUse(rows, itemId, expiry) {
        return Err(DuplicateLot);
      }
      RedatingConserves(rows, movements, itemId, expiry);
      rows := rows[itemId := rows[itemId].(expiry := expiry)];
      return Ok(itemId);
    }
  }
}
