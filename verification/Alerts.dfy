/** Low-stock alerts, read off the movement log: they fire on the crossing and nowhere else. */
module Alerts {
  import opened Prelude
  import opened Stock

  /** Reorder levels in whole units, and the places with an active manager to tell. */
  datatype Rules = Rules(levels: map<Slot, int>, staffed: set<Place>) {

    predicate Watches(slot: Slot) { slot in levels && slot.place in staffed }

    /** The level on the ledger's scale of thousandths. */
    function Level(slot: Slot): int
      requires Watches(slot)
    {
      levels[slot] * 1000
    }

    /** `before > level >= after`. */
    predicate Crossed(slot: Slot, before: int, after: int)
    {
      Watches(slot) && before > Level(slot) >= after
    }
  }

  function TotalAt(moves: seq<Movement>, k: nat, slot: Slot): int
    requires k <= |moves|
  {
    Recorded(moves[..k], WholeSlot(slot))
  }

  /** Does writing the k-th movement raise an alert? */
  predicate Fires(rules: Rules, moves: seq<Movement>, k: nat)
    requires k < |moves|
  {
    moves[k].delta < 0 &&
    rules.Crossed(moves[k].slot, TotalAt(moves, k, moves[k].slot), TotalAt(moves, k, moves[k].slot) + moves[k].delta)
  }

  /** The movements that raised an alert, oldest first. */
  function AlertLog(rules: Rules, moves: seq<Movement>): (r: seq<nat>)
  {
    if |moves| == 0 then []
    else
      var n := |moves| - 1;
      AlertLog(rules, moves[..n]) + (if Fires(rules, moves, n) then [n] else [])
  }

  lemma AlertLogAppend(rules: Rules, moves: seq<Movement>, m: Movement)
    ensures AlertLog(rules, moves + [m])
         == AlertLog(rules, moves) + (if Fires(rules, moves + [m], |moves|) then [|moves|] else [])
    ensures TotalAt(moves + [m], |moves|, m.slot) == Recorded(moves, WholeSlot(m.slot))
  {
    assert (moves + [m])[..|moves|] == moves;
  }

  /** The k-th movement is a removal that takes its product's total, at a place with a level for it
      and someone to tell, from above the level, in thousandths, to at or below it. */
  ghost predicate CrossesDown(rules: Rules, moves: seq<Movement>, k: nat)
    requires k < |moves|
  {
    var slot, before := moves[k].slot, SumOf(moves[..k], DeltaIn(WholeSlot(moves[k].slot)));
    moves[k].delta < 0 && slot in rules.levels && slot.place in rules.staffed &&
    before > rules.levels[slot] * 1000 >= before + moves[k].delta
  }

  /** The log holds exactly the movements that cross a level downward, in order. */
  lemma AlertLogIsExact(rules: Rules, moves: seq<Movement>)
    ensures forall k: nat :: k in AlertLog(rules, moves) <==> k < |moves| && CrossesDown(rules, moves, k)
    ensures forall a, b :: 0 <= a < b < |AlertLog(rules, moves)| ==>
              AlertLog(rules, moves)[a] < AlertLog(rules, moves)[b]
  {
    AlertLogIsWhatFires(rules, moves);
    forall k: nat | k < |moves|
      ensures Fires(rules, moves, k) == CrossesDown(rules, moves, k)
    {
    }
  }

  lemma {:induction false} AlertLogIsWhatFires(rules: Rules, moves: seq<Movement>)
    ensures forall k: nat :: k in AlertLog(rules, moves) <==> k < |moves| && Fires(rules, moves, k)
    ensures forall a, b :: 0 <= a < b < |AlertLog(rules, moves)| ==>
              AlertLog(rules, moves)[a] < AlertLog(rules, moves)[b]
  {
    if |moves| != 0 {
      var n := |moves| - 1;
      AlertLogIsWhatFires(rules, moves[..n]);
      forall k: nat | k < n
        ensures Fires(rules, moves[..n], k) == Fires(rules, moves, k)
      {
        assert moves[..n][..k] == moves[..k];
      }
      var before := AlertLog(rules, moves[..n]);
      assert forall a :: 0 <= a < |before| ==> before[a] in before;
    }
  }

  lemma TotalStep(moves: seq<Movement>, k: nat, slot: Slot)
    requires k < |moves|
    ensures TotalAt(moves, k + 1, slot)
            == TotalAt(moves, k, slot) + (if moves[k].slot == slot then moves[k].delta else 0)
  {
    assert moves[..k + 1] == moves[..k] + [moves[k]];
    SumAppend(moves[..k], moves[k], DeltaIn(WholeSlot(slot)));
  }

  // Going from at or below a level to above it takes a positive movement that lands above it.
  lemma {:induction false} RiseNeedsReceipt(moves: seq<Movement>, slot: Slot, level: int, first: nat, last: nat)
    returns (k: nat)
    requires first <= last <= |moves|
    requires TotalAt(moves, first, slot) <= level < TotalAt(moves, last, slot)
    ensures first <= k < last && moves[k].slot == slot && moves[k].delta > 0 && TotalAt(moves, k + 1, slot) > level
    decreases last
  {
    TotalStep(moves, last - 1, slot);
    if TotalAt(moves, last - 1, slot) > level {
      k := RiseNeedsReceipt(moves, slot, level, first, last - 1);
    } else {
      k := last - 1;
    }
  }

  /** Between any two alerts for a product at a place, some positive movement has taken
      its total back above the level. */
  lemma AlertsAreEdgeTriggered(rules: Rules, moves: seq<Movement>, i: nat, j: nat) returns (k: nat)
    requires i in AlertLog(rules, moves) && j in AlertLog(rules, moves) && i < j
    requires j < |moves| && moves[i].slot == moves[j].slot
    ensures i < k < j && moves[k].slot == moves[i].slot && moves[k].delta > 0
    ensures rules.Watches(moves[i].slot) && TotalAt(moves, k + 1, moves[i].slot) > rules.Level(moves[i].slot)
  {
    AlertLogIsExact(rules, moves);
    var slot := moves[i].slot;
    TotalStep(moves, i, slot);
    k := RiseNeedsReceipt(moves, slot, rules.Level(slot), i + 1, j);
  }

  /** A run of removals of one product at one place raises one alert if it takes the total
      from above the level to at or below it, and otherwise none, however many lots it spans. */
  lemma {:induction false} RemovalsAlertOnce(rules: Rules, moves: seq<Movement>, extra: seq<Movement>, slot: Slot)
    requires forall k :: 0 <= k < |extra| ==> extra[k].slot == slot && extra[k].delta < 0
    ensures Recorded(moves + extra, WholeSlot(slot)) <= Recorded(moves, WholeSlot(slot))
    ensures AlertLog(rules, moves) <= AlertLog(rules, moves + extra)
    ensures |AlertLog(rules, moves + extra)| - |AlertLog(rules, moves)|
         == if rules.Crossed(slot, Recorded(moves, WholeSlot(slot)),
                             Recorded(moves + extra, WholeSlot(slot))) then 1 else 0
  {
    if |extra| == 0 {
      assert moves + extra == moves;
    } else {
      var n := |extra| - 1;
      var most := moves + extra[..n];
      RemovalsAlertOnce(rules, moves, extra[..n], slot);
      assert moves + extra == most + [extra[n]];
      AlertLogAppend(rules, most, extra[n]);
      SumAppend(most, extra[n], DeltaIn(WholeSlot(slot)));
    }
  }
}
