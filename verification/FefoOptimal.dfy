/** First-expired-first-out is optimal over whole timelines: whenever some policy for
    picking unexpired lots serves every dispatch of a timeline, FEFO serves them too. */
module FefoOptimal {
  import opened Prelude
  import opened Stock

  datatype Event =
    | Receive(day: int, slot: Slot, batch: string, expiry: Option<int>, quantity: int)
    | Ship(day: int, slot: Slot, quantity: int)

  ghost predicate Timeline(events: seq<Event>)
  {
    && (forall k :: 0 <= k < |events| ==> events[k].quantity > 0)
    && (forall j, k :: 0 <= j < k < |events| ==> events[j].day <= events[k].day)
  }

  ghost predicate RivalStep(rows: seq<Row>, after: seq<Row>, e: Event)
  {
    match e
    case Receive(_, slot, batch, expiry, q) => after == Received(rows, slot, batch, expiry, q)
    case Ship(day, slot, q) => AnyDraw(rows, after, ForDispatch(slot, day), q)
  }

  ghost predicate FefoStep(rows: seq<Row>, after: seq<Row>, e: Event)
  {
    match e
    case Receive(_, slot, batch, expiry, q) => after == Received(rows, slot, batch, expiry, q)
    case Ship(day, slot, q) => FefoDraw(rows, after, ForDispatch(slot, day), q)
  }

  /** States before, between and after the events, every dispatch served in full. */
  ghost predicate RivalRun(events: seq<Event>, states: seq<seq<Row>>)
  {
    |states| == |events| + 1 && forall k :: 0 <= k < |events| ==> RivalStep(states[k], states[k + 1], events[k])
  }

  ghost predicate FefoRun(events: seq<Event>, states: seq<seq<Row>>)
  {
    |states| == |events| + 1 && forall k :: 0 <= k < |events| ==> FefoStep(states[k], states[k + 1], events[k])
  }

  /** Stock of a slot that a dispatch on `day` could still use. */
  function UsableAt(rows: seq<Row>, slot: Slot, day: int): int
  {
    Available(rows, ForDispatch(slot, day))
  }

  /** At every date from `day` on, `rows` can still use at least what `other` can. */
  ghost predicate Dominates(rows: seq<Row>, other: seq<Row>, day: int)
  {
    forall slot, d | day <= d :: UsableAt(rows, slot, d) >= UsableAt(other, slot, d)
  }

  lemma ReceiptAddsUsable(rows: seq<Row>, e: Event, slot: Slot, d: int)
    requires Sound(rows) && e.Receive? && e.quantity > 0
    ensures UsableAt(Received(rows, e.slot, e.batch, e.expiry, e.quantity), slot, d)
         == UsableAt(rows, slot, d)
            + (if slot == e.slot && (e.expiry.None? || e.expiry.value >= d) then e.quantity else 0)
  {
    var i := ReceivedIsPosting(rows, e.slot, e.batch, e.expiry, e.quantity);
    var f := DrawableQty(ForDispatch(slot, d));
    if i < |rows| {
      SumUpdate(rows, i, rows[i].(quantity := rows[i].quantity + e.quantity), f);
    } else {
      SumAppend(rows, Row(e.slot, Strip(e.batch), e.expiry, e.quantity), f);
    }
  }

  /** A draw leaves other slots alone and takes exactly `q` of what was usable that day. */
  lemma DrawTakesUsable(rows: seq<Row>, after: seq<Row>, slot: Slot, today: int, q: int)
    requires NonNegative(rows) && AnyDraw(rows, after, ForDispatch(slot, today), q)
    ensures UsableAt(after, slot, today) == UsableAt(rows, slot, today) - q
    ensures forall other, d | other != slot :: UsableAt(after, other, d) == UsableAt(rows, other, d)
  {
    SumSameGap(rows, after, AllQty(), DrawableQty(ForDispatch(slot, today)));
    forall other, d | other != slot
      ensures UsableAt(after, other, d) == UsableAt(rows, other, d)
    {
      SumEqual(after, rows, DrawableQty(ForDispatch(other, d)), DrawableQty(ForDispatch(other, d)));
    }
  }

  /** Whatever a policy picks, it cannot keep more for a later date than this. */
  lemma AnyDrawKeepsAtMost(rows: seq<Row>, after: seq<Row>, slot: Slot, today: int, q: int, d: int)
    requires NonNegative(rows) && AnyDraw(rows, after, ForDispatch(slot, today), q) && today <= d
    ensures UsableAt(after, slot, d) <= Min(UsableAt(rows, slot, d), UsableAt(rows, slot, today) - q)
  {
    DrawTakesUsable(rows, after, slot, today, q);
    var f := DrawableQty(ForDispatch(slot, d));
    SumAtMost(after, rows, f, f);
    SumAtMost(after, after, f, DrawableQty(ForDispatch(slot, today)));
  }

  /** FEFO keeps exactly that much: either nothing usable at `d` was touched, or
      everything that would have expired before `d` is gone. */
  lemma FefoKeepsExactly(rows: seq<Row>, after: seq<Row>, slot: Slot, today: int, q: int, d: int)
    requires NonNegative(rows) && FefoDraw(rows, after, ForDispatch(slot, today), q) && today <= d
    ensures UsableAt(after, slot, d) == Min(UsableAt(rows, slot, d), UsableAt(rows, slot, today) - q)
  {
    AnyDrawKeepsAtMost(rows, after, slot, today, q, d);
    DrawTakesUsable(rows, after, slot, today, q);
    var now, later := ForDispatch(slot, today), ForDispatch(slot, d);
    if j: nat :| j < |rows| && Drawable(later, rows[j]) && after[j].quantity < rows[j].quantity {
      forall i | 0 <= i < |rows|
        ensures DrawableQty(later)(after[i]) == DrawableQty(now)(after[i])
      {
        if Drawable(now, rows[i]) && !Drawable(later, rows[i]) {
          assert Ahead(rows, i, j);
        }
      }
      SumEqual(after, after, DrawableQty(later), DrawableQty(now));
    } else {
      SumEqual(after, rows, DrawableQty(later), DrawableQty(later));
    }
  }

  lemma DrawSound(rows: seq<Row>, after: seq<Row>, d: Draw, q: int)
    requires Sound(rows) && AnyDraw(rows, after, d, q)
    ensures Sound(after)
  {
  }

  lemma StepKeepsDominance(fefo: seq<Row>, fefo': seq<Row>, rival: seq<Row>, rival': seq<Row>, e: Event)
    requires Sound(fefo) && Sound(rival) && e.quantity > 0
    requires FefoStep(fefo, fefo', e) && RivalStep(rival, rival', e)
    requires Dominates(fefo, rival, e.day)
    ensures Sound(fefo') && Sound(rival') && Dominates(fefo', rival', e.day)
  {
    if e.Receive? {
      ReceivedSound(fefo, e.slot, e.batch, e.expiry, e.quantity);
      ReceivedSound(rival, e.slot, e.batch, e.expiry, e.quantity);
    } else {
      DrawSound(fefo, fefo', ForDispatch(e.slot, e.day), e.quantity);
      DrawSound(rival, rival', ForDispatch(e.slot, e.day), e.quantity);
    }
    forall slot, d | e.day <= d
      ensures UsableAt(fefo', slot, d) >= UsableAt(rival', slot, d)
    {
      assert UsableAt(fefo, slot, d) >= UsableAt(rival, slot, d);
      if e.Receive? {
        ReceiptAddsUsable(fefo, e, slot, d);
        ReceiptAddsUsable(rival, e, slot, d);
      } else if slot == e.slot {
        assert UsableAt(fefo, slot, e.day) >= UsableAt(rival, slot, e.day);
        FefoKeepsExactly(fefo, fefo', slot, e.day, e.quantity, d);
        AnyDrawKeepsAtMost(rival, rival', slot, e.day, e.quantity, d);
      } else {
        DrawTakesUsable(fefo, fefo', e.slot, e.day, e.quantity);
        DrawTakesUsable(rival, rival', e.slot, e.day, e.quantity);
      }
    }
  }

  /** A dispatch that the rival can serve, FEFO can serve. */
  lemma FefoCanStep(fefo: seq<Row>, rival: seq<Row>, rival': seq<Row>, e: Event) returns (fefo': seq<Row>)
    requires Sound(fefo) && Sound(rival) && e.quantity > 0
    requires RivalStep(rival, rival', e) && Dominates(fefo, rival, e.day)
    ensures FefoStep(fefo, fefo', e)
  {
    match e
    case Receive(_, slot, batch, expiry, q) =>
      fefo' := Received(fefo, slot, batch, expiry, q);
    case Ship(day, slot, q) =>
      AnyDrawKeepsAtMost(rival, rival', slot, day, q, day);
      UsableIsNonNegative(rival', slot, day);
      assert UsableAt(fefo, slot, day) >= UsableAt(rival, slot, day);
      FefoOrderDraws(fefo, ForDispatch(slot, day));
      DrawRowsIsFefo(fefo, ForDispatch(slot, day), q);
      fefo' := DrawRows(fefo, FefoOrder(fefo, ForDispatch(slot, day)), q);
  }

  lemma {:induction false} UsableIsNonNegative(rows: seq<Row>, slot: Slot, day: int)
    ensures UsableAt(rows, slot, day) >= 0
  {
    if |rows| != 0 {
      UsableIsNonNegative(rows[..|rows| - 1], slot, day);
    }
  }

  lemma DominatesFromLaterDay(rows: seq<Row>, other: seq<Row>, day: int, later: int)
    requires Dominates(rows, other, day) && day <= later
    ensures Dominates(rows, other, later)
  {
  }

  lemma RunPrefix(events: seq<Event>, states: seq<seq<Row>>, n: nat)
    requires RivalRun(events, states) && n <= |events|
    ensures RivalRun(events[..n], states[..n + 1])
  {
  }

  lemma RunExtend(events: seq<Event>, states: seq<seq<Row>>, last: seq<Row>)
    requires |events| > 0 && FefoRun(events[..|events| - 1], states)
    requires FefoStep(states[|events| - 1], last, events[|events| - 1])
    ensures FefoRun(events, states + [last])
  {
  }

  /** The theorem. From the same sound stock, if the rival's run serves every dispatch
      of the timeline then so does FEFO's, and FEFO ends dominating the rival. */
  lemma {:induction false} FefoServesWheneverAnyPolicyDoes(events: seq<Event>, rival: seq<seq<Row>>)
    returns (fefo: seq<seq<Row>>)
    requires Timeline(events) && RivalRun(events, rival) && Sound(rival[0])
    ensures FefoRun(events, fefo) && fefo[0] == rival[0]
    ensures Sound(fefo[|events|]) && Sound(rival[|events|])
    ensures |events| > 0 ==> Dominates(fefo[|events|], rival[|events|], events[|events| - 1].day)
  {
    if |events| == 0 {
      return rival;
    }
    var n := |events| - 1;
    var e := events[n];
    RunPrefix(events, rival, n);
    var prefix := FefoServesWheneverAnyPolicyDoes(events[..n], rival[..n + 1]);
    assert Dominates(prefix[n], rival[n], e.day) by {
      if n > 0 {
        DominatesFromLaterDay(prefix[n], rival[n], events[n - 1].day, e.day);
      }
    }
    var last := FefoCanStep(prefix[n], rival[n], rival[n + 1], e);
    StepKeepsDominance(prefix[n], last, rival[n], rival[n + 1], e);
    RunExtend(events, prefix, last);
    fefo := prefix + [last];
  }

  // -------------------------------------------------- the ledger's own run

  /** The events and the starting stock leave one earliest-expiry-first run, so the ledger's,
      call by call, is the theorem's. */
  lemma {:induction false} FefoRunUnique(events: seq<Event>, one: seq<seq<Row>>, two: seq<seq<Row>>, k: nat)
    requires FefoRun(events, one) && FefoRun(events, two) && one[0] == two[0] && k <= |events|
    ensures one[k] == two[k]
  {
    if k > 0 {
      FefoRunUnique(events, one, two, k - 1);
      var e := events[k - 1];
      assert FefoStep(one[k - 1], one[k], e) && FefoStep(two[k - 1], two[k], e);
      if e.Ship? {
        FefoDrawUnique(one[k - 1], one[k], two[k], ForDispatch(e.slot, e.day), e.quantity);
      }
    }
  }

  lemma {:induction false} FefoRunSound(events: seq<Event>, states: seq<seq<Row>>, k: nat)
    requires FefoRun(events, states) && Timeline(events) && Sound(states[0]) && k <= |events|
    ensures Sound(states[k])
  {
    if k > 0 {
      FefoRunSound(events, states, k - 1);
      var e := events[k - 1];
      assert FefoStep(states[k - 1], states[k], e);
      if e.Receive? {
        ReceivedSound(states[k - 1], e.slot, e.batch, e.expiry, e.quantity);
      } else {
        DrawSound(states[k - 1], states[k], ForDispatch(e.slot, e.day), e.quantity);
      }
    }
  }

  /** However far the ledger has come through a timeline that some policy can serve, its next
      dispatch finds enough: what it must ship is available for dispatch on the day. */
  lemma LedgerIsNeverShort(events: seq<Event>, rival: seq<seq<Row>>, states: seq<seq<Row>>, k: nat)
    requires Timeline(events) && RivalRun(events, rival) && Sound(rival[0])
    requires k < |events| && FefoRun(events[..k], states) && states[0] == rival[0] && events[k].Ship?
    ensures Available(states[k], ForDispatch(events[k].slot, events[k].day)) >= events[k].quantity
  {
    var e := events[k];
    var fefo := FefoServesWheneverAnyPolicyDoes(events, rival);
    FefoRunUnique(events[..k], states, fefo[..k + 1], k);
    FefoRunSound(events, fefo, k);
    assert FefoStep(fefo[k], fefo[k + 1], e);
    DrawTakesUsable(fefo[k], fefo[k + 1], e.slot, e.day, e.quantity);
    UsableIsNonNegative(fefo[k + 1], e.slot, e.day);
  }
}
