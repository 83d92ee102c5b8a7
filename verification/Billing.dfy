/** The billing cycle engine: a subscription's invoices and the cursor to its next cycle. */
module Billing {
  import opened Prelude
  import opened Dates

  datatype Invoice = Invoice(issuedOn: Date, amount: int, paid: bool)

  datatype Error = NoPlanAmount | AlreadySeeded | InvoiceNotFound

  /** The first cycle after creation: a month on, when there is any plan at all. */
  function NextBillingForCreate(amount: Option<int>, hasTier: bool, today: Date): Option<Date>
  {
    if amount.None? && !hasTier then None else Some(AddOneMonth(today))
  }

  predicate Exists(invoices: seq<Invoice>, issuedOn: Date)
  {
    exists i :: 0 <= i < |invoices| && invoices[i].issuedOn == issuedOn
  }

  /** `_add_invoice`: nothing happens when the day is already invoiced. */
  function WithInvoice(invoices: seq<Invoice>, invoice: Invoice): seq<Invoice>
  {
    if Exists(invoices, invoice.issuedOn) then invoices else invoices + [invoice]
  }

  /** Invoices are exactly the chain dates up to the last one, without gaps or repeats; the
      last is unpaid; and the cursor is at the last invoice or one month beyond it. */
  ghost predicate OnChain(start: Date, invoices: seq<Invoice>, cursor: Option<Date>)
  {
    && |invoices| > 0
    && (forall k :: 0 <= k < |invoices| ==> invoices[k].issuedOn == Chain(start, k))
    && !invoices[|invoices| - 1].paid
    && (cursor == Some(Chain(start, |invoices| - 1)) || cursor == Some(Chain(start, |invoices|)))
  }

  lemma ChainDateExists(start: Date, invoices: seq<Invoice>, k: nat)
    requires Proper(start)
    requires forall i :: 0 <= i < |invoices| ==> invoices[i].issuedOn == Chain(start, i)
    ensures Exists(invoices, Chain(start, k)) <==> k < |invoices|
  {
    if k < |invoices| {
      assert invoices[k].issuedOn == Chain(start, k);
    } else {
      forall i | 0 <= i < |invoices|
        ensures invoices[i].issuedOn != Chain(start, k)
      {
        ChainIsIncreasing(start, i, k);
      }
    }
  }

  /** No two invoices of a subscription share a date, and they are in date order. */
  lemma ChainHasNoRepeats(start: Date, invoices: seq<Invoice>, cursor: Option<Date>, i: nat, j: nat)
    requires Proper(start) && OnChain(start, invoices, cursor) && i < j < |invoices|
    ensures After(invoices[j].issuedOn, invoices[i].issuedOn)
  {
    ChainIsIncreasing(start, i, j);
  }

  /** How many chain dates from the k-th on are due by `asOf`. */
  function DueCount(start: Date, k: nat, asOf: Date): nat
    requires Proper(start)
    decreases Max(0, Key(asOf) + 1 - Key(Chain(start, k)))
  {
    if After(Chain(start, k), asOf) then 0
    else
      ChainClimbs(start, k);
      1 + DueCount(start, k + 1, asOf)
  }

  /** Exactly the next DueCount dates of the chain are due, and none after them. */
  lemma {:induction false} DueCountIsExact(start: Date, k: nat, asOf: Date, j: nat)
    requires Proper(start) && k <= j
    ensures !After(Chain(start, j), asOf) <==> j < k + DueCount(start, k, asOf)
    decreases DueCount(start, k, asOf)
  {
    if After(Chain(start, k), asOf) {
      if k < j {
        ChainIsIncreasing(start, k, j);
      }
    } else if k < j {
      DueCountIsExact(start, k + 1, asOf, j);
    }
  }

  function NewInvoices(start: Date, k: nat, n: nat, amount: int): seq<Invoice>
  {
    seq(n, i requires 0 <= i < n => Invoice(Chain(start, k + i), amount, false))
  }

  // A catch-up leaves nothing due: the next chain date without an invoice lies after `asOf`.
  lemma NothingLeftDue(start: Date, k: nat, asOf: Date)
    requires Proper(start)
    ensures DueCount(start, k + DueCount(start, k, asOf), asOf) == 0
  {
    DueCountIsExact(start, k, asOf, k + DueCount(start, k, asOf));
  }

  lemma CursorBounds(start: Date, invoices: seq<Invoice>, cursor: Option<Date>, k: nat)
    requires Proper(start) && OnChain(start, invoices, cursor) && k <= |invoices|
    ensures cursor.Some?
    ensures k < |invoices| ==> !After(Chain(start, k), cursor.value)
    ensures k == |invoices| && After(Chain(start, k), cursor.value) ==> cursor == Some(Chain(start, k - 1))
  {
    ChainClimbs(start, |invoices| - 1);
    if k < |invoices| - 1 {
      ChainIsIncreasing(start, k, |invoices| - 1);
      ChainIsIncreasing(start, k, |invoices|);
    }
  }

  lemma FirstSeeding(start: Date, amount: int, paid: bool)
    requires Proper(start)
    ensures var first, second := Invoice(start, amount, paid), Invoice(AddOneMonth(start), amount, false);
      && AddOneMonth(start) == Chain(start, 1)
      && WithInvoice(WithInvoice([], first), second) == [first, second]
      && OnChain(start, [first, second], Some(AddOneMonth(start)))
  {
    var first := Invoice(start, amount, paid);
    assert Chain(start, 0) == start && Chain(start, 1) == AddOneMonth(start);
    ChainDateExists(start, [first], 1);
    assert WithInvoice([], first) == [first];
  }

  lemma SeedingAgain(start: Date, invoices: seq<Invoice>, cursor: Option<Date>, today: Date, amount: int, paid: bool)
    requires Proper(start) && OnChain(start, invoices, cursor) && Exists(invoices, today)
    ensures WithInvoice(invoices, Invoice(today, amount, paid)) == invoices
    ensures cursor.Some? && OnChain(start, WithInvoice(invoices, Invoice(cursor.value, amount, false)), cursor)
  {
    ChainDateExists(start, invoices, 0);
    if cursor == Some(Chain(start, |invoices|)) {
      NextInvoiceKeepsChain(start, invoices, amount);
    } else {
      ChainDateExists(start, invoices, |invoices| - 1);
    }
  }

  // Setting a flag moves no date, and the last invoice stays unpaid unless it is the one paid.
  lemma FlagKeepsChain(start: Date, invoices: seq<Invoice>, cursor: Option<Date>, id: nat, paid: bool)
    requires OnChain(start, invoices, cursor) && id < |invoices| && !(paid && id == |invoices| - 1)
    ensures OnChain(start, invoices[id := invoices[id].(paid := paid)], cursor)
  {
  }

  // Paying any invoice but the last finds the next month already open, at or before the cursor.
  lemma PayingEarlierOpensNothing(start: Date, invoices: seq<Invoice>, cursor: Option<Date>, id: nat, amount: int)
    requires Proper(start) && OnChain(start, invoices, cursor) && id < |invoices| - 1
    ensures var table, next := invoices[id := invoices[id].(paid := true)], AddOneMonth(invoices[id].issuedOn);
      WithInvoice(table, Invoice(next, amount, false)) == table && cursor.Some? && !After(next, cursor.value)
  {
    var table := invoices[id := invoices[id].(paid := true)];
    assert AddOneMonth(invoices[id].issuedOn) == Chain(start, id + 1);
    ChainDateExists(start, table, id + 1);
    CursorBounds(start, invoices, cursor, id + 1);
  }

  // Paying the last invoice opens the next month, which the cursor is at or is moved to.
  lemma PayingLastOpensNext(start: Date, invoices: seq<Invoice>, cursor: Option<Date>, amount: int)
    requires Proper(start) && OnChain(start, invoices, cursor)
    ensures var id := |invoices| - 1;
      var table, next := invoices[id := invoices[id].(paid := true)], AddOneMonth(invoices[id].issuedOn);
      && next == Chain(start, |invoices|)
      && WithInvoice(table, Invoice(next, amount, false)) == table + [Invoice(next, amount, false)]
      && OnChain(start, table + [Invoice(next, amount, false)], Some(next))
      && cursor.Some? && (!After(next, cursor.value) ==> cursor == Some(next))
  {
    var id := |invoices| - 1;
    var table := invoices[id := invoices[id].(paid := true)];
    assert AddOneMonth(invoices[id].issuedOn) == Chain(start, id + 1);
    ChainDateExists(start, table, id + 1);
    CursorBounds(start, invoices, cursor, id + 1);
    NextInvoiceKeepsChain(start, table, amount);
  }

  // Appending the next date of the chain, unpaid, suits a cursor at that date or one beyond it.
  lemma NextInvoiceKeepsChain(start: Date, invoices: seq<Invoice>, amount: int)
    requires forall k :: 0 <= k < |invoices| ==> invoices[k].issuedOn == Chain(start, k)
    ensures OnChain(start, invoices + [Invoice(Chain(start, |invoices|), amount, false)],
                    Some(Chain(start, |invoices|)))
    ensures OnChain(start, invoices + [Invoice(Chain(start, |invoices|), amount, false)],
                    Some(Chain(start, |invoices| + 1)))
  {
    var more := invoices + [Invoice(Chain(start, |invoices|), amount, false)];
    assert |more| == |invoices| + 1 && more[|invoices|] == Invoice(Chain(start, |invoices|), amount, false);
  }

  // A due cycle at the last invoice is invoiced already; the cursor alone moves.
  lemma CycleAtLast(start: Date, invoices: seq<Invoice>, cursor: Option<Date>)
    requires Proper(start) && OnChain(start, invoices, cursor) && cursor == Some(Chain(start, |invoices| - 1))
    ensures Exists(invoices, cursor.value) && cursor.value != Chain(start, |invoices|)
    ensures OnChain(start, invoices, Some(AddOneMonth(cursor.value)))
    ensures Key(AddOneMonth(cursor.value)) > Key(cursor.value)
  {
    ChainDateExists(start, invoices, |invoices| - 1);
    ChainDateExists(start, invoices, |invoices|);
    CursorAdvances(start, |invoices| - 1);
  }

  // A due cycle beyond it is not, and becomes the last invoice.
  lemma CycleBeyondLast(start: Date, invoices: seq<Invoice>, cursor: Option<Date>, amount: int)
    requires Proper(start) && OnChain(start, invoices, cursor) && cursor == Some(Chain(start, |invoices|))
    ensures !Exists(invoices, cursor.value)
    ensures OnChain(start, invoices + [Invoice(cursor.value, amount, false)], Some(AddOneMonth(cursor.value)))
    ensures Key(AddOneMonth(cursor.value)) > Key(cursor.value)
  {
    ChainDateExists(start, invoices, |invoices|);
    NextInvoiceKeepsChain(start, invoices, amount);
    assert AddOneMonth(Chain(start, |invoices|)) == Chain(start, |invoices| + 1);
    CursorAdvances(start, |invoices|);
  }

  lemma CursorAdvances(start: Date, k: nat)
    requires Proper(start)
    ensures Key(AddOneMonth(Chain(start, k))) > Key(Chain(start, k))
  {
    ChainClimbs(start, k);
  }

  /** Every chain date due by `asOf` that had no invoice got one, unpaid, at the plan's
      amount; nothing else changed; and there were `n` of them. */
  ghost predicate CaughtUp(start: Date, plan: Option<int>, before: seq<Invoice>, after: seq<Invoice>, n: nat,
                           asOf: Date)
  {
    && Proper(start) && plan.Some?
    && n == DueCount(start, |before|, asOf)
    && after == before + NewInvoices(start, |before|, n, plan.value)
  }

  // A catch-up part-way: `n` added so far, the rest of the due dates still to come.
  ghost predicate CatchingUp(start: Date, plan: Option<int>, before: seq<Invoice>, now: seq<Invoice>, n: nat,
                             asOf: Date)
  {
    && Proper(start) && plan.Some?
    && now == before + NewInvoices(start, |before|, n, plan.value)
    && n + DueCount(start, |now|, asOf) == DueCount(start, |before|, asOf)
  }

  lemma OneFewerDue(start: Date, plan: Option<int>, before: seq<Invoice>, now: seq<Invoice>, n: nat, asOf: Date)
    requires CatchingUp(start, plan, before, now, n, asOf) && !After(Chain(start, |now|), asOf)
    ensures CatchingUp(start, plan, before, now + [Invoice(Chain(start, |now|), plan.value, false)], n + 1, asOf)
  {
    assert NewInvoices(start, |before|, n + 1, plan.value)
        == NewInvoices(start, |before|, n, plan.value) + [Invoice(Chain(start, |now|), plan.value, false)];
  }

  // A cursor after `asOf` means that no uninvoiced chain date is due.
  lemma NothingDue(start: Date, plan: Option<int>, before: seq<Invoice>, now: seq<Invoice>, n: nat, asOf: Date,
                   cursor: Option<Date>)
    requires CatchingUp(start, plan, before, now, n, asOf) && OnChain(start, now, cursor) && After(cursor.value, asOf)
    ensures CaughtUp(start, plan, before, now, n, asOf)
  {
    CursorAdvances(start, |now| - 1);
  }

  // --------------------------------------------- the engine on any books

  /** What the engine works on: the cursor to the next cycle and the invoices so far. */
  datatype Books = Books(cursor: Option<Date>, invoices: seq<Invoice>)

  /** Dates are calendar dates, and the unique index holds: no day is invoiced twice. */
  ghost predicate Sound(b: Books)
  {
    && (b.cursor.Some? ==> Proper(b.cursor.value))
    && (forall i :: 0 <= i < |b.invoices| ==> Proper(b.invoices[i].issuedOn))
    && (forall i, j :: 0 <= i < j < |b.invoices| ==> b.invoices[i].issuedOn != b.invoices[j].issuedOn)
  }

  /** One due cycle: an unpaid invoice unless the day has one, and the cursor a month on. */
  function Cycle(b: Books, amount: int): Books
    requires b.cursor.Some?
  {
    Books(Some(AddOneMonth(b.cursor.value)), WithInvoice(b.invoices, Invoice(b.cursor.value, amount, false)))
  }

  function Cycles(b: Books, amount: int, n: nat): (r: Books)
    requires b.cursor.Some?
    ensures r.cursor == Some(Chain(b.cursor.value, n))
  {
    if n == 0 then b else Cycle(Cycles(b, amount, n - 1), amount)
  }

  /** Cycles due from the cursor on. */
  function Pending(b: Books, asOf: Date): nat
    requires b.cursor.Some? ==> Proper(b.cursor.value)
  {
    if b.cursor.None? then 0 else DueCount(b.cursor.value, 0, asOf)
  }

  /** The books once every due cycle has been run. */
  function CatchUpBooks(b: Books, amount: int, asOf: Date): Books
    requires b.cursor.Some? ==> Proper(b.cursor.value)
  {
    if b.cursor.None? then b else Cycles(b, amount, Pending(b, asOf))
  }

  /** How many of the first n dates from `start` have no invoice. */
  function Uninvoiced(invoices: seq<Invoice>, start: Date, n: nat): nat
  {
    if n == 0 then 0
    else Uninvoiced(invoices, start, n - 1) + (if Exists(invoices, Chain(start, n - 1)) then 0 else 1)
  }

  /** What a catch-up must count: the due dates not already invoiced. */
  function Missing(b: Books, asOf: Date): nat
    requires b.cursor.Some? ==> Proper(b.cursor.value)
  {
    if b.cursor.None? then 0 else Uninvoiced(b.invoices, b.cursor.value, Pending(b, asOf))
  }

  predicate InChain(start: Date, n: nat, d: Date)
  {
    exists j: nat :: j < n && Chain(start, j) == d
  }

  /** `after` is `before` with one unpaid invoice at the plan's amount for each of the first n
      dates from `start` that had none. */
  ghost predicate Filled(before: seq<Invoice>, after: seq<Invoice>, start: Date, n: nat, amount: int)
  {
    && before <= after
    && |after| == |before| + Uninvoiced(before, start, n)
    && (forall k :: |before| <= k < |after| ==>
          after[k] == Invoice(after[k].issuedOn, amount, false) && InChain(start, n, after[k].issuedOn) &&
          !Exists(before, after[k].issuedOn))
    && (forall d :: Exists(after, d) <==> Exists(before, d) || InChain(start, n, d))
  }

  lemma ExistsAppend(invoices: seq<Invoice>, invoice: Invoice, d: Date)
    ensures Exists(invoices + [invoice], d) <==> Exists(invoices, d) || d == invoice.issuedOn
  {
    var more := invoices + [invoice];
    if Exists(invoices, d) {
      var i :| 0 <= i < |invoices| && invoices[i].issuedOn == d;
      assert more[i].issuedOn == d;
    }
    assert more[|invoices|] == invoice;
  }

  lemma InChainGrows(start: Date, n: nat, d: Date)
    ensures InChain(start, n + 1, d) <==> InChain(start, n, d) || d == Chain(start, n)
  {
  }

  lemma NextDateIsNew(start: Date, n: nat)
    requires Proper(start)
    ensures !InChain(start, n, Chain(start, n))
  {
    forall j: nat | j < n
      ensures Chain(start, j) != Chain(start, n)
    {
      ChainIsIncreasing(start, j, n);
    }
  }

  lemma FilledGrows(before: seq<Invoice>, now: seq<Invoice>, start: Date, n: nat, amount: int)
    requires Proper(start) && Filled(before, now, start, n, amount)
    ensures Filled(before, WithInvoice(now, Invoice(Chain(start, n), amount, false)), start, n + 1, amount)
  {
    var d := Chain(start, n);
    var after := WithInvoice(now, Invoice(d, amount, false));
    NextDateIsNew(start, n);
    assert Exists(now, d) <==> Exists(before, d);
    forall e
      ensures InChain(start, n + 1, e) <==> InChain(start, n, e) || e == d
      ensures Exists(after, e) <==> Exists(now, e) || e == d
    {
      InChainGrows(start, n, e);
      ExistsAppend(now, Invoice(d, amount, false), e);
    }
  }

  lemma {:induction false} CyclesFill(b: Books, amount: int, n: nat)
    requires Sound(b) && b.cursor.Some?
    ensures Filled(b.invoices, Cycles(b, amount, n).invoices, b.cursor.value, n, amount)
  {
    if n == 0 {
      assert forall d :: !InChain(b.cursor.value, 0, d);
    } else {
      CyclesFill(b, amount, n - 1);
      FilledGrows(b.invoices, Cycles(b, amount, n - 1).invoices, b.cursor.value, n - 1, amount);
    }
  }

  lemma CycleKeepsSound(b: Books, amount: int)
    requires Sound(b) && b.cursor.Some?
    ensures Sound(Cycle(b, amount))
  {
    OneMonthLater(b.cursor.value);
    WithInvoiceKeepsSound(b, Invoice(b.cursor.value, amount, false));
  }

  lemma WithInvoiceKeepsSound(b: Books, invoice: Invoice)
    requires Sound(b) && Proper(invoice.issuedOn)
    ensures Sound(b.(invoices := WithInvoice(b.invoices, invoice)))
  {
  }

  lemma {:induction false} CyclesKeepSound(b: Books, amount: int, n: nat)
    requires Sound(b) && b.cursor.Some?
    ensures Sound(Cycles(b, amount, n))
  {
    if n != 0 {
      CyclesKeepSound(b, amount, n - 1);
      CycleKeepsSound(Cycles(b, amount, n - 1), amount);
    }
  }

  /** The cycles pending are exactly those on a date not after `asOf`. */
  lemma PendingIsExact(b: Books, asOf: Date, j: nat)
    requires b.cursor.Some? && Proper(b.cursor.value)
    ensures j < Pending(b, asOf) <==> Key(Chain(b.cursor.value, j)) <= Key(asOf)
  {
    DueCountIsExact(b.cursor.value, 0, asOf, j);
  }

  lemma DueAfterCycles(b: Books, amount: int, asOf: Date, k: nat)
    requires b.cursor.Some? && Proper(b.cursor.value)
    ensures !After(Cycles(b, amount, k).cursor.value, asOf) <==> k < Pending(b, asOf)
  {
    PendingIsExact(b, asOf, k);
  }

  lemma CatchUpFills(b: Books, amount: int, asOf: Date)
    requires Sound(b) && b.cursor.Some?
    ensures var after := CatchUpBooks(b, amount, asOf);
      && Sound(after) && after.cursor.Some? && Key(after.cursor.value) > Key(asOf)
      && Filled(b.invoices, after.invoices, b.cursor.value, Pending(b, asOf), amount)
      && |after.invoices| - |b.invoices| == Missing(b, asOf)
  {
    var n := Pending(b, asOf);
    CyclesFill(b, amount, n);
    CyclesKeepSound(b, amount, n);
    PendingIsExact(b, asOf, n);
  }

  /** A catch-up of any books ends with the cursor after `asOf` and has invoiced exactly the due
      dates that had no invoice, each once, unpaid, at the plan's amount. */
  lemma CatchUpIsExact(b: Books, amount: int, asOf: Date)
    requires Sound(b) && b.cursor.Some?
    ensures var after := CatchUpBooks(b, amount, asOf);
      && Sound(after) && after.cursor.Some? && Key(after.cursor.value) > Key(asOf)
      && Filled(b.invoices, after.invoices, b.cursor.value, Pending(b, asOf), amount)
      && |after.invoices| - |b.invoices| == Missing(b, asOf)
    ensures forall j: nat :: j < Pending(b, asOf) <==> Key(Chain(b.cursor.value, j)) <= Key(asOf)
  {
    CatchUpFills(b, amount, asOf);
    forall j: nat
      ensures j < Pending(b, asOf) <==> Key(Chain(b.cursor.value, j)) <= Key(asOf)
    {
      PendingIsExact(b, asOf, j);
    }
  }

  // ------------------------------------------------- running it again

  lemma {:induction false} ChainOfChain(d: Date, k: nat, j: nat)
    ensures Chain(Chain(d, k), j) == Chain(d, k + j)
  {
    if j != 0 {
      ChainOfChain(d, k, j - 1);
    }
  }

  lemma {:induction false} CyclesCompose(b: Books, amount: int, n: nat, m: nat)
    requires b.cursor.Some?
    ensures Cycles(Cycles(b, amount, n), amount, m) == Cycles(b, amount, n + m)
  {
    if m != 0 {
      CyclesCompose(b, amount, n, m - 1);
    }
  }

  lemma PendingAfterCycles(start: Date, n: nat, asOf: Date)
    requires Proper(start) && n <= DueCount(start, 0, asOf)
    ensures Proper(Chain(start, n)) && DueCount(Chain(start, n), 0, asOf) == DueCount(start, 0, asOf) - n
  {
    ChainClimbs(start, n);
    var all, rest := DueCount(start, 0, asOf), DueCount(Chain(start, n), 0, asOf);
    ChainOfChain(start, n, rest);
    ChainOfChain(start, n, all - n);
    DueCountIsExact(Chain(start, n), 0, asOf, rest);
    DueCountIsExact(Chain(start, n), 0, asOf, all - n);
    DueCountIsExact(start, 0, asOf, n + rest);
    DueCountIsExact(start, 0, asOf, all);
  }

  lemma LaterMeansMoreDue(start: Date, asOf: Date, later: Date)
    requires Proper(start) && Key(asOf) <= Key(later)
    ensures DueCount(start, 0, asOf) <= DueCount(start, 0, later)
  {
    DueCountIsExact(start, 0, asOf, DueCount(start, 0, later));
    DueCountIsExact(start, 0, later, DueCount(start, 0, later));
  }

  /** Catching up to one day and then to a later one is catching up to the later one at once. */
  lemma CatchUpsCompose(b: Books, amount: int, asOf: Date, later: Date)
    requires Sound(b) && b.cursor.Some? && Key(asOf) <= Key(later)
    ensures var after := CatchUpBooks(b, amount, asOf);
      Sound(after) && CatchUpBooks(after, amount, later) == CatchUpBooks(b, amount, later)
  {
    var n := Pending(b, asOf);
    CyclesKeepSound(b, amount, n);
    LaterMeansMoreDue(b.cursor.value, asOf, later);
    PendingAfterCycles(b.cursor.value, n, later);
    CyclesCompose(b, amount, n, Pending(b, later) - n);
  }

  /** A run is safe to repeat, even when its advance of the cursor was not committed and so was
      lost, which happens only where it created no invoice: a rerun creates nothing, and every
      later run ends exactly as if nothing had been lost. */
  lemma RerunCreatesNothing(b: Books, amount: int, asOf: Date, later: Date, committed: bool)
    requires Sound(b) && b.cursor.Some? && Key(asOf) <= Key(later)
    requires !committed ==> Missing(b, asOf) == 0
    ensures var left := if committed then CatchUpBooks(b, amount, asOf) else b;
      && Sound(left)
      && left.invoices == CatchUpBooks(b, amount, asOf).invoices
      && Missing(left, asOf) == 0
      && CatchUpBooks(left, amount, asOf).invoices == left.invoices
      && CatchUpBooks(left, amount, later) == CatchUpBooks(b, amount, later)
  {
    CatchUpIsExact(b, amount, asOf);
    CatchUpsCompose(b, amount, asOf, asOf);
    CatchUpsCompose(b, amount, asOf, later);
    var after := CatchUpBooks(b, amount, asOf);
    CatchUpIsExact(after, amount, asOf);
    assert |after.invoices| == |b.invoices| ==> after.invoices == b.invoices;
  }

  // ------------------------------------------ the engine on the chain

  // Books part-way through a catch-up that began on the chain, with m invoices added.
  ghost predicate MidCatchUp(start: Date, before: seq<Invoice>, b: Books, amount: int, asOf: Date, m: nat)
  {
    OnChain(start, b.invoices, b.cursor) && CatchingUp(start, Some(amount), before, b.invoices, m, asOf)
  }

  lemma CycleKeepsChain(start: Date, before: seq<Invoice>, b: Books, next: Books, amount: int, asOf: Date, n: nat)
    returns (m: nat)
    requires Proper(start) && MidCatchUp(start, before, b, amount, asOf, n)
    requires b.cursor.Some? && !After(b.cursor.value, asOf) && next == Cycle(b, amount)
    ensures MidCatchUp(start, before, next, amount, asOf, m)
  {
    if b.cursor == Some(Chain(start, |b.invoices| - 1)) {
      CycleAtLast(start, b.invoices, b.cursor);
      m := n;
    } else {
      CycleBeyondLast(start, b.invoices, b.cursor, amount);
      OneFewerDue(start, Some(amount), before, b.invoices, n, asOf);
      m := n + 1;
    }
  }

  lemma CursorIsDue(b: Books, amount: int, asOf: Date, n: nat)
    requires b.cursor.Some? && Proper(b.cursor.value) && n < Pending(b, asOf)
    ensures !After(Cycles(b, amount, n).cursor.value, asOf)
  {
    DueCountIsExact(b.cursor.value, 0, asOf, n);
  }

  lemma NothingAddedYet(start: Date, b: Books, amount: int, asOf: Date)
    requires Proper(start) && OnChain(start, b.invoices, b.cursor)
    ensures MidCatchUp(start, b.invoices, b, amount, asOf, 0)
  {
    assert b.invoices == b.invoices + NewInvoices(start, |b.invoices|, 0, amount);
  }

  // Whatever each due cycle keeps, a catch-up keeps.
  lemma {:induction false} CyclesKeep(inv: Books -> bool, due: Option<Date> -> bool, b: Books, amount: int, n: nat)
    requires b.cursor.Some? && inv(b)
    requires forall j: nat :: j < n ==> due(Cycles(b, amount, j).cursor)
    requires forall x: Books :: inv(x) && x.cursor.Some? && due(x.cursor) ==> inv(Cycle(x, amount))
    ensures inv(Cycles(b, amount, n))
  {
    if n != 0 {
      CyclesKeep(inv, due, b, amount, n - 1);
      assert due(Cycles(b, amount, n - 1).cursor);
    }
  }

  function DueBy(asOf: Date): Option<Date> -> bool
  {
    (d: Option<Date>) => d.Some? && !After(d.value, asOf)
  }

  ghost function CatchingUpOnChain(start: Date, before: seq<Invoice>, amount: int, asOf: Date): Books -> bool
  {
    (x: Books) => exists m: nat :: MidCatchUp(start, before, x, amount, asOf, m)
  }

  lemma CyclesKeepChain(start: Date, b: Books, amount: int, asOf: Date) returns (m: nat)
    requires Proper(start) && OnChain(start, b.invoices, b.cursor) && b.cursor.Some? && Proper(b.cursor.value)
    ensures MidCatchUp(start, b.invoices, CatchUpBooks(b, amount, asOf), amount, asOf, m)
  {
    var inv := CatchingUpOnChain(start, b.invoices, amount, asOf);
    NothingAddedYet(start, b, amount, asOf);
    forall x: Books | inv(x) && x.cursor.Some? && DueBy(asOf)(x.cursor)
      ensures inv(Cycle(x, amount))
    {
      var k: nat :| MidCatchUp(start, b.invoices, x, amount, asOf, k);
      var next := CycleKeepsChain(start, b.invoices, x, Cycle(x, amount), amount, asOf, k);
    }
    forall j: nat | j < Pending(b, asOf)
      ensures DueBy(asOf)(Cycles(b, amount, j).cursor)
    {
      CursorIsDue(b, amount, asOf, j);
    }
    CyclesKeep(inv, DueBy(asOf), b, amount, Pending(b, asOf));
    assert inv(CatchUpBooks(b, amount, asOf));
    m :| MidCatchUp(start, b.invoices, CatchUpBooks(b, amount, asOf), amount, asOf, m);
  }

  /** On the monthly chain a catch-up adds exactly the due chain dates beyond the last invoice,
      and stays on the chain. */
  lemma CatchUpKeepsChain(start: Date, b: Books, amount: int, asOf: Date)
    requires Proper(start) && Sound(b) && OnChain(start, b.invoices, b.cursor)
    ensures var after := CatchUpBooks(b, amount, asOf);
      && OnChain(start, after.invoices, after.cursor)
      && CaughtUp(start, Some(amount), b.invoices, after.invoices, Missing(b, asOf), asOf)
  {
    var m := CyclesKeepChain(start, b, amount, asOf);
    CatchUpIsExact(b, amount, asOf);
    var after := CatchUpBooks(b, amount, asOf);
    NothingDue(start, Some(amount), b.invoices, after.invoices, m, asOf, after.cursor);
  }

  /** An advance is left uncommitted only when nothing was created, and then the old cursor
      still fits the invoices. */
  lemma LostAdvanceStaysOnChain(start: Date, before: seq<Invoice>, cursor: Option<Date>, after: seq<Invoice>,
                                plan: Option<int>, asOf: Date)
    requires OnChain(start, before, cursor) && CaughtUp(start, plan, before, after, 0, asOf)
    ensures after == before && OnChain(start, after, cursor)
  {
    assert after == before;
  }

  /** A second catch-up to the same day finds nothing to do. */
  lemma SecondCatchUpIsIdle(start: Date, plan: Option<int>, before: seq<Invoice>, after: seq<Invoice>,
                            again: seq<Invoice>, n: nat, m: nat, asOf: Date)
    requires CaughtUp(start, plan, before, after, n, asOf) && CaughtUp(start, plan, after, again, m, asOf)
    ensures m == 0 && again == after
  {
    NothingLeftDue(start, |before|, asOf);
  }

  class Account {
    const plan: Option<int>
    ghost const signedUp: Date
    var active: bool
    var nextBilling: Option<Date>
    var invoices: seq<Invoice>

    function State(): Books
      reads this
    {
      Books(nextBilling, invoices)
    }

    ghost predicate Valid()
      reads this
    {
      Proper(signedUp) && Sound(State())
    }

    /** Seeded at signup, and on the monthly chain ever since. */
    ghost predicate InStep()
      reads this
    {
      plan.Some? && OnChain(signedUp, invoices, nextBilling)
    }

    constructor (plan: Option<int>, hasTier: bool, today: Date)
      requires Proper(today)
      ensures Valid() && active && invoices == [] && this.plan == plan && signedUp == today
      ensures nextBilling == if plan.Some? || hasTier then Some(AddOneMonth(today)) else None
    {
      OneMonthLater(today);
      this.plan, signedUp, active := plan, today, true;
      nextBilling, invoices := NextBillingForCreate(plan, hasTier, today), [];
    }

    /** Today's invoice, paid or not, and an unpaid one at the next cycle, whichever of the two
        days has none yet. At signup, and again on any day already invoiced, this is in step. */
    method SeedSignupInvoices(paymentReceived: bool, today: Date) returns (res: Result<nat, Error>)
      requires Valid() && Proper(today)
      modifies this
      ensures Valid() && active == old(active)
      ensures plan.None? <==> res == Err(NoPlanAmount)
      ensures res.Err? ==> unchanged(this)
      ensures plan.Some? ==>
                var next := if old(nextBilling).Some? then old(nextBilling).value else AddOneMonth(today);
                && (res == Err(AlreadySeeded) <==> Exists(old(invoices), today) && Exists(old(invoices), next))
                && (res.Ok? ==> nextBilling == Some(next) && res.value == |invoices| - |old(invoices)|)
                && (res.Ok? ==>
                      invoices == WithInvoice(WithInvoice(old(invoices), Invoice(today, plan.value, paymentReceived)),
                                              Invoice(next, plan.value, false)))
      ensures res.Ok? && old(invoices) == [] && today == signedUp &&
              (old(nextBilling).None? || old(nextBilling) == Some(AddOneMonth(today))) ==>
                && InStep()
                && invoices == [Invoice(today, plan.value, paymentReceived),
                                Invoice(Chain(today, 1), plan.value, false)]
      ensures old(InStep()) && Exists(old(invoices), today) ==> InStep()
    {
      if plan.None? {
        return Err(NoPlanAmount);
      }
      OneMonthLater(today);
      var next := if nextBilling.Some? then nextBilling.value else AddOneMonth(today);
      ghost var was := State();
      var first := WithInvoice(invoices, Invoice(today, plan.value, paymentReceived));
      var both := WithInvoice(first, Invoice(next, plan.value, false));
      SeedingIsSound(was, today, next, plan.value, paymentReceived);
      if old(InStep()) && Exists(invoices, today) {
        SeedingAgain(signedUp, invoices, nextBilling, today, plan.value, paymentReceived);
      }
      if invoices == [] && today == signedUp {
        FirstSeeding(today, plan.value, paymentReceived);
      }
      var created := |both| - |invoices|;
      if created == 0 {
        return Err(AlreadySeeded);
      }
      nextBilling, invoices := Some(next), both;
      return Ok(created);
    }

    /** Set the flag; paying an unpaid invoice opens the month after it if that is not open yet,
        and moves the cursor up to it. */
    method SetInvoicePaid(id: nat, paid: bool) returns (res: Result<nat, Error>)
      requires Valid()
      modifies this
      ensures Valid() && active == old(active)
      ensures res == if id < |old(invoices)| then Ok(id) else Err(InvoiceNotFound)
      ensures res.Err? ==> unchanged(this)
      ensures res.Ok? ==> State() == AfterPayment(old(State()), plan, id, paid)
      ensures old(InStep()) ==> InStep()
      ensures res.Ok? && old(InStep()) ==> PaidOnChain(signedUp, old(State()), State(), plan.value, id, paid)
    {
      if id >= |invoices| {
        return Err(InvoiceNotFound);
      }
      PaymentKeepsSound(State(), plan, id, paid);
      if plan.Some? && OnChain(signedUp, invoices, nextBilling) {
        PaymentKeepsChain(signedUp, State(), plan.value, id, paid);
      }
      var wasPaid := invoices[id].paid;
      invoices := invoices[id := invoices[id].(paid := paid)];
      if paid && !wasPaid {
        EnsureNextUnpaidAfterPayment(invoices[id].issuedOn);
      }
      return Ok(id);
    }

    /** Open the month after the day just paid, if there is a plan and that month is not open. */
    method EnsureNextUnpaidAfterPayment(paidIssuedOn: Date)
      modifies this`invoices, this`nextBilling
      ensures State() == AfterOpening(old(State()), plan, paidIssuedOn)
    {
      if plan.None? {
        return;
      }
      var next := AddOneMonth(paidIssuedOn);
      invoices := WithInvoice(invoices, Invoice(next, plan.value, false));
      if nextBilling.None? || After(next, nextBilling.value) {
        nextBilling := Some(next);
      }
    }

    /** One cycle, if it is due: invoice the cursor's date unless it is invoiced, and advance. */
    method GenerateInvoice(asOf: Date) returns (created: bool)
      requires Valid()
      modifies this
      ensures Valid() && active == old(active)
      ensures var due := plan.Some? && old(nextBilling).Some? && !After(old(nextBilling).value, asOf);
        && (!due ==> !created && unchanged(this))
        && (due ==> State() == Cycle(old(State()), plan.value) && Key(nextBilling.value) > Key(old(nextBilling).value)
                    && (created <==> !Exists(old(invoices), old(nextBilling).value)))
    {
      if nextBilling.None? || plan.None? {
        return false;
      }
      if After(nextBilling.value, asOf) {
        return false;
      }
      CycleKeepsSound(State(), plan.value);
      OneMonthLater(nextBilling.value);
      var issuedOn := nextBilling.value;
      created := false;
      if !Exists(invoices, issuedOn) {
        invoices := invoices + [Invoice(issuedOn, plan.value, false)];
        created := true;
      }
      nextBilling := Some(AddOneMonth(issuedOn));
    }

    /** What one account's catch-up leaves, and how many invoices that took. */
    method CatchUp(asOf: Date) returns (generated: nat)
      requires Valid() && plan.Some? && nextBilling.Some?
      modifies this
      ensures Valid() && active == old(active)
      ensures State() == CatchUpBooks(old(State()), plan.value, asOf)
      ensures generated == |invoices| - |old(invoices)| == Missing(old(State()), asOf)
      ensures nextBilling.Some? && After(nextBilling.value, asOf)
      ensures old(InStep()) ==> InStep() && CaughtUp(signedUp, plan, old(invoices), invoices, generated, asOf)
    {
      CatchUpFills(State(), plan.value, asOf);
      if OnChain(signedUp, invoices, nextBilling) {
        CatchUpKeepsChain(signedUp, State(), plan.value, asOf);
      }
      generated := RunCycles(asOf);
    }

    /** The inner loop of the billing run: one cycle at a time until none is due. */
    method RunCycles(asOf: Date) returns (generated: nat)
      requires Valid() && plan.Some? && nextBilling.Some?
      modifies this
      ensures active == old(active) && State() == CatchUpBooks(old(State()), plan.value, asOf)
      ensures |invoices| == |old(invoices)| + generated
    {
      ghost var was, k: nat := State(), 0;
      generated := 0;
      while nextBilling.Some? && !After(nextBilling.value, asOf)
        invariant Valid() && active == old(active)
        invariant k <= Pending(was, asOf) && State() == Cycles(was, plan.value, k)
        invariant |invoices| == |was.invoices| + generated
        decreases Pending(was, asOf) - k
      {
        DueAfterCycles(was, plan.value, asOf, k);
        var created := GenerateInvoice(asOf);
        if created {
          generated := generated + 1;
        }
        k := k + 1;
      }
      DueAfterCycles(was, plan.value, asOf, k);
    }
  }

  // ------------------------------------------------------ single calls

  lemma SeedingIsSound(b: Books, today: Date, next: Date, amount: int, paid: bool)
    requires Sound(b) && Proper(today) && Proper(next)
    ensures var first := WithInvoice(b.invoices, Invoice(today, amount, paid));
      var both := WithInvoice(first, Invoice(next, amount, false));
      && Sound(Books(Some(next), both))
      && (|both| == |b.invoices| <==> Exists(b.invoices, today) && Exists(b.invoices, next))
      && |both| >= |b.invoices|
  {
    WithInvoiceKeepsSound(b, Invoice(today, amount, paid));
    var first := WithInvoice(b.invoices, Invoice(today, amount, paid));
    WithInvoiceKeepsSound(b.(invoices := first), Invoice(next, amount, false));
  }

  /** The month after `paidOn` open, unpaid, and the cursor at it or beyond. */
  function AfterOpening(b: Books, plan: Option<int>, paidOn: Date): Books
  {
    if plan.None? then b
    else
      var next := AddOneMonth(paidOn);
      Books(if b.cursor.None? || After(next, b.cursor.value) then Some(next) else b.cursor,
            WithInvoice(b.invoices, Invoice(next, plan.value, false)))
  }

  function AfterPayment(b: Books, plan: Option<int>, id: nat, paid: bool): Books
    requires id < |b.invoices|
  {
    var flagged := b.(invoices := b.invoices[id := b.invoices[id].(paid := paid)]);
    if paid && !b.invoices[id].paid then AfterOpening(flagged, plan, b.invoices[id].issuedOn) else flagged
  }

  lemma PaymentKeepsSound(b: Books, plan: Option<int>, id: nat, paid: bool)
    requires Sound(b) && id < |b.invoices|
    ensures Sound(AfterPayment(b, plan, id, paid))
  {
    var flagged := b.(invoices := b.invoices[id := b.invoices[id].(paid := paid)]);
    if paid && plan.Some? {
      OneMonthLater(b.invoices[id].issuedOn);
      WithInvoiceKeepsSound(flagged, Invoice(AddOneMonth(b.invoices[id].issuedOn), plan.value, false));
    }
  }

  lemma PayingLastKeepsChain(start: Date, b: Books, amount: int)
    requires Proper(start) && OnChain(start, b.invoices, b.cursor)
    ensures var last := |b.invoices| - 1;
      var after := AfterPayment(b, Some(amount), last, true);
      && OnChain(start, after.invoices, after.cursor)
      && after == Books(Some(Chain(start, last + 1)),
                        b.invoices[last := b.invoices[last].(paid := true)]
                        + [Invoice(Chain(start, last + 1), amount, false)])
  {
    PayingLastOpensNext(start, b.invoices, b.cursor, amount);
  }

  lemma OtherFlagKeepsChain(start: Date, b: Books, amount: int, id: nat, paid: bool)
    requires Proper(start) && OnChain(start, b.invoices, b.cursor) && id < |b.invoices| &&
             !(paid && id == |b.invoices| - 1)
    ensures var after := AfterPayment(b, Some(amount), id, paid);
      && OnChain(start, after.invoices, after.cursor)
      && after == b.(invoices := b.invoices[id := b.invoices[id].(paid := paid)])
  {
    FlagKeepsChain(start, b.invoices, b.cursor, id, paid);
    if paid {
      PayingEarlierOpensNothing(start, b.invoices, b.cursor, id, amount);
    }
  }

  /** What a toggle does on the chain: paying the last invoice opens the next month and moves the
      cursor to it; any other toggle sets the flag and nothing else. */
  ghost predicate PaidOnChain(start: Date, b: Books, after: Books, amount: int, id: nat, paid: bool)
    requires id < |b.invoices|
  {
    var flagged, next := b.invoices[id := b.invoices[id].(paid := paid)], Chain(start, |b.invoices|);
    && OnChain(start, after.invoices, after.cursor)
    && after == if paid && id == |b.invoices| - 1 then Books(Some(next), flagged + [Invoice(next, amount, false)])
                else b.(invoices := flagged)
  }

  lemma OpenedIsPaidOnChain(start: Date, b: Books, after: Books, amount: int, id: nat)
    requires |b.invoices| == id + 1 && OnChain(start, after.invoices, after.cursor)
    requires after == Books(Some(Chain(start, id + 1)),
                            b.invoices[id := b.invoices[id].(paid := true)]
                            + [Invoice(Chain(start, id + 1), amount, false)])
    ensures PaidOnChain(start, b, after, amount, id, true)
  {
  }

  lemma FlaggedIsPaidOnChain(start: Date, b: Books, after: Books, amount: int, id: nat, paid: bool)
    requires id < |b.invoices| && !(paid && id == |b.invoices| - 1) && OnChain(start, after.invoices, after.cursor)
    requires after == b.(invoices := b.invoices[id := b.invoices[id].(paid := paid)])
    ensures PaidOnChain(start, b, after, amount, id, paid)
  {
  }

  lemma PayingLastIsPaidOnChain(start: Date, b: Books, amount: int, after: Books)
    requires Proper(start) && OnChain(start, b.invoices, b.cursor) && |b.invoices| > 0
    requires after == AfterPayment(b, Some(amount), |b.invoices| - 1, true)
    ensures PaidOnChain(start, b, after, amount, |b.invoices| - 1, true)
  {
    PayingLastKeepsChain(start, b, amount);
    OpenedIsPaidOnChain(start, b, after, amount, |b.invoices| - 1);
  }

  lemma OtherFlagIsPaidOnChain(start: Date, b: Books, amount: int, id: nat, paid: bool)
    requires Proper(start) && OnChain(start, b.invoices, b.cursor) && id < |b.invoices| &&
             !(paid && id == |b.invoices| - 1)
    ensures PaidOnChain(start, b, AfterPayment(b, Some(amount), id, paid), amount, id, paid)
  {
    OtherFlagKeepsChain(start, b, amount, id, paid);
    FlaggedIsPaidOnChain(start, b, AfterPayment(b, Some(amount), id, paid), amount, id, paid);
  }

  lemma PaymentKeepsChain(start: Date, b: Books, amount: int, id: nat, paid: bool)
    requires Proper(start) && OnChain(start, b.invoices, b.cursor) && id < |b.invoices|
    ensures PaidOnChain(start, b, AfterPayment(b, Some(amount), id, paid), amount, id, paid)
  {
    if paid && id == |b.invoices| - 1 {
      PayingLastIsPaidOnChain(start, b, amount, AfterPayment(b, Some(amount), id, true));
    } else {
      OtherFlagIsPaidOnChain(start, b, amount, id, paid);
    }
  }

  // ------------------------------------------------------------- the run

  ghost predicate Separate(accounts: seq<Account>)
  {
    forall i, j :: 0 <= i < j < |accounts| ==> accounts[i] != accounts[j]
  }

  /** The accounts the billing run selects. */
  predicate Selects(active: bool, plan: Option<int>, b: Books, asOf: Date)
  {
    active && plan.Some? && b.cursor.Some? && !After(b.cursor.value, asOf)
  }

  /** What the run makes of one account's books. */
  function RunBooks(active: bool, plan: Option<int>, b: Books, asOf: Date): Books
    requires b.cursor.Some? ==> Proper(b.cursor.value)
  {
    if Selects(active, plan, b, asOf) then CatchUpBooks(b, plan.value, asOf) else b
  }

  /** What the run makes of one account: its books caught up if it is selected and otherwise left
      alone, the invoices it created counted, and an account in step still in step. */
  ghost predicate Handled(plan: Option<int>, start: Date, active: bool, was: Books, now: Books, created: int,
                          asOf: Date)
  {
    && Sound(was) && Sound(now) && now == RunBooks(active, plan, was, asOf)
    && created == |now.invoices| - |was.invoices|
    && created == (if Selects(active, plan, was, asOf) then Missing(was, asOf) else 0)
    && (plan.Some? && OnChain(start, was.invoices, was.cursor) ==> OnChain(start, now.invoices, now.cursor))
  }

  /** Whom the run is for: an active account with a plan amount whose next cycle is due. */
  ghost predicate IsDue(active: bool, plan: Option<int>, b: Books, asOf: Date)
  {
    active && plan.Some? && b.cursor.Some? && Key(b.cursor.value) <= Key(asOf)
  }

  ghost predicate HasInvoice(invoices: seq<Invoice>, d: Date)
  {
    exists k :: 0 <= k < |invoices| && invoices[k].issuedOn == d
  }

  /** Unpaid, at the plan's amount, for a due date of the cycle that had no invoice. */
  ghost predicate IsCycleInvoice(b: Books, invoice: Invoice, amount: int, asOf: Date)
    requires b.cursor.Some?
  {
    && invoice.amount == amount && !invoice.paid && Key(invoice.issuedOn) <= Key(asOf)
    && (exists j: nat :: Chain(b.cursor.value, j) == invoice.issuedOn)
    && !HasInvoice(b.invoices, invoice.issuedOn)
  }

  /** The due dates from the cursor on all have an invoice; the old invoices stay, and each new one
      is for a due date that had none. */
  ghost predicate DueDatesInvoiced(b: Books, invoices: seq<Invoice>, amount: int, asOf: Date)
    requires b.cursor.Some?
  {
    && b.invoices <= invoices
    && (forall j: nat :: Key(Chain(b.cursor.value, j)) <= Key(asOf) ==> HasInvoice(invoices, Chain(b.cursor.value, j)))
    && (forall k :: |b.invoices| <= k < |invoices| ==> IsCycleInvoice(b, invoices[k], amount, asOf))
  }

  /** What a run comes to for one account: its books change exactly when it was due, and then the
      due dates are invoiced and the cursor is past `asOf`. */
  ghost predicate RunMeans(active: bool, plan: Option<int>, was: Books, now: Books, asOf: Date)
  {
    && (now != was <==> IsDue(active, plan, was, asOf))
    && (IsDue(active, plan, was, asOf) ==>
          && now.cursor.Some? && Key(now.cursor.value) > Key(asOf)
          && DueDatesInvoiced(was, now.invoices, plan.value, asOf))
  }

  lemma DueDateHasInvoice(b: Books, amount: int, asOf: Date, j: nat)
    requires Sound(b) && b.cursor.Some? && Key(Chain(b.cursor.value, j)) <= Key(asOf)
    ensures HasInvoice(CatchUpBooks(b, amount, asOf).invoices, Chain(b.cursor.value, j))
  {
    CatchUpFills(b, amount, asOf);
    PendingIsExact(b, asOf, j);
    assert InChain(b.cursor.value, Pending(b, asOf), Chain(b.cursor.value, j));
    assert Exists(CatchUpBooks(b, amount, asOf).invoices, Chain(b.cursor.value, j));
  }

  lemma NewInvoiceIsDue(b: Books, amount: int, asOf: Date, k: nat)
    requires Sound(b) && b.cursor.Some? && |b.invoices| <= k < |CatchUpBooks(b, amount, asOf).invoices|
    ensures IsCycleInvoice(b, CatchUpBooks(b, amount, asOf).invoices[k], amount, asOf)
  {
    CatchUpFills(b, amount, asOf);
    var d := CatchUpBooks(b, amount, asOf).invoices[k].issuedOn;
    assert InChain(b.cursor.value, Pending(b, asOf), d);
    var j: nat :| j < Pending(b, asOf) && Chain(b.cursor.value, j) == d;
    PendingIsExact(b, asOf, j);
  }

  lemma CatchUpInvoicesDueDates(b: Books, amount: int, asOf: Date)
    requires Sound(b) && b.cursor.Some?
    ensures DueDatesInvoiced(b, CatchUpBooks(b, amount, asOf).invoices, amount, asOf)
  {
    CatchUpFills(b, amount, asOf);
    var after := CatchUpBooks(b, amount, asOf).invoices;
    forall j: nat | Key(Chain(b.cursor.value, j)) <= Key(asOf)
      ensures HasInvoice(after, Chain(b.cursor.value, j))
    {
      DueDateHasInvoice(b, amount, asOf, j);
    }
    forall k | |b.invoices| <= k < |after|
      ensures IsCycleInvoice(b, after[k], amount, asOf)
    {
      NewInvoiceIsDue(b, amount, asOf, k);
    }
  }

  lemma HandledMeans(plan: Option<int>, start: Date, active: bool, was: Books, now: Books, created: int, asOf: Date)
    requires Handled(plan, start, active, was, now, created, asOf)
    ensures RunMeans(active, plan, was, now, asOf)
  {
    if IsDue(active, plan, was, asOf) {
      CatchUpFills(was, plan.value, asOf);
      CatchUpInvoicesDueDates(was, plan.value, asOf);
    }
  }

  // Handled, for the i-th account and whatever its books and count have become.
  type Verdict = (nat, Books, int) -> bool

  ghost function VerdictOn(plans: seq<Option<int>>, starts: seq<Date>, actives: seq<bool>, books: seq<Books>,
                           asOf: Date): Verdict
    requires |plans| == |starts| == |actives| == |books|
  {
    (i: nat, now: Books, created: int) =>
      i < |books| && Handled(plans[i], starts[i], actives[i], books[i], now, created, asOf)
  }

  /** The scheduled run over every account. Each selected account is caught up, every other is
      left alone, the count is the number of due dates that had no invoice yet, and after
      `committed` accounts, where the last commit was made, nothing but cursors has moved. */
  method ProcessDueBillingCycles(accounts: seq<Account>, asOf: Date)
    returns (generated: nat, ghost created: seq<nat>, committed: nat)
    requires Separate(accounts) && forall i :: 0 <= i < |accounts| ==> accounts[i].Valid()
    modifies accounts
    ensures |created| == |accounts| && Tallied(created, generated, committed)
    ensures forall i :: 0 <= i < |accounts| ==>
              Handled(accounts[i].plan, accounts[i].signedUp, old(accounts[i].active), old(accounts[i].State()),
                      accounts[i].State(), created[i], asOf)
    ensures forall i :: 0 <= i < |accounts| ==> accounts[i].active == old(accounts[i].active)
    ensures forall i :: 0 <= i < |accounts| ==>
              RunMeans(old(accounts[i].active), accounts[i].plan, old(accounts[i].State()), accounts[i].State(), asOf)
  {
    ghost var plans := seq(|accounts|, i requires 0 <= i < |accounts| => accounts[i].plan);
    ghost var starts := seq(|accounts|, i requires 0 <= i < |accounts| => accounts[i].signedUp);
    ghost var actives := seq(|accounts|, i requires 0 <= i < |accounts| reads accounts => accounts[i].active);
    ghost var books := seq(|accounts|, i requires 0 <= i < |accounts| reads accounts => accounts[i].State());
    ghost var verdict := VerdictOn(plans, starts, actives, books, asOf);
    generated, created, committed := RunAll(accounts, asOf, actives, books, verdict);
    assert forall i :: 0 <= i < |accounts| ==> verdict(i, accounts[i].State(), created[i]);
    forall i | 0 <= i < |accounts|
      ensures RunMeans(old(accounts[i].active), accounts[i].plan, old(accounts[i].State()), accounts[i].State(), asOf)
    {
      HandledMeans(accounts[i].plan, accounts[i].signedUp, old(accounts[i].active), old(accounts[i].State()),
                   accounts[i].State(), created[i], asOf);
    }
  }

  ghost predicate Judges(verdict: Verdict, i: nat, plan: Option<int>, start: Date, active: bool, was: Books, asOf: Date)
  {
    forall now, n {:trigger Handled(plan, start, active, was, now, n, asOf)} ::
      Handled(plan, start, active, was, now, n, asOf) ==> verdict(i, now, n)
  }

  /** The count is the sum of what each account created, and the last commit was made at the
      last account that created anything. */
  ghost predicate Tallied(created: seq<nat>, generated: nat, committed: nat)
  {
    && generated == SumOf(created, Count())
    && committed <= |created| && (committed > 0 ==> created[committed - 1] > 0)
    && forall i :: committed <= i < |created| ==> created[i] == 0
  }

  lemma TallyOne(created: seq<nat>, generated: nat, committed: nat, n: nat)
    requires Tallied(created, generated, committed)
    ensures Tallied(created + [n], generated + n, if n > 0 then |created| + 1 else committed)
  {
    SumAppend(created, n, Count());
  }

  // What the loop needs to know of an account's books as they were.
  ghost predicate Prepared(verdict: Verdict, i: nat, plan: Option<int>, start: Date, active: bool, was: Books,
                           asOf: Date)
  {
    Proper(start) && Sound(was) && Judges(verdict, i, plan, start, active, was, asOf)
  }

  // The loop over the accounts, with what each must come to left abstract.
  method RunAll(accounts: seq<Account>, asOf: Date, ghost actives: seq<bool>, ghost books: seq<Books>,
                ghost verdict: Verdict)
    returns (generated: nat, ghost created: seq<nat>, committed: nat)
    requires Separate(accounts) && |actives| == |books| == |accounts|
    requires forall i :: 0 <= i < |accounts| ==> accounts[i].State() == books[i] && accounts[i].active == actives[i]
    requires forall i :: 0 <= i < |accounts| ==>
               Prepared(verdict, i, accounts[i].plan, accounts[i].signedUp, actives[i], books[i], asOf)
    modifies accounts
    ensures |created| == |accounts| && Tallied(created, generated, committed)
    ensures forall i :: 0 <= i < |accounts| ==> verdict(i, accounts[i].State(), created[i])
    ensures forall i :: 0 <= i < |accounts| ==> accounts[i].active == actives[i]
  {
    generated, created, committed := 0, [], 0;
    var k := 0;
    while k < |accounts|
      invariant 0 <= k <= |accounts| && |created| == k && Tallied(created, generated, committed)
      invariant forall i :: k <= i < |accounts| ==> accounts[i].State() == books[i]
      invariant forall i :: 0 <= i < |accounts| ==> accounts[i].active == actives[i]
      invariant forall i :: 0 <= i < k ==> verdict(i, accounts[i].State(), created[i])
    {
      assert forall i :: 0 <= i < |accounts| && i != k ==> accounts[i] != accounts[k];
      var n := RunOne(accounts[k], asOf, k, actives[k], books[k], verdict);
      TallyOne(created, generated, committed, n);
      k, created := k + 1, created + [n];
      if n > 0 {
        committed, generated := k, generated + n;
      }
    }
  }

  method RunOne(account: Account, asOf: Date, ghost i: nat, ghost active: bool, ghost was: Books,
                ghost verdict: Verdict)
    returns (n: nat)
    requires account.State() == was && account.active == active
    requires Prepared(verdict, i, account.plan, account.signedUp, active, was, asOf)
    modifies account
    ensures verdict(i, account.State(), n) && account.active == active
  {
    n := 0;
    if Selects(account.active, account.plan, account.State(), asOf) {
      n := account.CatchUp(asOf);
    }
    assert Handled(account.plan, account.signedUp, active, was, account.State(), n, asOf);
  }

  function Count(): nat -> int { (n: nat) => n }

  /** What a job comes to for one account: nothing unless it was due, and then the due dates are
      invoiced; an advance of the cursor may be lost, but only where every due date had an invoice. */
  ghost predicate JobMeans(active: bool, plan: Option<int>, was: Books, now: Books, asOf: Date)
  {
    && (!IsDue(active, plan, was, asOf) ==> now == was)
    && (IsDue(active, plan, was, asOf) ==> DueDatesInvoiced(was, now.invoices, plan.value, asOf))
    && (IsDue(active, plan, was, asOf) && now.invoices != was.invoices ==>
          now.cursor.Some? && Key(now.cursor.value) > Key(asOf))
  }

  // What a job must leave of one account's books, the last advance kept or lost.
  ghost predicate SettledBooks(plan: Option<int>, start: Date, active: bool, was: Books, now: Books, asOf: Date)
  {
    && Sound(was) && Sound(now)
    && (now == was || now == RunBooks(active, plan, was, asOf))
    && now.invoices == RunBooks(active, plan, was, asOf).invoices
    && (Selects(active, plan, was, asOf) ==> Missing(now, asOf) == 0)
    && (Selects(active, plan, was, asOf) ==> forall later | Key(asOf) <= Key(later) ::
          CatchUpBooks(now, plan.value, later) == CatchUpBooks(was, plan.value, later))
    && (plan.Some? && OnChain(start, was.invoices, was.cursor) ==> OnChain(start, now.invoices, now.cursor))
  }

  lemma ClosingSettles(plan: Option<int>, start: Date, active: bool, was: Books, asOf: Date, committed: bool)
    requires Sound(was) && Proper(start)
    requires !committed && Selects(active, plan, was, asOf) ==> Missing(was, asOf) == 0
    ensures SettledBooks(plan, start, active, was, if committed then RunBooks(active, plan, was, asOf) else was, asOf)
    ensures JobMeans(active, plan, was, if committed then RunBooks(active, plan, was, asOf) else was, asOf)
  {
    if Selects(active, plan, was, asOf) {
      CatchUpFills(was, plan.value, asOf);
      CatchUpInvoicesDueDates(was, plan.value, asOf);
      RerunCreatesNothing(was, plan.value, asOf, asOf, committed);
      forall later | Key(asOf) <= Key(later)
        ensures CatchUpBooks(if committed then CatchUpBooks(was, plan.value, asOf) else was, plan.value, later)
                == CatchUpBooks(was, plan.value, later)
      {
        RerunCreatesNothing(was, plan.value, asOf, later, committed);
      }
      if OnChain(start, was.invoices, was.cursor) {
        CatchUpKeepsChain(start, was, plan.value, asOf);
      }
    }
  }

  /** The scheduled job: run, then close the session, which rolls back whatever was not committed.
      Whatever that loses, the invoices are those of the full run, a rerun would create none, every
      later run ends as if nothing had been lost, and an account in step stays so. */
  method BillingJob(accounts: seq<Account>, asOf: Date) returns (generated: nat, ghost created: seq<nat>)
    requires Separate(accounts) && forall i :: 0 <= i < |accounts| ==> accounts[i].Valid()
    modifies accounts
    ensures |created| == |accounts| && generated == SumOf(created, Count())
    ensures forall i :: 0 <= i < |accounts| ==> created[i] == |accounts[i].invoices| - |old(accounts[i].invoices)|
    ensures forall i :: 0 <= i < |accounts| ==> accounts[i].active == old(accounts[i].active)
    ensures forall i :: 0 <= i < |accounts| ==>
              SettledBooks(accounts[i].plan, accounts[i].signedUp, old(accounts[i].active), old(accounts[i].State()),
                           accounts[i].State(), asOf)
    ensures forall i :: 0 <= i < |accounts| ==>
              JobMeans(old(accounts[i].active), accounts[i].plan, old(accounts[i].State()), accounts[i].State(), asOf)
  {
    var committed;
    var cursors := seq(|accounts|, i requires 0 <= i < |accounts| reads accounts => accounts[i].nextBilling);
    generated, created, committed := ProcessDueBillingCycles(accounts, asOf);
    CloseSession(accounts, cursors, committed);
    forall i | 0 <= i < |accounts|
      ensures SettledBooks(accounts[i].plan, accounts[i].signedUp, old(accounts[i].active), old(accounts[i].State()),
                           accounts[i].State(), asOf)
      ensures JobMeans(old(accounts[i].active), accounts[i].plan, old(accounts[i].State()), accounts[i].State(), asOf)
    {
      ClosingSettles(accounts[i].plan, accounts[i].signedUp, old(accounts[i].active), old(accounts[i].State()), asOf,
                     i < committed);
    }
  }

  /** Roll back what was not committed: the cursors of the accounts after the last commit. */
  method CloseSession(accounts: seq<Account>, cursors: seq<Option<Date>>, committed: nat)
    requires Separate(accounts) && |cursors| == |accounts| && committed <= |accounts|
    modifies accounts
    ensures forall i :: 0 <= i < committed ==> unchanged(accounts[i])
    ensures forall i :: committed <= i < |accounts| ==>
              accounts[i].State() == Books(cursors[i], old(accounts[i].invoices)) &&
              accounts[i].active == old(accounts[i].active)
  {
    var k := committed;
    while k < |accounts|
      invariant committed <= k <= |accounts|
      invariant forall i :: 0 <= i < committed || k <= i < |accounts| ==> unchanged(accounts[i])
      invariant forall i :: committed <= i < k ==>
                  accounts[i].State() == Books(cursors[i], old(accounts[i].invoices)) &&
                  accounts[i].active == old(accounts[i].active)
    {
      accounts[k].nextBilling := cursors[k];
      k := k + 1;
    }
  }
}
