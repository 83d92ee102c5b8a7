/** Row-lock acquisition for multi-line stock mutations. Each transaction takes its product
    locks one at a time in `sort_lock_order` order and releases them all when it ends. */
module LockOrder {
  import opened Prelude

  ghost predicate Ascending(s: seq<int>)
  {
    forall i, j :: 0 <= i < j < |s| ==> s[i] < s[j]
  }

  function Insert(x: int, s: seq<int>): (r: seq<int>)
    requires Ascending(s)
    ensures Ascending(r) && forall a :: a in r <==> a == x || a in s
  {
    if |s| == 0 then [x]
    else if x < s[0] then [x] + s
    else if x == s[0] then s
    else
      assert s == [s[0]] + s[1..];
      var rest := Insert(x, s[1..]);
      assert forall k :: 0 <= k < |rest| ==> rest[k] in rest;
      [s[0]] + rest
  }

  /** `sorted(set(product_ids))`: ascending, without repeats, the same products. */
  function SortLockOrder(products: seq<int>): (r: seq<int>)
    ensures Ascending(r) && forall a :: a in r <==> a in products
  {
    if |products| == 0 then []
    else
      assert products == [products[0]] + products[1..];
      Insert(products[0], SortLockOrder(products[1..]))
  }

  lemma FirstIsMember(s: seq<int>)
    ensures |s| > 0 ==> s[0] in s
  {
  }

  /** The order is a function of the set of products: any two requests for the same
      products lock them in the same order. */
  lemma {:induction false} LockOrderIsCanonical(one: seq<int>, two: seq<int>)
    requires Ascending(one) && Ascending(two) && forall a :: a in one <==> a in two
    ensures one == two
  {
    if |one| == 0 {
      FirstIsMember(two);
    } else {
      assert one[0] in one;
      assert |two| > 0 && two[0] in two;
      var i :| 0 <= i < |one| && one[i] == two[0];
      var j :| 0 <= j < |two| && two[j] == one[0];
      assert one == [one[0]] + one[1..] && two == [two[0]] + two[1..];
      assert one[0] == two[0];
      forall a
        ensures a in one[1..] <==> a in one && a != one[0]
        ensures a in two[1..] <==> a in two && a != two[0]
      {
        assert a in one[1..] ==> exists k :: 1 <= k < |one| && one[k] == a;
        assert a in two[1..] ==> exists k :: 1 <= k < |two| && two[k] == a;
      }
      LockOrderIsCanonical(one[1..], two[1..]);
    }
  }

  // -------------------------------------------------- the lock protocol

  /** A transaction holds the first `held` locks of its plan until it is done. */
  datatype Tx = Tx(plan: seq<int>, held: nat, done: bool) {
    predicate Holds(p: int) { !done && held <= |plan| && p in plan[..held] }
    predicate Waiting() { !done && held < |plan| }
  }

  ghost predicate Free(txs: seq<Tx>, p: int)
  {
    forall t :: 0 <= t < |txs| ==> !txs[t].Holds(p)
  }

  ghost predicate CanStep(txs: seq<Tx>, t: nat)
    requires t < |txs|
  {
    !txs[t].done && (txs[t].held < |txs[t].plan| ==> Free(txs, txs[t].plan[txs[t].held]))
  }

  /** Take the next lock, or, when all are held, finish and release them. */
  function Step(txs: seq<Tx>, t: nat): seq<Tx>
    requires t < |txs|
  {
    if txs[t].held < |txs[t].plan| then txs[t := txs[t].(held := txs[t].held + 1)]
    else txs[t := txs[t].(done := true)]
  }

  /** Transactions for these product lists, before any lock is taken. */
  function Start(requests: seq<seq<int>>): seq<Tx>
  {
    seq(|requests|, i requires 0 <= i < |requests| => Tx(SortLockOrder(requests[i]), 0, false))
  }

  /** A run as the transactions chosen to step, each able to when its turn comes. */
  ghost predicate Runs(txs: seq<Tx>, choices: seq<nat>)
    decreases |choices|
  {
    |choices| == 0 ||
    (choices[0] < |txs| && CanStep(txs, choices[0]) && Runs(Step(txs, choices[0]), choices[1..]))
  }

  function After(txs: seq<Tx>, choices: seq<nat>): seq<Tx>
    decreases |choices|
  {
    if |choices| == 0 || choices[0] >= |txs| then txs else After(Step(txs, choices[0]), choices[1..])
  }

  ghost predicate Ordered(txs: seq<Tx>)
  {
    forall t :: 0 <= t < |txs| ==> Ascending(txs[t].plan) && txs[t].held <= |txs[t].plan|
  }

  /** No product row is locked by two transactions at once. */
  ghost predicate Exclusive(txs: seq<Tx>)
  {
    forall t, u, p | 0 <= t < u < |txs| :: !(txs[t].Holds(p) && txs[u].Holds(p))
  }

  lemma StepKeepsOrder(txs: seq<Tx>, t: nat)
    requires Ordered(txs) && Exclusive(txs) && t < |txs| && CanStep(txs, t)
    ensures Ordered(Step(txs, t)) && Exclusive(Step(txs, t))
  {
    if txs[t].held < |txs[t].plan| {
      var q := txs[t].plan[txs[t].held];
      var plan, held := txs[t].plan, txs[t].held;
      assert plan[..held + 1] == plan[..held] + [q];
      forall p | Step(txs, t)[t].Holds(p)
        ensures txs[t].Holds(p) || p == q
      {
      }
    }
  }

  lemma {:induction false} RunKeepsOrder(txs: seq<Tx>, choices: seq<nat>)
    requires Ordered(txs) && Exclusive(txs) && Runs(txs, choices)
    ensures Ordered(After(txs, choices)) && Exclusive(After(txs, choices)) && |After(txs, choices)| == |txs|
    decreases |choices|
  {
    if |choices| != 0 {
      StepKeepsOrder(txs, choices[0]);
      RunKeepsOrder(Step(txs, choices[0]), choices[1..]);
    }
  }

  // The blocked transaction's wanted lock is held by one that wants a higher lock, so
  // climbing to the highest wanted lock reaches a transaction that can step.
  lemma {:induction false} SomeoneCanStepFrom(txs: seq<Tx>, t: nat, bound: int) returns (u: nat)
    requires Ordered(txs) && t < |txs| && txs[t].Waiting()
    requires forall v :: 0 <= v < |txs| && txs[v].Waiting() ==> txs[v].plan[txs[v].held] <= bound
    ensures u < |txs| && CanStep(txs, u)
    decreases bound - txs[t].plan[txs[t].held]
  {
    var want := txs[t].plan[txs[t].held];
    if Free(txs, want) {
      u := t;
    } else {
      var holder: nat :| holder < |txs| && txs[holder].Holds(want);
      if txs[holder].Waiting() {
        u := SomeoneCanStepFrom(txs, holder, bound);
      } else {
        u := holder;
      }
    }
  }

  lemma {:induction false} HighestWanted(txs: seq<Tx>, n: nat) returns (bound: int)
    requires n <= |txs|
    ensures forall v :: 0 <= v < n && txs[v].Waiting() ==> txs[v].plan[txs[v].held] <= bound
  {
    bound := 0;
    if n != 0 {
      var b := HighestWanted(txs, n - 1);
      bound := if txs[n - 1].Waiting() then Max(b, txs[n - 1].plan[txs[n - 1].held]) else b;
    }
  }

  /** Deadlock freedom: in every reachable state with an unfinished transaction, one can step. */
  lemma NoDeadlock(requests: seq<seq<int>>, choices: seq<nat>, t: nat) returns (u: nat)
    requires Runs(Start(requests), choices) && t < |After(Start(requests), choices)|
    requires !After(Start(requests), choices)[t].done
    ensures u < |After(Start(requests), choices)| && CanStep(After(Start(requests), choices), u)
  {
    RunKeepsOrder(Start(requests), choices);
    var txs := After(Start(requests), choices);
    if txs[t].Waiting() {
      var bound := HighestWanted(txs, |txs|);
      u := SomeoneCanStepFrom(txs, t, bound);
    } else {
      u := t;
    }
  }

  function Remaining(): Tx -> int
  {
    (x: Tx) => if x.done then 0 else 1 + (if x.held <= |x.plan| then |x.plan| - x.held else 0)
  }

  /** Steps still to take: one per lock not yet held, and one to finish. */
  function Measure(txs: seq<Tx>): int { SumOf(txs, Remaining()) }

  lemma {:induction false} MeasureIsNonNegative(txs: seq<Tx>)
    ensures Measure(txs) >= 0
    ensures Measure(txs) == 0 <==> forall t :: 0 <= t < |txs| ==> txs[t].done
  {
    if |txs| != 0 {
      var n := |txs| - 1;
      MeasureIsNonNegative(txs[..n]);
      assert forall t :: 0 <= t < n ==> txs[..n][t] == txs[t];
    }
  }

  /** Every run finishes: it has exactly as many steps as the measure has fallen, and
      nothing is left unfinished exactly when the whole measure is spent. */
  lemma {:induction false} RunsAreBounded(txs: seq<Tx>, choices: seq<nat>)
    requires Ordered(txs) && Exclusive(txs) && Runs(txs, choices)
    ensures Measure(After(txs, choices)) == Measure(txs) - |choices|
    ensures |choices| <= Measure(txs)
    ensures |choices| == Measure(txs) <==> forall t :: 0 <= t < |After(txs, choices)| ==> After(txs, choices)[t].done
    decreases |choices|
  {
    if |choices| != 0 {
      var t := choices[0];
      SumUpdate(txs, t, Step(txs, t)[t], Remaining());
      StepKeepsOrder(txs, t);
      RunsAreBounded(Step(txs, t), choices[1..]);
    }
    MeasureIsNonNegative(After(txs, choices));
  }

  lemma {:induction false} AfterLast(txs: seq<Tx>, choices: seq<nat>)
    requires Runs(txs, choices) && |choices| > 0
    ensures var n := |choices| - 1;
      && Runs(txs, choices[..n]) && choices[n] < |After(txs, choices[..n])|
      && After(txs, choices) == Step(After(txs, choices[..n]), choices[n])
    decreases |choices|
  {
    var n := |choices| - 1;
    if n == 0 {
      assert choices[1..] == [] && choices[..0] == [];
    } else {
      AfterLast(Step(txs, choices[0]), choices[1..]);
      assert choices[1..][..n - 1] == choices[..n][1..];
    }
  }

  lemma {:induction false} PlansStay(requests: seq<seq<int>>, choices: seq<nat>)
    requires Runs(Start(requests), choices)
    ensures |After(Start(requests), choices)| == |requests|
    ensures forall t :: 0 <= t < |requests| ==> After(Start(requests), choices)[t].plan == SortLockOrder(requests[t])
    decreases |choices|
  {
    if |choices| != 0 {
      AfterLast(Start(requests), choices);
      PlansStay(requests, choices[..|choices| - 1]);
    }
  }

  /** At some moment of the run, transaction `t` holds the lock of `p`. */
  ghost predicate HoldsAtSomeTime(requests: seq<seq<int>>, choices: seq<nat>, t: nat, p: int)
  {
    exists k :: 0 <= k <= |choices| && HoldsAt(requests, choices[..k], t, p)
  }

  ghost predicate HoldsAt(requests: seq<seq<int>>, choices: seq<nat>, t: nat, p: int)
  {
    t < |After(Start(requests), choices)| && After(Start(requests), choices)[t].Holds(p)
  }

  lemma {:induction false} FinishedHeldAll(requests: seq<seq<int>>, choices: seq<nat>, t: nat, p: int)
    requires Runs(Start(requests), choices) && t < |requests| && p in requests[t]
    requires t < |After(Start(requests), choices)| && After(Start(requests), choices)[t].done
    ensures HoldsAtSomeTime(requests, choices, t, p)
    decreases |choices|
  {
    var n := |choices| - 1;
    AfterLast(Start(requests), choices);
    RunKeepsOrder(Start(requests), choices[..n]);
    PlansStay(requests, choices[..n]);
    var was := After(Start(requests), choices[..n])[t];
    if was.done {
      FinishedHeldAll(requests, choices[..n], t, p);
      var k :| 0 <= k <= n && HoldsAt(requests, choices[..n][..k], t, p);
      assert choices[..n][..k] == choices[..k];
    } else {
      assert was.plan[..was.held] == was.plan;
      assert HoldsAt(requests, choices[..n], t, p);
    }
  }

  lemma {:induction false} RunPrefix(txs: seq<Tx>, choices: seq<nat>, k: nat)
    requires Runs(txs, choices) && k <= |choices|
    ensures Runs(txs, choices[..k])
    decreases |choices|
  {
    if k != 0 {
      RunPrefix(Step(txs, choices[0]), choices[1..], k - 1);
      assert choices[..k][1..] == choices[1..][..k - 1];
    }
  }

  /** A transaction that finishes has held, at some moment, the lock of every product of its
      request, and of no other. */
  lemma FinishedHeldItsRequest(requests: seq<seq<int>>, choices: seq<nat>, t: nat, p: int)
    requires Runs(Start(requests), choices) && t < |requests| && t < |After(Start(requests), choices)|
    ensures HoldsAtSomeTime(requests, choices, t, p) ==> p in requests[t]
    ensures After(Start(requests), choices)[t].done ==> (HoldsAtSomeTime(requests, choices, t, p) <==> p in requests[t])
  {
    if HoldsAtSomeTime(requests, choices, t, p) {
      var k :| 0 <= k <= |choices| && HoldsAt(requests, choices[..k], t, p);
      RunPrefix(Start(requests), choices, k);
      PlansStay(requests, choices[..k]);
    }
    if After(Start(requests), choices)[t].done && p in requests[t] {
      FinishedHeldAll(requests, choices, t, p);
    }
  }

  /** The order matters: two transactions that take any two locks in opposite orders can reach
      a state where neither can step. */
  lemma OppositeOrdersDeadlock(p: int, q: int)
    requires p != q
    ensures var txs := [Tx([p, q], 0, false), Tx([q, p], 0, false)];
      Runs(txs, [0, 1]) && !CanStep(After(txs, [0, 1]), 0) && !CanStep(After(txs, [0, 1]), 1)
  {
    var txs := [Tx([p, q], 0, false), Tx([q, p], 0, false)];
    var one := [Tx([p, q], 1, false), Tx([q, p], 0, false)];
    var two := [Tx([p, q], 1, false), Tx([q, p], 1, false)];
    assert Step(txs, 0) == one && Step(one, 1) == two;
    assert [0, 1][1..] == [1] && [1][1..] == [];
    assert Runs(two, []) && Runs(one, [1]);
    assert After(two, []) == two && After(one, [1]) == two;
    assert [p, q][..1] == [p] && [q, p][..1] == [q];
    assert two[0].Holds(p) && two[1].Holds(q);
  }
}
