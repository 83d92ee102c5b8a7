/** Integer minor units: conversion, rounding to a coin, and the largest-remainder split. */
module Money {
  import opened Prelude

  datatype Error = EmptyWeights | NegativeWeight | BadIncrement | TooPrecise | UnknownCurrency

  function Abs(x: int): int { if x < 0 then -x else x }

  function Same(): int -> int { (x: int) => x }

  function Sum(s: seq<int>): int { SumOf(s, Same()) }

  // --------------------------------------------- conversion and rounding

  /** Minor units per major unit, for the currencies the system knows. */
  function Scaling(currency: string): Result<int, Error>
  {
    if currency in {"PKR", "AED", "SAR", "GBP", "USD"} then Ok(100) else Err(UnknownCurrency)
  }

  /** Major units to minor units, refusing anything below the minor unit. */
  function ToMinor(amount: real, currency: string): Result<int, Error>
  {
    var scale := Scaling(currency);
    if scale.Err? then Err(scale.error) else Whole(Times(amount, scale.value))
  }

  function Times(amount: real, scale: int): real { amount * scale as real }

  function Whole(scaled: real): Result<int, Error>
  {
    if scaled != scaled.Floor as real then Err(TooPrecise) else Ok(scaled.Floor)
  }

  function ToDecimal(minor: int, currency: string): Result<real, Error>
  {
    var scale := Scaling(currency);
    if scale.Err? then Err(scale.error) else Ok(minor as real / scale.value as real)
  }

  /** The two conversions are inverse, and an amount converts exactly when it is some
      whole number of minor units. */
  lemma ConversionRoundTrips(amount: real, minor: int, currency: string)
    requires Scaling(currency).Ok?
    ensures ToMinor(ToDecimal(minor, currency).value, currency) == Ok(minor)
    ensures ToMinor(amount, currency) == Ok(minor) <==> amount == ToDecimal(minor, currency).value
  {
    var d := ToDecimal(minor, currency).value;
    ConversionIsHundredfold(amount, minor, currency);
    ConversionIsHundredfold(d, minor, currency);
  }

  /** Every known currency has a hundred minor units to the unit: an amount converts exactly when a
      hundred times it is whole, an unknown currency never does. */
  lemma ConversionIsHundredfold(amount: real, minor: int, currency: string)
    ensures currency in {"PKR", "AED", "SAR", "GBP", "USD"} ==>
              && (ToMinor(amount, currency) == Ok(minor) <==> amount * 100.0 == minor as real)
              && (ToMinor(amount, currency) == Err(TooPrecise) <==> amount * 100.0 != (amount * 100.0).Floor as real)
              && ToDecimal(minor, currency).Ok? && ToDecimal(minor, currency).value * 100.0 == minor as real
    ensures currency !in {"PKR", "AED", "SAR", "GBP", "USD"} ==>
              ToMinor(amount, currency) == Err(UnknownCurrency) && ToDecimal(minor, currency) == Err(UnknownCurrency)
  {
    if currency in {"PKR", "AED", "SAR", "GBP", "USD"} {
      assert Scaling(currency) == Ok(100);
      assert Times(amount, 100) == amount * 100.0;
      WholeIsExact(amount * 100.0, minor);
    }
  }

  lemma WholeIsExact(scaled: real, minor: int)
    ensures Whole(scaled) == Ok(minor) <==> scaled == minor as real
    ensures Whole(scaled) == Err(TooPrecise) <==> scaled != scaled.Floor as real
  {
  }

  datatype Rounding = HalfUp | HalfEven | Down | Up

  /** The whole increments of an amount, or one more, by what is left over. */
  function Count(whole: nat, part: nat, increment: nat, mode: Rounding): nat
  {
    match mode
    case HalfUp => if 2 * part >= increment then whole + 1 else whole
    case HalfEven => if 2 * part > increment || (2 * part == increment && whole % 2 == 1) then whole + 1 else whole
    case Down => whole
    case Up => if part > 0 then whole + 1 else whole
  }

  /** How many increments the magnitude `size` rounds to. */
  function Increments(size: nat, increment: nat, mode: Rounding): nat
    requires increment > 0
  {
    Count(size / increment, size % increment, increment, mode)
  }

  /** The magnitude `size` rounded to whole increments. */
  function Rounded(size: nat, increment: nat, mode: Rounding): int
    requires increment > 0
  {
    Increments(size, increment, mode) * increment
  }

  /** Round to a multiple of `increment`; every mode acts on the magnitude. */
  function RoundTo(minor: int, increment: int, mode: Rounding): (r: Result<int, Error>)
    ensures r == Err(BadIncrement) <==> increment <= 0
  {
    if increment <= 0 then Err(BadIncrement)
    else if increment == 1 then Ok(minor)
    else if minor < 0 then Ok(-Rounded(-minor, increment, mode))
    else Ok(Rounded(minor, increment, mode))
  }

  // Multiples of d other than the w-th are at least a whole d away from it.
  lemma MultiplesApart(d: int, w: int, k: int)
    requires d > 0
    ensures k < w ==> k * d <= w * d - d
    ensures k > w ==> k * d >= w * d + d
    ensures k > w + 1 ==> k * d >= w * d + 2 * d
    ensures (w + 1) * d == w * d + d
  {
    Expand(w, 1, d);
    if k < w {
      Scale(k, w - 1, d);
    } else if k > w + 1 {
      Scale(w + 2, k, d);
    } else if k > w {
      Scale(w + 1, k, d);
    }
  }

  lemma WholeAndPart(size: nat, d: nat)
    requires d > 0
    ensures size == size / d * d + size % d && 0 <= size % d < d
  {
  }

  /** The half modes give a nearest multiple, ties going up in magnitude or to the even count;
      down gives the last multiple not past the amount, up the first not short of it. */
  lemma IncrementsAreBest(size: nat, increment: nat, mode: Rounding, k: int)
    requires increment > 0
    ensures var n := Increments(size, increment, mode);
      && (mode == HalfUp || mode == HalfEven ==> Abs(n * increment - size) <= Abs(k * increment - size))
      && (mode == HalfUp && k != n && Abs(n * increment - size) == Abs(k * increment - size) ==> k < n)
      && (mode == HalfEven && k != n && Abs(n * increment - size) == Abs(k * increment - size) ==> n % 2 == 0)
      && (mode == Down ==> n * increment <= size && (k * increment <= size ==> k <= n))
      && (mode == Up ==> n * increment >= size && (k * increment >= size ==> k >= n))
  {
    var w := size / increment;
    WholeAndPart(size, increment);
    MultiplesApart(increment, w, k);
    MultiplesApart(increment, w, w);
    BestCount(size, increment, mode, k, w, size % increment, w * increment, (w + 1) * increment, k * increment);
    var n := Increments(size, increment, mode);
    assert n == w || n == w + 1;
    assert n * increment == if n == w then w * increment else (w + 1) * increment;
  }

  // The same with every product named, so that only linear arithmetic is left.
  lemma BestCount(size: nat, d: nat, mode: Rounding, k: int, w: nat, part: nat, wd: int, wd1: int, kd: int)
    requires size == wd + part && part < d && wd1 == wd + d
    requires (k < w ==> kd <= wd - d) && (k > w ==> kd >= wd + d) && (k > w + 1 ==> kd >= wd + 2 * d)
    requires (k == w ==> kd == wd) && (k == w + 1 ==> kd == wd1)
    ensures var n, nd := Count(w, part, d, mode), if Count(w, part, d, mode) == w then wd else wd1;
      && (mode == HalfUp || mode == HalfEven ==> Abs(nd - size) <= Abs(kd - size))
      && (mode == HalfUp && k != n && Abs(nd - size) == Abs(kd - size) ==> k < n)
      && (mode == HalfEven && k != n && Abs(nd - size) == Abs(kd - size) ==> n % 2 == 0)
      && (mode == Down ==> nd <= size && (kd <= size ==> k <= n))
      && (mode == Up ==> nd >= size && (kd >= size ==> k >= n))
  {
  }

  lemma IncrementsAreClose(size: nat, increment: nat, mode: Rounding)
    requires increment > 0
    ensures size < Increments(size, increment, mode) * increment + increment
    ensures Increments(size, increment, mode) * increment < size + increment
    ensures size % increment == 0 ==> Increments(size, increment, mode) * increment == size
  {
    WholeAndPart(size, increment);
    MultiplesApart(increment, size / increment, 0);
  }

  lemma RoundedIsMultiple(size: nat, increment: nat, mode: Rounding)
    requires increment > 0
    ensures Rounded(size, increment, mode) % increment == 0 && -Rounded(size, increment, mode) % increment == 0
    ensures size - increment < Rounded(size, increment, mode) < size + increment
    ensures size % increment == 0 ==> Rounded(size, increment, mode) == size
  {
    var n := Increments(size, increment, mode);
    IncrementsAreClose(size, increment, mode);
    MultipleHasNoRemainder(n, increment);
    NegatedMultiple(n * increment, increment);
  }

  /** Rounding lands on a multiple less than one increment away, leaves multiples alone, and
      treats debits like credits. */
  lemma RoundToLandsOnMultiple(minor: int, increment: int, mode: Rounding)
    requires increment > 0
    ensures RoundTo(minor, increment, mode).Ok? && RoundTo(minor, increment, mode).value % increment == 0
    ensures minor % increment == 0 ==> RoundTo(minor, increment, mode) == Ok(minor)
    ensures RoundTo(-minor, increment, mode) == Ok(-RoundTo(minor, increment, mode).value)
    ensures Abs(RoundTo(minor, increment, mode).value - minor) < increment
  {
    if increment != 1 {
      RoundedIsMultiple(Abs(minor), increment, mode);
      RoundedIsMultiple(0, increment, mode);
      if minor < 0 && minor % increment == 0 {
        NegatedMultiple(minor, increment);
      }
    }
  }

  /** What each mode gives, among all multiples k * increment: the half modes a nearest one, ties
      going away from zero or to the even count; down the last not past the amount on its side of
      zero, up the first not short of it. */
  lemma RoundToIsBest(minor: int, increment: int, mode: Rounding, k: int)
    requires increment > 0
    ensures RoundTo(minor, increment, mode).Ok?
    ensures var v, m := RoundTo(minor, increment, mode).value, k * increment;
      && (mode == HalfUp || mode == HalfEven ==> Abs(v - minor) <= Abs(m - minor))
      && (mode == HalfUp && m != v && Abs(v - minor) == Abs(m - minor) ==> Abs(m) < Abs(v))
      && (mode == HalfEven && m != v && Abs(v - minor) == Abs(m - minor) ==> v % (2 * increment) == 0)
      && (mode == Down ==> Abs(v) <= Abs(minor) && (Abs(m) <= Abs(minor) ==> Abs(m) <= Abs(v)))
      && (mode == Up ==> Abs(v) >= Abs(minor) && (Abs(m) >= Abs(minor) ==> Abs(m) >= Abs(v)))
  {
    if increment == 1 {
      assert k * increment == k;
    } else {
      var size, n := Abs(minor), Increments(Abs(minor), increment, mode);
      BestOnMagnitude(size, increment, mode, k);
      BestOnMagnitude(size, increment, mode, -k);
      assert -k * increment == -(k * increment);
    }
  }

  // The same of a magnitude, against multiples of either sign.
  lemma BestOnMagnitude(size: nat, increment: nat, mode: Rounding, k: int)
    requires increment > 0
    ensures var v, m := Rounded(size, increment, mode), k * increment;
      && v >= 0
      && (mode == HalfUp || mode == HalfEven ==> Abs(v - size) <= Abs(m - size))
      && (mode == HalfUp && m != v && Abs(v - size) == Abs(m - size) ==> Abs(m) < v)
      && (mode == HalfEven && m != v && Abs(v - size) == Abs(m - size) ==>
            v % (2 * increment) == 0 && -v % (2 * increment) == 0)
      && (mode == Down ==> v <= size && (Abs(m) <= size ==> Abs(m) <= v))
      && (mode == Up ==> v >= size && (Abs(m) >= size ==> Abs(m) >= v))
  {
    var n := Increments(size, increment, mode);
    Scale(0, n, increment);
    IncrementsAreBest(size, increment, mode, k);
    IncrementsAreBest(size, increment, mode, -k);
    assert -k * increment == -(k * increment);
    OrderedMultiples(k, n, increment);
    OrderedMultiples(-k, n, increment);
    if n % 2 == 0 {
      var h: int := n / 2;
      assert n == 2 * h;
      MultipleHasNoRemainder(h, 2 * increment);
      MultipleHasNoRemainder(-h, 2 * increment);
      EvenMultiple(h, increment);
    }
  }

  lemma EvenMultiple(h: int, d: int)
    ensures 2 * h * d == h * (2 * d) && -(2 * h * d) == -h * (2 * d)
  {
  }

  lemma OrderedMultiples(k: int, n: int, d: int)
    requires d > 0
    ensures k < n ==> k * d < n * d
    ensures k == n ==> k * d == n * d
    ensures k > n ==> k * d > n * d
  {
    MultiplesApart(d, n, k);
  }

  lemma NegatedMultiple(minor: int, increment: int)
    requires increment > 0 && minor % increment == 0
    ensures -minor % increment == 0
  {
    MultipleHasNoRemainder(-(minor / increment), increment);
    assert -(minor / increment) * increment == -(minor / increment * increment) == -minor;
  }

  lemma MultipleHasNoRemainder(k: int, d: int)
    requires d > 0
    ensures (k * d) % d == 0
  {
    assert k * d == k * d + 0;
    if (k * d) % d != 0 {
      var q, r := k * d / d, k * d % d;
      assert (k - q) * d == r;
      if k - q >= 1 {
        Scale(1, k - q, d);
      } else {
        Scale(k - q, 0, d);
      }
    }
  }

  // ------------------------------------------------ proportional split

  function Negated(x: seq<int>): seq<int>
  {
    seq(|x|, i requires 0 <= i < |x| => -x[i])
  }

  /** What the exact share of a slot leaves over its floor, in units of 1/W. */
  function FloorOf(amount: nat, w: nat, total: nat): nat
    requires total > 0
  {
    amount * w / total
  }

  function LeftOf(amount: nat, w: nat, total: nat): nat
    requires total > 0
  {
    amount * w % total
  }

  predicate Weights(weights: seq<int>)
  {
    |weights| > 0 && forall i :: 0 <= i < |weights| ==> weights[i] >= 0
  }

  /** Slot i is served before slot j: larger remainder first, lower index on a tie. */
  predicate ServedBefore(amount: nat, total: nat, weights: seq<int>, i: nat, j: nat)
    requires total > 0 && Weights(weights) && i < |weights| && j < |weights|
  {
    var ri, rj := LeftOf(amount, weights[i], total), LeftOf(amount, weights[j], total);
    ri > rj || (ri == rj && i < j)
  }

  /** Each slot has its floor or one more; the extra units went to the largest remainders. */
  ghost predicate IsShare(amount: nat, weights: seq<int>, x: seq<int>)
    requires Weights(weights) && Sum(weights) > 0
  {
    var total := Sum(weights);
    && |x| == |weights|
    && Sum(x) == amount
    && (forall i :: 0 <= i < |x| ==> 0 <= x[i] - FloorOf(amount, weights[i], total) <= 1)
    && (forall i, j | 0 <= i < |x| && 0 <= j < |x| ::
          x[i] > FloorOf(amount, weights[i], total) && x[j] == FloorOf(amount, weights[j], total) ==>
          ServedBefore(amount, total, weights, i, j))
  }

  /** The whole contract of the split, for either sign and for weights that are all zero. */
  ghost predicate IsSplit(amount: int, weights: seq<int>, x: seq<int>)
    requires Weights(weights)
  {
    if Sum(weights) <= 0 then
      |x| == |weights| && x[0] == amount && forall i :: 1 <= i < |x| ==> x[i] == 0
    else if amount < 0 then IsShare(-amount, weights, Negated(x))
    else IsShare(amount, weights, x)
  }

  // A slot's exact share, its floor and its remainder.
  lemma Division(amount: nat, w: nat, total: nat)
    requires total > 0
    ensures amount * w == total * FloorOf(amount, w, total) + LeftOf(amount, w, total)
    ensures 0 <= LeftOf(amount, w, total) < total
  {
  }

  function Floors(amount: nat, weights: seq<int>, total: nat): (f: seq<int>)
    requires total > 0 && Weights(weights)
    ensures |f| == |weights|
  {
    seq(|weights|, i requires 0 <= i < |weights| => FloorOf(amount, weights[i], total))
  }

  function Lefts(amount: nat, weights: seq<int>, total: nat): (r: seq<int>)
    requires total > 0 && Weights(weights)
    ensures |r| == |weights|
  {
    seq(|weights|, i requires 0 <= i < |weights| => LeftOf(amount, weights[i], total))
  }

  ghost predicate Divides(amount: int, total: int, w: int, f: int, r: int)
  {
    amount * w == total * f + r
  }

  lemma DividesAdd(amount: int, total: int, w: int, f: int, r: int, w': int, f': int, r': int)
    requires Divides(amount, total, w, f, r) && Divides(amount, total, w', f', r')
    ensures Divides(amount, total, w + w', f + f', r + r')
  {
    Join(amount, w, w');
    Join(total, f, f');
  }

  lemma {:induction false} SumsDivide(amount: int, total: int, w: seq<int>, f: seq<int>, r: seq<int>)
    requires |w| == |f| == |r|
    requires forall i :: 0 <= i < |w| ==> Divides(amount, total, w[i], f[i], r[i])
    ensures Divides(amount, total, Sum(w), Sum(f), Sum(r))
  {
    if |w| != 0 {
      var n := |w| - 1;
      SumsDivide(amount, total, w[..n], f[..n], r[..n]);
      DividesAdd(amount, total, Sum(w[..n]), Sum(f[..n]), Sum(r[..n]), w[n], f[n], r[n]);
    }
  }

  /** The units left after the floors, times the total weight, are the sum of the remainders. */
  lemma LeftoverIsRemainders(amount: nat, weights: seq<int>, total: nat)
    requires Weights(weights) && total == Sum(weights) > 0
    ensures (amount - Sum(Floors(amount, weights, total))) * total == Sum(Lefts(amount, weights, total))
  {
    forall i | 0 <= i < |weights|
      ensures Divides(amount, total, weights[i], Floors(amount, weights, total)[i], Lefts(amount, weights, total)[i])
    {
      Division(amount, weights[i], total);
    }
    SumsDivide(amount, total, weights, Floors(amount, weights, total), Lefts(amount, weights, total));
  }

  // A bound on each element, proportional to another sequence, bounds the sums.
  lemma {:induction false} SumBound(r: seq<int>, b: seq<int>, c: int)
    requires |r| == |b| && forall i :: 0 <= i < |r| ==> 0 <= r[i] <= b[i] * c
    ensures 0 <= Sum(r) <= Sum(b) * c
  {
    if |r| != 0 {
      var n := |r| - 1;
      SumBound(r[..n], b[..n], c);
      assert Sum(b) * c == Sum(b[..n]) * c + b[n] * c;
    }
  }

  lemma {:induction false} SumOfOnes(s: seq<int>)
    requires forall i :: 0 <= i < |s| ==> s[i] == 1
    ensures Sum(s) == |s|
  {
    if |s| != 0 {
      SumOfOnes(s[..|s| - 1]);
    }
  }

  lemma {:induction false} SumOfNegated(x: seq<int>)
    ensures Sum(Negated(x)) == -Sum(x)
  {
    if |x| != 0 {
      var n := |x| - 1;
      SumOfNegated(x[..n]);
      assert Negated(x)[..n] == Negated(x[..n]);
    }
  }

  lemma {:induction false} SumOfDifference(x: seq<int>, f: seq<int>, b: seq<int>)
    requires |x| == |f| == |b| && forall i :: 0 <= i < |x| ==> b[i] == x[i] - f[i]
    ensures Sum(b) == Sum(x) - Sum(f)
  {
    if |x| != 0 {
      var n := |x| - 1;
      SumOfDifference(x[..n], f[..n], b[..n]);
    }
  }

  /** There are never more leftover units than slots. */
  lemma LeftoverFits(amount: nat, weights: seq<int>, total: nat)
    requires Weights(weights) && total == Sum(weights) > 0
    ensures 0 <= amount - Sum(Floors(amount, weights, total)) <= |weights|
  {
    LeftoverIsRemainders(amount, weights, total);
    var ones := seq(|weights|, _ => 1);
    SumBound(Lefts(amount, weights, total), ones, total);
    SumOfOnes(ones);
    var left := amount - Sum(Floors(amount, weights, total));
    assert 0 <= left * total <= |weights| * total;
  }

  method SplitProportional(amount: int, weights: seq<int>) returns (res: Result<seq<int>, Error>)
    ensures |weights| == 0 ==> res == Err(EmptyWeights)
    ensures |weights| > 0 && (exists i :: 0 <= i < |weights| && weights[i] < 0) ==> res == Err(NegativeWeight)
    ensures Weights(weights) ==> res.Ok? && IsSplit(amount, weights, res.value)
  {
    if |weights| == 0 {
      return Err(EmptyWeights);
    }
    if exists i :: 0 <= i < |weights| && weights[i] < 0 {
      return Err(NegativeWeight);
    }
    var total := Sum(weights);
    SumIsNonNegative(weights);
    if total == 0 {
      return Ok([amount] + seq(|weights| - 1, _ => 0));
    }
    var sign, size := if amount < 0 then -1 else 1, Abs(amount);
    var shares := ShareOut(size, weights, total);
    var x := seq(|shares|, i requires 0 <= i < |shares| => sign * shares[i]);
    if amount < 0 {
      assert Negated(x) == shares;
    } else {
      assert x == shares;
    }
    return Ok(x);
  }

  lemma SumIsNonNegative(weights: seq<int>)
    requires forall i :: 0 <= i < |weights| ==> weights[i] >= 0
    ensures Sum(weights) >= 0
  {
    SumBound(weights, weights, 1);
  }

  function Rank(size: nat, total: nat, weights: seq<int>): (nat, nat) -> bool
    requires total > 0 && Weights(weights)
  {
    (i: nat, j: nat) => i < |weights| && j < |weights| && ServedBefore(size, total, weights, i, j)
  }

  function Slots(n: nat): (r: seq<nat>)
    ensures |r| == n && (forall j: nat :: j in r <==> j < n) && forall k :: 0 <= k < n ==> r[k] == k
  {
    if n == 0 then [] else Slots(n - 1) + [n - 1]
  }

  function Ranking(size: nat, weights: seq<int>, total: nat): seq<nat>
    requires total > 0 && Weights(weights)
  {
    SortBy(Rank(size, total, weights), Slots(|weights|))
  }

  lemma RankingRanksEverySlot(size: nat, weights: seq<int>, total: nat)
    requires total > 0 && Weights(weights)
    ensures |Ranking(size, weights, total)| == |weights|
    ensures forall j: nat :: j in Ranking(size, weights, total) <==> j < |weights|
    ensures Sorted(Rank(size, total, weights), Ranking(size, weights, total))
    ensures Distinct(Ranking(size, weights, total))
  {
    var slots := Slots(|weights|);
    SortBySorts(Rank(size, total, weights), slots);
    forall j: nat
      ensures j in Ranking(size, weights, total) <==> j < |weights|
    {
      assert j in Ranking(size, weights, total) <==> j in slots;
    }
  }

  // The first k slots of the ranking have one more than their floor, the rest their floor.
  ghost predicate BumpedTo(floors: seq<int>, shares: seq<int>, order: seq<nat>, k: nat)
    requires k <= |order|
  {
    && |shares| == |floors|
    && Sum(shares) == Sum(floors) + k
    && forall i: nat :: i < |shares| ==> shares[i] == floors[i] + (if i in order[..k] then 1 else 0)
  }

  lemma BumpOne(floors: seq<int>, shares: seq<int>, order: seq<nat>, k: nat)
    requires k < |order| && BumpedTo(floors, shares, order, k) && Distinct(order) && order[k] < |shares|
    ensures BumpedTo(floors, shares[order[k] := shares[order[k]] + 1], order, k + 1)
  {
    assert order[k] !in order[..k];
    assert order[..k + 1] == order[..k] + [order[k]];
    SumUpdate(shares, order[k], shares[order[k]] + 1, Same());
  }

  lemma BumpedIsShare(size: nat, weights: seq<int>, total: nat, shares: seq<int>, k: nat)
    requires Weights(weights) && total == Sum(weights) > 0 && k <= |Ranking(size, weights, total)|
    requires k == size - Sum(Floors(size, weights, total))
    requires BumpedTo(Floors(size, weights, total), shares, Ranking(size, weights, total), k)
    ensures IsShare(size, weights, shares)
  {
    var order := Ranking(size, weights, total);
    RankingRanksEverySlot(size, weights, total);
    forall i: nat, j: nat | i < |shares| && j < |shares| && shares[i] > FloorOf(size, weights[i], total) &&
                            shares[j] == FloorOf(size, weights[j], total)
      ensures ServedBefore(size, total, weights, i, j)
    {
      var a :| 0 <= a < k && order[a] == i;
      assert j in order && j !in order[..k];
      assert order == order[..k] + order[k..];
      var b :| 0 <= b < |order| - k && order[k..][b] == j;
      assert Rank(size, total, weights)(order[a], order[k + b]);
    }
  }

  /** Floors first, then one more unit down the ranking until the leftover is spent. */
  method ShareOut(size: nat, weights: seq<int>, total: nat) returns (shares: seq<int>)
    requires Weights(weights) && total == Sum(weights) > 0
    ensures IsShare(size, weights, shares)
  {
    shares := Floors(size, weights, total);
    ghost var floors := shares;
    var remainder := size - Sum(shares);
    LeftoverFits(size, weights, total);
    var order := Ranking(size, weights, total);
    RankingRanksEverySlot(size, weights, total);
    var k := 0;
    while k < remainder
      invariant 0 <= k <= remainder && BumpedTo(floors, shares, order, k)
    {
      assert order[k] in order;
      BumpOne(floors, shares, order, k);
      shares := shares[order[k] := shares[order[k]] + 1];
      k := k + 1;
    }
    BumpedIsShare(size, weights, total, shares, k);
  }

  // ------------------------------------------------------ what it means

  // How far each slot is above its floor.
  function Bumps(amount: nat, weights: seq<int>, x: seq<int>, total: nat): (b: seq<int>)
    requires total > 0 && Weights(weights) && |x| == |weights|
    ensures |b| == |x|
  {
    seq(|x|, k requires 0 <= k < |x| => x[k] - FloorOf(amount, weights[k], total))
  }

  lemma LeftWithinBump(amount: nat, weights: seq<int>, x: seq<int>, i: nat, k: nat)
    requires Weights(weights) && Sum(weights) > 0 && IsShare(amount, weights, x) && i < |x| && k < |x|
    requires x[i] > FloorOf(amount, weights[i], Sum(weights)) && LeftOf(amount, weights[i], Sum(weights)) == 0
    ensures var left := LeftOf(amount, weights[k], Sum(weights));
      var bump := x[k] - FloorOf(amount, weights[k], Sum(weights));
      0 <= left <= bump * (Sum(weights) - 1) && 0 <= bump <= bump * 1
  {
    Division(amount, weights[k], Sum(weights));
    if x[k] == FloorOf(amount, weights[k], Sum(weights)) {
      assert ServedBefore(amount, Sum(weights), weights, i, k);
    }
  }

  // If a slot with no remainder had been bumped, there would be too little remainder to go round.
  lemma BumpedHaveRemainder(amount: nat, weights: seq<int>, x: seq<int>, i: nat)
    requires Weights(weights) && Sum(weights) > 0 && IsShare(amount, weights, x) && i < |x|
    requires x[i] > FloorOf(amount, weights[i], Sum(weights))
    ensures LeftOf(amount, weights[i], Sum(weights)) > 0
  {
    var total := Sum(weights);
    if LeftOf(amount, weights[i], total) == 0 {
      var f, r, b := Floors(amount, weights, total), Lefts(amount, weights, total), Bumps(amount, weights, x, total);
      forall k | 0 <= k < |x|
        ensures 0 <= r[k] <= b[k] * (total - 1) && 0 <= b[k] <= b[k] * 1
      {
        LeftWithinBump(amount, weights, x, i, k);
      }
      SumBound(r, b, total - 1);
      SumOfDifference(x, f, b);
      LeftoverIsRemainders(amount, weights, total);
      SumBound(b, b, 1);
      SumHasElement(b, i);
      Expand(total, 1, Sum(b));
    }
  }

  lemma {:induction false} SumHasElement(b: seq<int>, i: nat)
    requires i < |b| && forall k :: 0 <= k < |b| ==> b[k] >= 0
    ensures Sum(b) >= b[i]
  {
    var n := |b| - 1;
    SumIsNonNegative(b[..n]);
    if i < n {
      SumHasElement(b[..n], i);
    }
  }

  /** Each share is the floor or the ceiling of its exact quota: it is off by less than a unit. */
  lemma ShareWithinQuota(amount: nat, weights: seq<int>, x: seq<int>, i: nat)
    requires Weights(weights) && Sum(weights) > 0 && IsShare(amount, weights, x) && i < |x|
    ensures -Sum(weights) < Sum(weights) * x[i] - amount * weights[i] < Sum(weights)
    ensures weights[i] == 0 ==> x[i] == 0
  {
    var total := Sum(weights);
    Division(amount, weights[i], total);
    var f := FloorOf(amount, weights[i], total);
    if x[i] > f {
      BumpedHaveRemainder(amount, weights, x, i);
      assert x[i] == f + 1 && total * x[i] == total * f + total;
    }
    if weights[i] == 0 {
      assert amount * weights[i] == 0;
    }
  }

  lemma NegatedGap(total: int, x: int, amount: int, w: int)
    ensures total * (-x) - (-amount) * w == -(total * x - amount * w)
  {
  }

  /** Shares sum to the amount for either sign; with positive total weight each is the floor
      or ceiling of its exact quota, and a slot with no weight gets nothing. */
  lemma SplitConservesWithinQuota(amount: int, weights: seq<int>, x: seq<int>)
    requires Weights(weights) && IsSplit(amount, weights, x)
    ensures |x| == |weights| && Sum(x) == amount
    ensures Sum(weights) > 0 ==> forall i :: 0 <= i < |x| ==>
              -Sum(weights) < Sum(weights) * x[i] - amount * weights[i] < Sum(weights) &&
              (weights[i] == 0 ==> x[i] == 0)
  {
    SumIsNonNegative(weights);
    if Sum(weights) == 0 {
      assert x == [amount] + x[1..];
      SumConcat([amount], x[1..], Same());
      SumBound(x[1..], x[1..], 0);
    } else if amount < 0 {
      SumOfNegated(x);
      forall i | 0 <= i < |x|
        ensures -Sum(weights) < Sum(weights) * x[i] - amount * weights[i] < Sum(weights) &&
                (weights[i] == 0 ==> x[i] == 0)
      {
        ShareWithinQuota(-amount, weights, Negated(x), i);
        NegatedGap(Sum(weights), x[i], amount, weights[i]);
      }
    } else {
      forall i | 0 <= i < |x|
        ensures -Sum(weights) < Sum(weights) * x[i] - amount * weights[i] < Sum(weights) &&
                (weights[i] == 0 ==> x[i] == 0)
      {
        ShareWithinQuota(amount, weights, x, i);
      }
    }
  }

  lemma FloorsAreMonotone(amount: nat, v: nat, w: nat, total: nat)
    requires total > 0 && v <= w
    ensures FloorOf(amount, v, total) <= FloorOf(amount, w, total)
    ensures FloorOf(amount, v, total) == FloorOf(amount, w, total) ==>
              LeftOf(amount, v, total) <= LeftOf(amount, w, total)
  {
    Division(amount, v, total);
    Division(amount, w, total);
    Scale(v, w, amount);
    QuotientsAreMonotone(total, amount * v, amount * w, FloorOf(amount, v, total), FloorOf(amount, w, total),
                         LeftOf(amount, v, total), LeftOf(amount, w, total));
  }

  lemma QuotientsAreMonotone(d: int, a: int, b: int, qa: int, qb: int, ra: int, rb: int)
    requires d > 0 && a == d * qa + ra && b == d * qb + rb && 0 <= ra < d && 0 <= rb < d && a <= b
    ensures qa <= qb && (qa == qb ==> ra <= rb)
  {
    if qb < qa {
      MultiplesApart(d, qb, qa);
    }
  }

  lemma SameDivisionSameProduct(d: int, amount: int, v: int, w: int, q: int, r: int)
    requires amount * v == d * q + r && amount * w == d * q + r && v < w
    ensures amount == 0
  {
    Expand(w, v, amount);
    if amount > 0 {
      Scale(1, w - v, amount);
    } else if amount < 0 {
      Scale(1, w - v, -amount);
    }
  }

  /** A larger weight never gets less; equal weights differ by at most one, the lower index first. */
  lemma ShareIsFair(amount: nat, weights: seq<int>, x: seq<int>, i: nat, j: nat)
    requires Weights(weights) && Sum(weights) > 0 && IsShare(amount, weights, x) && i < |x| && j < |x|
    ensures weights[j] < weights[i] ==> x[j] <= x[i]
    ensures weights[j] == weights[i] ==> x[i] - x[j] <= 1
    ensures weights[j] == weights[i] && i < j ==> x[j] <= x[i]
  {
    var total := Sum(weights);
    if weights[j] <= weights[i] {
      FloorsAreMonotone(amount, weights[j], weights[i], total);
      if weights[j] < weights[i] && LeftOf(amount, weights[i], total) == LeftOf(amount, weights[j], total) &&
         FloorOf(amount, weights[i], total) == FloorOf(amount, weights[j], total) {
        Division(amount, weights[i], total);
        Division(amount, weights[j], total);
        SameDivisionSameProduct(total, amount, weights[j], weights[i],
                                FloorOf(amount, weights[i], total), LeftOf(amount, weights[i], total));
        NothingToShare(weights, x, i);
        NothingToShare(weights, x, j);
      }
    }
  }

  lemma ZeroOrAtLeast(d: int, k: int)
    requires d > 0
    ensures k == 0 || Abs(d * k) >= d
  {
    if k > 0 {
      Scale(1, k, d);
    } else if k < 0 {
      Scale(k, -1, d);
    }
  }

  lemma NothingToShare(weights: seq<int>, x: seq<int>, i: nat)
    requires Weights(weights) && Sum(weights) > 0 && IsShare(0, weights, x) && i < |x|
    ensures x[i] == 0
  {
    var total := Sum(weights);
    ShareWithinQuota(0, weights, x, i);
    ZeroOrAtLeast(total, x[i]);
    assert -total < total * x[i] < total;
  }

  /** Fairness in magnitude, for either sign. */
  lemma SplitIsFair(amount: int, weights: seq<int>, x: seq<int>, i: nat, j: nat)
    requires Weights(weights) && Sum(weights) > 0 && IsSplit(amount, weights, x) && i < |weights| && j < |weights|
    ensures |x| == |weights|
    ensures weights[j] < weights[i] ==> Abs(x[j]) <= Abs(x[i])
    ensures weights[j] == weights[i] ==> Abs(x[i] - x[j]) <= 1
    ensures weights[j] == weights[i] && i < j ==> Abs(x[j]) <= Abs(x[i])
  {
    var size, y := Abs(amount), if amount < 0 then Negated(x) else x;
    assert forall k :: 0 <= k < |x| ==> y[k] == (if amount < 0 then -x[k] else x[k]);
    ShareIsFair(size, weights, y, i, j);
    ShareIsFair(size, weights, y, j, i);
  }

  lemma RoundedUpMeansBumped(amount: nat, weights: seq<int>, x: seq<int>, i: nat)
    requires Weights(weights) && Sum(weights) > 0 && IsShare(amount, weights, x) && i < |x|
    ensures Sum(weights) * x[i] > amount * weights[i] <==> x[i] > FloorOf(amount, weights[i], Sum(weights))
    ensures x[i] >= 0
  {
    var total, f := Sum(weights), FloorOf(amount, weights[i], Sum(weights));
    Division(amount, weights[i], total);
    assert amount * weights[i] >= 0;
    if x[i] != f {
      assert x[i] == f + 1 && total * x[i] == total * f + total;
    }
  }

  /** Who is rounded up: whoever has the larger remainder, and of equal remainders whoever comes
      first. If the second of two such slots got more than its exact share, so did the first. */
  lemma LargestRemaindersFirst(amount: int, weights: seq<int>, x: seq<int>, i: nat, j: nat)
    requires Weights(weights) && Sum(weights) > 0 && IsSplit(amount, weights, x) && i < |weights| && j < |weights|
    requires var total, size := Sum(weights), Abs(amount);
      size * weights[i] % total > size * weights[j] % total ||
      (size * weights[i] % total == size * weights[j] % total && i < j)
    ensures |x| == |weights|
    ensures var total, size := Sum(weights), Abs(amount);
      total * Abs(x[j]) > size * weights[j] ==> total * Abs(x[i]) > size * weights[i]
  {
    var size, y := Abs(amount), if amount < 0 then Negated(x) else x;
    assert forall k :: 0 <= k < |x| ==> y[k] == (if amount < 0 then -x[k] else x[k]);
    RoundedUpMeansBumped(size, weights, y, i);
    RoundedUpMeansBumped(size, weights, y, j);
    ServedOneWay(size, Sum(weights), weights, i, j);
  }

  lemma ServedOneWay(amount: nat, total: nat, weights: seq<int>, i: nat, j: nat)
    requires total > 0 && Weights(weights) && i < |weights| && j < |weights|
    ensures !(ServedBefore(amount, total, weights, i, j) && ServedBefore(amount, total, weights, j, i))
  {
  }

  // Two shares of the same amount: the one served first cannot be the poorer one.
  lemma ShareNoLess(amount: nat, weights: seq<int>, x: seq<int>, y: seq<int>, i: nat)
    requires Weights(weights) && Sum(weights) > 0
    requires IsShare(amount, weights, x) && IsShare(amount, weights, y) && i < |x|
    ensures x[i] >= y[i]
  {
    if x[i] < y[i] {
      if forall j :: 0 <= j < |x| ==> x[j] <= y[j] {
        SumAtMost(x[i := y[i]], y, Same(), Same());
        SumUpdate(x, i, y[i], Same());
        assert false;
      }
      var j :| 0 <= j < |x| && x[j] > y[j];
      ServedOneWay(amount, Sum(weights), weights, i, j);
    }
  }

  /** The contract has exactly one answer. */
  lemma SplitIsUnique(amount: int, weights: seq<int>, x: seq<int>, y: seq<int>)
    requires Weights(weights) && IsSplit(amount, weights, x) && IsSplit(amount, weights, y)
    ensures x == y
  {
    if Sum(weights) > 0 {
      var a, b := if amount < 0 then Negated(x) else x, if amount < 0 then Negated(y) else y;
      forall i | 0 <= i < |x|
        ensures x[i] == y[i]
      {
        ShareNoLess(Abs(amount), weights, a, b, i);
        ShareNoLess(Abs(amount), weights, b, a, i);
      }
    }
  }

  /** Negating the amount negates the split. */
  lemma SplitMirrors(amount: int, weights: seq<int>, x: seq<int>)
    requires Weights(weights) && IsSplit(amount, weights, x)
    ensures IsSplit(-amount, weights, Negated(x))
  {
    if Sum(weights) > 0 {
      assert Negated(Negated(x)) == x;
      if amount == 0 {
        forall i | 0 <= i < |x|
          ensures Negated(x)[i] == x[i]
        {
          NothingToShare(weights, x, i);
        }
        assert Negated(x) == x;
      }
    }
  }

  // --------------------------------------------------------- optimality

  /** How far a share is from its exact quota, in units of 1/W. */
  function Distance(amount: int, total: int, weight: int, share: int): int
  {
    Abs(total * share - amount * weight)
  }

  /** Total distance from the exact shares, in units of 1/W. */
  function Deviation(amount: int, total: int, weights: seq<int>, x: seq<int>): int
    requires |x| == |weights|
  {
    if |x| == 0 then 0
    else
      var n := |x| - 1;
      Deviation(amount, total, weights[..n], x[..n]) + Distance(amount, total, weights[n], x[n])
  }

  lemma Scale(a: int, b: int, c: int)
    requires a <= b && 0 <= c
    ensures a * c <= b * c
  {
  }

  lemma Expand(a: int, b: int, c: int)
    ensures (a - b) * c == a * c - b * c && c * (a - b) == c * a - c * b
    ensures (a - 2 * b) * c == a * c - 2 * (b * c)
  {
  }

  // One slot: the distance is convex in the share, and `slope` supports it at the floor ...
  lemma SupportAtFloor(total: int, r: int, d: int, slope: int)
    requires 0 <= r < total && -total <= slope <= total - 2 * r
    ensures Abs(total * d - r) >= r + slope * d
  {
    if d >= 1 {
      Scale(slope, total - 2 * r, d);
      Expand(total, r, d);
      Scale(1, d, r);
    } else if d <= -1 {
      Scale(-total, slope, -d);
      assert slope * -d == -(slope * d) && -total * -d == total * d;
    }
  }

  // ... and at one above the floor.
  lemma SupportAboveFloor(total: int, r: int, d: int, slope: int)
    requires 0 <= r < total && total - 2 * r <= slope <= total
    ensures Abs(total * d + total - r) >= total - r + slope * d
  {
    if d >= 1 {
      Scale(slope, total, d);
    } else if d <= -1 {
      Scale(total - 2 * r, slope, -d);
      Expand(total, r, -d);
      Scale(0, total - r, -d - 1);
      Expand(total, r, -d - 1);
      Expand(-d, 1, total);
      Expand(-d, 1, r);
      assert slope * -d == -(slope * d) && total * -d == -(total * d) && r * -d == -(r * d);
    }
  }

  lemma SlotSupport(total: int, quota: int, f: int, r: int, x: int, y: int, slope: int)
    requires quota == total * f + r && 0 <= r < total
    requires (x == f && -total <= slope <= total - 2 * r) || (x == f + 1 && total - 2 * r <= slope <= total)
    ensures Abs(total * y - quota) >= Abs(total * x - quota) + slope * (y - x)
  {
    var d := y - x;
    Expand(y, x, total);
    if x == f {
      SupportAtFloor(total, r, d, slope);
    } else {
      assert total * x == total * f + total;
      SupportAboveFloor(total, r, d, slope);
    }
  }

  lemma Join(c: int, a: int, b: int)
    ensures c * a + c * b == c * (a + b)
  {
  }

  // The smallest remainder among the bumped slots of the first n, or the total weight when none is bumped.
  ghost predicate IsSmallestBumped(amount: nat, weights: seq<int>, x: seq<int>, n: nat, rho: int)
    requires Weights(weights) && Sum(weights) > 0 && |x| == |weights| && n <= |x|
  {
    && 0 <= rho <= Sum(weights)
    && (forall i :: 0 <= i < n && x[i] > FloorOf(amount, weights[i], Sum(weights)) ==>
         rho <= LeftOf(amount, weights[i], Sum(weights)))
    && (rho == Sum(weights) ||
        exists i :: 0 <= i < n && x[i] > FloorOf(amount, weights[i], Sum(weights)) &&
          rho == LeftOf(amount, weights[i], Sum(weights)))
  }

  lemma {:induction false} SmallestBumped(amount: nat, weights: seq<int>, x: seq<int>, n: nat) returns (rho: int)
    requires Weights(weights) && Sum(weights) > 0 && IsShare(amount, weights, x) && n <= |x|
    ensures IsSmallestBumped(amount, weights, x, n, rho)
  {
    rho := Sum(weights);
    if n != 0 {
      rho := SmallestBumped(amount, weights, x, n - 1);
      var left := LeftOf(amount, weights[n - 1], Sum(weights));
      if x[n - 1] > FloorOf(amount, weights[n - 1], Sum(weights)) && left < rho {
        rho := left;
      }
    }
  }

  // A slot left at its floor has no more remainder than any bumped slot, so the one slope supports it too.
  lemma SlopeFits(amount: nat, weights: seq<int>, x: seq<int>, rho: int, i: nat)
    requires Weights(weights) && Sum(weights) > 0 && IsShare(amount, weights, x) && i < |x|
    requires IsSmallestBumped(amount, weights, x, |x|, rho)
    ensures var total, r := Sum(weights), LeftOf(amount, weights[i], Sum(weights));
      if x[i] == FloorOf(amount, weights[i], total) then -total <= total - 2 * rho <= total - 2 * r
      else total - 2 * r <= total - 2 * rho <= total
  {
    var total := Sum(weights);
    Division(amount, weights[i], total);
    if x[i] == FloorOf(amount, weights[i], total) && rho < total {
      var k :| 0 <= k < |x| && x[k] > FloorOf(amount, weights[k], total) && rho == LeftOf(amount, weights[k], total);
      assert ServedBefore(amount, total, weights, k, i);
    }
  }

  /** A line through the point (x, distance of x) that lies below the distance everywhere. */
  ghost predicate Supports(slope: int, amount: int, total: int, weight: int, x: int, y: int)
  {
    Distance(amount, total, weight, y) >= Distance(amount, total, weight, x) + slope * (y - x)
  }

  lemma {:induction false} SlotsAddUp(amount: int, total: int, weights: seq<int>, x: seq<int>, y: seq<int>, slope: int)
    requires |x| == |y| == |weights|
    requires forall i :: 0 <= i < |x| ==> Supports(slope, amount, total, weights[i], x[i], y[i])
    ensures Deviation(amount, total, weights, y) >= Deviation(amount, total, weights, x) + slope * (Sum(y) - Sum(x))
  {
    if |x| != 0 {
      var n := |x| - 1;
      SlotsAddUp(amount, total, weights[..n], x[..n], y[..n], slope);
      Join(slope, Sum(y[..n]) - Sum(x[..n]), y[n] - x[n]);
      assert Supports(slope, amount, total, weights[n], x[n], y[n]);
    }
  }

  lemma DeviationSupport(amount: int, total: int, weights: seq<int>, x: seq<int>, y: seq<int>, slope: int)
    requires |x| == |y| == |weights| && Sum(x) == Sum(y)
    requires forall i :: 0 <= i < |x| ==> Supports(slope, amount, total, weights[i], x[i], y[i])
    ensures Deviation(amount, total, weights, y) >= Deviation(amount, total, weights, x)
  {
    SlotsAddUp(amount, total, weights, x, y, slope);
    assert slope * 0 == 0;
  }

  lemma ShareIsSupported(amount: nat, weights: seq<int>, x: seq<int>, rho: int, i: nat, y: int)
    requires Weights(weights) && Sum(weights) > 0 && IsShare(amount, weights, x) && i < |x|
    requires IsSmallestBumped(amount, weights, x, |x|, rho)
    ensures Supports(Sum(weights) - 2 * rho, amount, Sum(weights), weights[i], x[i], y)
  {
    var total := Sum(weights);
    SlopeFits(amount, weights, x, rho, i);
    Division(amount, weights[i], total);
    SlotSupport(total, amount * weights[i], FloorOf(amount, weights[i], total), LeftOf(amount, weights[i], total),
                x[i], y, total - 2 * rho);
  }

  /** No integers with the same sum lie closer, in total, to the exact shares. */
  lemma ShareIsOptimal(amount: nat, weights: seq<int>, x: seq<int>, y: seq<int>)
    requires Weights(weights) && Sum(weights) > 0 && IsShare(amount, weights, x)
    requires |y| == |weights| && Sum(y) == amount
    ensures Deviation(amount, Sum(weights), weights, x) <= Deviation(amount, Sum(weights), weights, y)
  {
    var rho := SmallestBumped(amount, weights, x, |x|);
    forall i | 0 <= i < |x|
      ensures Supports(Sum(weights) - 2 * rho, amount, Sum(weights), weights[i], x[i], y[i])
    {
      ShareIsSupported(amount, weights, x, rho, i, y[i]);
    }
    DeviationSupport(amount, Sum(weights), weights, x, y, Sum(weights) - 2 * rho);
  }

  lemma {:induction false} DeviationMirrors(amount: int, total: int, weights: seq<int>, x: seq<int>)
    requires |x| == |weights|
    ensures Deviation(-amount, total, weights, Negated(x)) == Deviation(amount, total, weights, x)
  {
    if |x| != 0 {
      var n := |x| - 1;
      DeviationMirrors(amount, total, weights[..n], x[..n]);
      assert Negated(x)[..n] == Negated(x[..n]);
      NegatedGap(total, x[n], amount, weights[n]);
    }
  }

  /** The split is the best integer split, for either sign. */
  lemma SplitIsOptimal(amount: int, weights: seq<int>, x: seq<int>, y: seq<int>)
    requires Weights(weights) && Sum(weights) > 0 && IsSplit(amount, weights, x)
    requires |y| == |weights| && Sum(y) == amount
    ensures |x| == |weights| &&
            Deviation(amount, Sum(weights), weights, x) <= Deviation(amount, Sum(weights), weights, y)
  {
    if amount < 0 {
      SumOfNegated(y);
      ShareIsOptimal(-amount, weights, Negated(x), Negated(y));
      DeviationMirrors(amount, Sum(weights), weights, x);
      DeviationMirrors(amount, Sum(weights), weights, y);
    } else {
      ShareIsOptimal(amount, weights, x, y);
    }
  }
}
