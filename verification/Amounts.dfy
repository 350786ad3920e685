/** Amounts and their unit bases: an amount `a` in base `b` is worth `a * 10^b`. */
module Amounts {

  datatype BasedAmount = BasedAmount(amount: nat, base: nat)

  function Pow10(e: nat): (p: nat)
    ensures p >= 1
  {
    if e == 0 then 1 else 10 * Pow10(e - 1)
  }

  /** Powers of ten. */
  lemma {:induction false} Powers(a: nat, b: nat)
    ensures Pow10(0) == 1 && Pow10(1) == 10 && Pow10(a + b) == Pow10(a) * Pow10(b)
  {
    if b > 0 {
      Powers(a, b - 1);
      assert Pow10(a + b) == 10 * Pow10(a + (b - 1));
    }
  }

  function Value(a: BasedAmount): nat {
    a.amount * Pow10(a.base)
  }

  /** A base is a number of digits: an amount in base 0 is worth itself, and a base more makes it
      worth ten times as much. */
  lemma BasesAreDigits(amount: nat, base: nat)
    ensures Value(BasedAmount(amount, 0)) == amount
    ensures Value(BasedAmount(amount, base + 1)) == Value(BasedAmount(10 * amount, base))
  {}

  lemma PositiveValue(a: BasedAmount)
    requires a.amount > 0
    ensures Value(a) > 0
  {
    assert a.amount * Pow10(a.base) == (a.amount - 1) * Pow10(a.base) + Pow10(a.base);
  }

  function Total(amounts: seq<BasedAmount>): nat {
    if amounts == [] then 0 else Total(amounts[..|amounts| - 1]) + Value(amounts[|amounts| - 1])
  }

  /** The worth of the amounts in base `i`, and in bases up to `i`. */
  function TotalAt(amounts: seq<BasedAmount>, i: int): nat {
    if amounts == [] then 0
    else
      var a := amounts[|amounts| - 1];
      TotalAt(amounts[..|amounts| - 1], i) + (if a.base == i then Value(a) else 0)
  }

  function TotalUpTo(amounts: seq<BasedAmount>, i: int): nat {
    if amounts == [] then 0
    else
      var a := amounts[|amounts| - 1];
      TotalUpTo(amounts[..|amounts| - 1], i) + (if a.base <= i then Value(a) else 0)
  }

  function MaxBase(amounts: seq<BasedAmount>): nat {
    if amounts == [] then 0
    else
      var a, m := amounts[|amounts| - 1], MaxBase(amounts[..|amounts| - 1]);
      if a.base > m then a.base else m
  }

  lemma {:induction false} OneMoreBase(amounts: seq<BasedAmount>, i: int)
    ensures TotalUpTo(amounts, i) == TotalUpTo(amounts, i - 1) + TotalAt(amounts, i)
  {
    if amounts != [] {
      OneMoreBase(amounts[..|amounts| - 1], i);
    }
  }

  lemma {:induction false} NoBaseBelowZero(amounts: seq<BasedAmount>, i: int)
    requires i < 0
    ensures TotalUpTo(amounts, i) == 0
  {
    if amounts != [] {
      NoBaseBelowZero(amounts[..|amounts| - 1], i);
    }
  }

  lemma {:induction false} AllBasesUpToMax(amounts: seq<BasedAmount>, i: int)
    ensures TotalUpTo(amounts, i) <= Total(amounts)
    ensures i >= MaxBase(amounts) ==> TotalUpTo(amounts, i) == Total(amounts)
  {
    if amounts != [] {
      AllBasesUpToMax(amounts[..|amounts| - 1], i);
    }
  }

  lemma {:induction false} MoreBases(amounts: seq<BasedAmount>, i: int, j: int)
    requires i <= j
    ensures TotalUpTo(amounts, i) <= TotalUpTo(amounts, j)
  {
    if amounts != [] {
      MoreBases(amounts[..|amounts| - 1], i, j);
    }
  }

  /** Totals of amounts add up. */
  lemma {:induction false} TotalsAddUp(xs: seq<BasedAmount>, ys: seq<BasedAmount>, i: int)
    ensures Total(xs + ys) == Total(xs) + Total(ys)
    ensures TotalUpTo(xs + ys, i) == TotalUpTo(xs, i) + TotalUpTo(ys, i)
    ensures |xs| == 1 ==>
              && Total(xs) == xs[0].amount * Pow10(xs[0].base)
              && TotalUpTo(xs, i) == if xs[0].base <= i then xs[0].amount * Pow10(xs[0].base) else 0
  {
    if ys == [] {
      assert xs + ys == xs;
    } else {
      TotalsAddUp(xs, ys[..|ys| - 1], i);
      assert (xs + ys)[..|xs + ys| - 1] == xs + ys[..|ys| - 1];
    }
  }

  /** An amount above base `i` is missing from the total up to `i`. */
  lemma {:induction false} AboveIsMissing(amounts: seq<BasedAmount>, i: int, k: nat)
    requires k < |amounts| && amounts[k].base > i
    ensures TotalUpTo(amounts, i) + Value(amounts[k]) <= Total(amounts)
  {
    var n := |amounts| - 1;
    if k < n {
      AboveIsMissing(amounts[..n], i, k);
    } else {
      AllBasesUpToMax(amounts[..n], i);
    }
  }
}
