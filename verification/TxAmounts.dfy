/** The local rule on the amounts of a transaction: money is conserved, and up to every unit
    base the outputs are covered by the inputs. */
module TxAmounts {
  import opened Amounts

  datatype Verdict = Valid | InputsOutputsNotEqual | OutputSumNotEqualsPrevDeltas

  // The least of 0 and of the bases, which are natural numbers.
  const COMMON_BASE := 0

  method SumScaled(amounts: seq<BasedAmount>) returns (sum: nat)
    ensures sum == Total(amounts)
  {
    sum := 0;
    for i := 0 to |amounts|
      invariant sum == Total(amounts[..i])
    {
      assert amounts[..i + 1][..i] == amounts[..i];
      sum := sum + amounts[i].amount * Pow10(amounts[i].base);
    }
    assert amounts[..|amounts|] == amounts;
  }

  method SumAtBase(amounts: seq<BasedAmount>, base: nat) returns (sum: nat)
    ensures sum == TotalAt(amounts, base)
  {
    sum := 0;
    for i := 0 to |amounts|
      invariant sum == TotalAt(amounts[..i], base)
    {
      assert amounts[..i + 1][..i] == amounts[..i];
      if amounts[i].base == base {
        sum := sum + amounts[i].amount * Pow10(amounts[i].base);
      }
    }
    assert amounts[..|amounts|] == amounts;
  }

  method MaxOutputBase(amounts: seq<BasedAmount>) returns (max: nat)
    ensures max == MaxBase(amounts)
  {
    max := 0;
    for i := 0 to |amounts|
      invariant max == MaxBase(amounts[..i])
    {
      assert amounts[..i + 1][..i] == amounts[..i];
      max := if amounts[i].base > max then amounts[i].base else max;
    }
    assert amounts[..|amounts|] == amounts;
  }

  /** Up to every base, the outputs are worth at most the inputs. */
  ghost predicate Covered(inputs: seq<BasedAmount>, outputs: seq<BasedAmount>) {
    forall i | 0 <= i <= MaxBase(outputs) :: TotalUpTo(outputs, i) <= TotalUpTo(inputs, i)
  }

  /** With equal totals, beyond the highest output base there is nothing to compare. */
  lemma CoveredAt(inputs: seq<BasedAmount>, outputs: seq<BasedAmount>, i: int)
    requires Total(inputs) == Total(outputs) && Covered(inputs, outputs)
    ensures TotalUpTo(outputs, i) <= TotalUpTo(inputs, i)
  {
    var top := MaxBase(outputs);
    if i < 0 {
      NoBaseBelowZero(outputs, i);
    } else if i > top {
      assert TotalUpTo(outputs, top) <= TotalUpTo(inputs, top);
      AllBasesUpToMax(outputs, i);
      AllBasesUpToMax(outputs, top);
      MoreBases(inputs, top, i);
    }
  }

  lemma CoveredAtAllBases(inputs: seq<BasedAmount>, outputs: seq<BasedAmount>)
    requires Total(inputs) == Total(outputs)
    ensures Covered(inputs, outputs) <==> forall i :: TotalUpTo(outputs, i) <= TotalUpTo(inputs, i)
  {
    if Covered(inputs, outputs) {
      forall i ensures TotalUpTo(outputs, i) <= TotalUpTo(inputs, i) {
        CoveredAt(inputs, outputs, i);
      }
      assert forall i :: TotalUpTo(outputs, i) <= TotalUpTo(inputs, i);
    } else {
      assert exists i :: TotalUpTo(outputs, i) > TotalUpTo(inputs, i);
    }
  }

  /** `checkTxAmountsValidity`, with its table of deltas. */
  method CheckTxAmountsValidity(inputs: seq<BasedAmount>, outputs: seq<BasedAmount>) returns (verdict: Verdict)
    ensures verdict == InputsOutputsNotEqual <==> Total(inputs) != Total(outputs)
    ensures verdict == Valid <==>
            Total(inputs) == Total(outputs) && forall i :: TotalUpTo(outputs, i) <= TotalUpTo(inputs, i)
  {
    verdict := CheckDeltas(inputs, outputs);
    if Total(inputs) == Total(outputs) {
      CoveredAtAllBases(inputs, outputs);
    }
  }

  /** The loops of `checkTxAmountsValidity`. */
  method CheckDeltas(inputs: seq<BasedAmount>, outputs: seq<BasedAmount>) returns (verdict: Verdict)
    ensures verdict == InputsOutputsNotEqual <==> Total(inputs) != Total(outputs)
    ensures verdict == Valid <==> Total(inputs) == Total(outputs) && Covered(inputs, outputs)
  {
    var inputSum := SumScaled(inputs);
    var outputSum := SumScaled(outputs);
    if inputSum != outputSum {
      return InputsOutputsNotEqual;
    }
    var maxOutputBase := MaxOutputBase(outputs);
    var deltas: map<int, int> := map[];
    NoBaseBelowZero(inputs, -1);
    NoBaseBelowZero(outputs, -1);
    var i: int := COMMON_BASE;
    while i <= maxOutputBase
      invariant 0 <= i <= maxOutputBase + 1
      invariant forall j | 0 <= j < i ::
                  j in deltas && deltas[j] == TotalAt(outputs, j) - TotalAt(inputs, j)
      invariant forall j | 0 <= j < i :: TotalUpTo(outputs, j) <= TotalUpTo(inputs, j)
    {
      var inputBaseSum := SumAtBase(inputs, i);
      var outputBaseSum := SumAtBase(outputs, i);
      var delta := outputBaseSum as int - inputBaseSum as int;
      var sumUpToBase: int := 0;
      var j: int := COMMON_BASE;
      while j < i
        invariant 0 <= j <= i
        invariant sumUpToBase == TotalUpTo(inputs, j - 1) - TotalUpTo(outputs, j - 1)
      {
        OneMoreBase(inputs, j);
        OneMoreBase(outputs, j);
        sumUpToBase := sumUpToBase - deltas[j];
        j := j + 1;
      }
      OneMoreBase(inputs, i);
      OneMoreBase(outputs, i);
      if delta > 0 && delta > sumUpToBase {
        assert TotalUpTo(outputs, i) > TotalUpTo(inputs, i);
        return OutputSumNotEqualsPrevDeltas;
      }
      deltas := deltas[i := delta];
      i := i + 1;
    }
    verdict := Valid;
  }

  lemma {:induction false} MaxBaseIsReached(amounts: seq<BasedAmount>)
    requires amounts != []
    ensures exists j :: 0 <= j < |amounts| && amounts[j].base >= MaxBase(amounts)
  {
    var n := |amounts| - 1;
    if amounts[n].base < MaxBase(amounts) {
      MaxBaseIsReached(amounts[..n]);
      var j :| 0 <= j < n && amounts[..n][j].base >= MaxBase(amounts[..n]);
      assert amounts[j] == amounts[..n][j];
    }
  }

  /** In a valid transaction no input of positive amount has a base above those of all outputs. */
  lemma NoInputAboveOutputs(inputs: seq<BasedAmount>, outputs: seq<BasedAmount>, k: nat)
    requires Total(inputs) == Total(outputs) && forall i :: TotalUpTo(outputs, i) <= TotalUpTo(inputs, i)
    requires k < |inputs| && inputs[k].amount > 0
    ensures exists j :: 0 <= j < |outputs| && outputs[j].base >= inputs[k].base
  {
    var top := MaxBase(outputs);
    AllBasesUpToMax(outputs, top);
    if outputs != [] {
      MaxBaseIsReached(outputs);
    } else {
      AboveIsMissing(inputs, inputs[k].base - 1, k);
      PositiveValue(inputs[k]);
    }
    assert TotalUpTo(outputs, top) <= TotalUpTo(inputs, top);
    if inputs[k].base > top {
      PositiveValue(inputs[k]);
      AboveIsMissing(inputs, top, k);
    }
  }
}
