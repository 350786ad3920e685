/** Inputs that name an output of the same block: the local lookup compares the name only, not the
    amount. What that does to the supply, exactly. */
module ChainedInputs {
  import opened Amounts
  import opened Outcomes
  import opened Sources
  import opened SourceSums
  import opened Money
  import opened LocalSources
  import opened MoneySteps
  import opened MoneyConservation

  /** The amount of the source that a consumption names: of the local output if there is one. */
  function NamedAmount(local: seq<SRow>, r: SRow): BasedAmount {
    var source := LocalSource(local, r.key);
    if source.Some? then source.value.amount else r.amount
  }

  /** What the sources named by the rows are worth, as opposed to what the rows state. */
  function NamedWorth(local: seq<SRow>, rows: seq<SRow>): nat {
    if rows == [] then 0
    else NamedWorth(local, rows[..|rows| - 1]) + Value(NamedAmount(local, rows[|rows| - 1]))
  }

  function Corrected(local: seq<SRow>, rows: seq<SRow>): seq<SRow> {
    if rows == [] then []
    else
      var r := rows[|rows| - 1];
      Corrected(local, rows[..|rows| - 1]) + [r.(amount := NamedAmount(local, r))]
  }

  lemma {:induction false} CorrectedAt(local: seq<SRow>, rows: seq<SRow>)
    ensures |Corrected(local, rows)| == |rows|
    ensures forall i | 0 <= i < |rows| :: Corrected(local, rows)[i] == rows[i].(amount := NamedAmount(local, rows[i]))
  {
    if rows != [] {
      CorrectedAt(local, rows[..|rows| - 1]);
    }
  }

  lemma {:induction false} CorrectedWorth(local: seq<SRow>, rows: seq<SRow>)
    ensures RowSum(Corrected(local, rows), None) == NamedWorth(local, rows)
  {
    if rows != [] {
      var n := |rows| - 1;
      CorrectedWorth(local, rows[..n]);
      var front := Corrected(local, rows[..n]);
      assert (front + [rows[n].(amount := NamedAmount(local, rows[n]))])[..|front|] == front;
    }
  }

  lemma {:induction false} NamedWorthByKeys(local: seq<SRow>, xs: seq<SRow>, ys: seq<SRow>)
    requires |xs| == |ys| && forall i | 0 <= i < |xs| :: xs[i].key == ys[i].key && xs[i].amount == ys[i].amount
    ensures NamedWorth(local, xs) == NamedWorth(local, ys)
  {
    if xs != [] {
      NamedWorthByKeys(local, xs[..|xs| - 1], ys[..|ys| - 1]);
    }
  }

  /** Every consumption takes a source of the pool, whatever amount it states. */
  lemma NamedSourceIsPooled(
      s: Store, hashed: map<string, set<SourceKey>>, b: MoneyBlock, dividends: seq<SRow>, r: SRow)
    requires SoundSources(s, b.number, hashed) && Accepted(s, b) && HashesIdentify(hashed, b.txs)
    requires IsDividend(b, dividends) && r in Rows(s, b) && r.op == Update
    ensures HoldsRow(Pool(s, b, dividends), r.(amount := NamedAmount(LocalRows(b.txs, b.number), r)))
  {
    PoolContents(s, hashed, b, dividends);
    RowsShape(s, b);
    var local := LocalRows(b.txs, b.number);
    var l := RowShape(s, b, r);
    var source := LocalSource(local, l.key);
    LocalSourceMeans(local, l.key);
    if source.Some? {
      var creates := Only(Rows(s, b), Create);
      OnlyMembers(local, Create, source.value);
      var i :| 0 <= i < |creates| && creates[i] == source.value;
      assert HoldsRow(Pool(s, b, dividends), creates[i]);
    } else {
      GlobalSourceIsAvailable(s, hashed, b.number, local, l);
    }
  }

  lemma CorrectedIsPooled(
      s: Store, hashed: map<string, set<SourceKey>>, b: MoneyBlock, dividends: seq<SRow>)
    requires SoundSources(s, b.number, hashed) && Accepted(s, b) && HashesIdentify(hashed, b.txs)
    requires IsDividend(b, dividends)
    ensures Holds(Pool(s, b, dividends), Corrected(LocalRows(b.txs, b.number), Only(Rows(s, b), Update)))
  {
    var local, us := LocalRows(b.txs, b.number), Only(Rows(s, b), Update);
    var fixed := Corrected(local, us);
    CorrectedAt(local, us);
    forall i | 0 <= i < |fixed| ensures HoldsRow(Pool(s, b, dividends), fixed[i]) {
      NamedSourceIsPooled(s, hashed, b, dividends, us[i]);
    }
  }

  lemma CorrectedKeys(local: seq<SRow>, us: seq<SRow>)
    requires DistinctKeys(us)
    ensures DistinctKeys(Corrected(local, us)) && Keys(Corrected(local, us)) == Keys(us)
  {
    CorrectedAt(local, us);
    SameKeys(Corrected(local, us), us);
  }

  lemma ResolvedWorth(s: Store, b: MoneyBlock)
    requires Accepted(s, b)
    ensures var local := LocalRows(b.txs, b.number);
            NamedWorth(local, Only(Rows(s, b), Update)) == NamedWorth(local, Only(local, Update))
  {
    var local := LocalRows(b.txs, b.number);
    assert local[..|local|] == local;
    ResolvedKeepsOrder(s, local, |local|, Update);
    NamedWorthByKeys(local, Only(Rows(s, b), Update), Only(local, Update));
  }

  lemma TakenWorth(
      s: Store, hashed: map<string, set<SourceKey>>, b: MoneyBlock, dividends: seq<SRow>)
    requires SoundSources(s, b.number, hashed) && Accepted(s, b) && HashesIdentify(hashed, b.txs)
    requires IsDividend(b, dividends)
    ensures var local := LocalRows(b.txs, b.number);
            Sum(Pool(s, b, dividends), None) ==
            Sum(Left(s, b, dividends), None) + NamedWorth(local, Only(local, Update))
  {
    var local, us := LocalRows(b.txs, b.number), Only(Rows(s, b), Update);
    RowsShape(s, b);
    CorrectedWorth(local, us);
    CorrectedKeys(local, us);
    CorrectedIsPooled(s, hashed, b, dividends);
    SumOfRemoval(Pool(s, b, dividends), Corrected(local, us), None);
    ResolvedWorth(s, b);
  }

  /** The transactions of an accepted block conserve money exactly when the consumptions state in
      all what the sources they name are worth. */
  lemma ConservedIffStatedIsNamed(
      s: Store, hashed: map<string, set<SourceKey>>, b: MoneyBlock, dividends: seq<SRow>)
    requires SoundSources(s, b.number, hashed) && Accepted(s, b) && HashesIdentify(hashed, b.txs)
    requires IsDividend(b, dividends)
    ensures var consumed := Only(LocalRows(b.txs, b.number), Update);
            Sum(Left(s, b, dividends), None) == Supply(s) + RowSum(dividends, None) <==>
            RowSum(consumed, None) == NamedWorth(LocalRows(b.txs, b.number), consumed)
  {
    var local := LocalRows(b.txs, b.number);
    TakenWorth(s, hashed, b, dividends);
    FreshRows(s, hashed, b, dividends);
    SumOfPut(Available(s), dividends, None);
    SumOfPut(PutAll(Available(s), dividends), Only(Rows(s, b), Create), None);
    TransactionsAreBalanced(s, b);
    assert local[..|local|] == local;
    ResolvedKeepsOrder(s, local, |local|, Update);
    SameWorth(Only(Rows(s, b), Update), Only(local, Update));
  }

  /** A sufficient condition that reads off each input: it states the amount of the output it names. */
  lemma {:induction false} MatchingInputsAreNamed(local: seq<SRow>, rows: seq<SRow>)
    requires forall i | 0 <= i < |rows| :: NamedAmount(local, rows[i]) == rows[i].amount
    ensures RowSum(rows, None) == NamedWorth(local, rows)
  {
    if rows != [] {
      MatchingInputsAreNamed(local, rows[..|rows| - 1]);
    }
  }
}
