/** The accounting of one accepted block. */
module MoneyConservation {
  import opened Amounts
  import opened Outcomes
  import opened Sources
  import opened SourceSums
  import opened Money
  import opened LocalSources
  import opened MoneySteps

  // ---- Transactions create what they consume ----

  lemma {:induction false} InputRowsAreUpdates(tx: Tx, n: nat, number: nat)
    requires n <= |tx.inputs|
    ensures forall i | 0 <= i < |InputRows(tx, n, number)| :: InputRows(tx, n, number)[i].op == Update
  {
    if n > 0 {
      InputRowsAreUpdates(tx, n - 1, number);
    }
  }

  lemma {:induction false} OutputRowsAreCreations(tx: Tx, n: nat, number: nat)
    requires n <= |tx.outputs|
    ensures forall i | 0 <= i < |OutputRows(tx, n, number)| :: OutputRows(tx, n, number)[i].op == Create
  {
    if n > 0 {
      OutputRowsAreCreations(tx, n - 1, number);
    }
  }

  lemma {:induction false} InputRowsWorth(tx: Tx, n: nat, number: nat)
    requires n <= |tx.inputs|
    ensures RowSum(InputRows(tx, n, number), None) == Total(InputAmounts(tx.inputs[..n]))
  {
    if n > 0 {
      InputRowsWorth(tx, n - 1, number);
      assert tx.inputs[..n][..n - 1] == tx.inputs[..n - 1];
      var amounts := InputAmounts(tx.inputs[..n - 1]);
      assert (amounts + [tx.inputs[n - 1].amount])[..|amounts|] == amounts;
    }
  }

  lemma {:induction false} OutputRowsWorth(tx: Tx, n: nat, number: nat)
    requires n <= |tx.outputs|
    ensures RowSum(OutputRows(tx, n, number), None) == Total(OutputAmounts(tx.outputs[..n]))
  {
    if n > 0 {
      OutputRowsWorth(tx, n - 1, number);
      assert tx.outputs[..n][..n - 1] == tx.outputs[..n - 1];
      var amounts := OutputAmounts(tx.outputs[..n - 1]);
      assert (amounts + [tx.outputs[n - 1].amount])[..|amounts|] == amounts;
    }
  }

  lemma TxIsBalanced(tx: Tx, number: nat, op: Op) returns (worth: nat)
    requires TxRules(tx)
    ensures worth == Total(InputAmounts(tx.inputs))
    ensures RowSum(Only(InputRows(tx, |tx.inputs|, number), op), None)
            + RowSum(Only(OutputRows(tx, |tx.outputs|, number), op), None) == worth
  {
    var ins, outs := InputRows(tx, |tx.inputs|, number), OutputRows(tx, |tx.outputs|, number);
    InputRowsWorth(tx, |tx.inputs|, number);
    OutputRowsWorth(tx, |tx.outputs|, number);
    assert tx.inputs[..|tx.inputs|] == tx.inputs && tx.outputs[..|tx.outputs|] == tx.outputs;
    InputRowsAreUpdates(tx, |tx.inputs|, number);
    OutputRowsAreCreations(tx, |tx.outputs|, number);
    OnlyUpdates(ins);
    OnlyCreates(outs);
    assert RowSum([], None) == 0;
    worth := Total(InputAmounts(tx.inputs));
  }

  function TotalInputs(txs: seq<Tx>): nat {
    if txs == [] then 0
    else TotalInputs(txs[..|txs| - 1]) + Total(InputAmounts(txs[|txs| - 1].inputs))
  }

  lemma {:induction false} LocalWorth(txs: seq<Tx>, number: nat, op: Op)
    requires forall tx | tx in txs :: TxRules(tx)
    ensures RowSum(Only(LocalRows(txs, number), op), None) == TotalInputs(txs)
  {
    if txs != [] {
      var n := |txs| - 1;
      LocalWorth(txs[..n], number, op);
      var tx := txs[n];
      var worth := TxIsBalanced(tx, number, op);
      WorthOfParts(LocalRows(txs[..n], number), InputRows(tx, |tx.inputs|, number),
                   OutputRows(tx, |tx.outputs|, number), op);
    }
  }

  lemma WorthOfParts(xs: seq<SRow>, ys: seq<SRow>, zs: seq<SRow>, op: Op)
    ensures RowSum(Only(xs + ys + zs, op), None) ==
            RowSum(Only(xs, op), None) + RowSum(Only(ys, op), None) + RowSum(Only(zs, op), None)
  {
    OnlyOfParts(xs + ys, zs, op);
    OnlyOfParts(xs, ys, op);
    RowSumOfParts(Only(xs, op) + Only(ys, op), Only(zs, op), None);
    RowSumOfParts(Only(xs, op), Only(ys, op), None);
  }

  lemma {:induction false} SameWorth(xs: seq<SRow>, ys: seq<SRow>)
    requires |xs| == |ys| && forall i | 0 <= i < |xs| :: xs[i].amount == ys[i].amount
    ensures RowSum(xs, None) == RowSum(ys, None)
  {
    if xs != [] {
      SameWorth(xs[..|xs| - 1], ys[..|ys| - 1]);
    }
  }

  /** The outputs of an accepted block are worth its inputs. */
  lemma TransactionsAreBalanced(s: Store, b: MoneyBlock)
    requires Accepted(s, b)
    ensures RowSum(Only(Rows(s, b), Create), None) == RowSum(Only(Rows(s, b), Update), None)
  {
    var local := LocalRows(b.txs, b.number);
    RowsShape(s, b);
    LocalWorth(b.txs, b.number, Create);
    LocalWorth(b.txs, b.number, Update);
    assert local[..|local|] == local;
    ResolvedKeepsOrder(s, local, |local|, Update);
    SameWorth(Only(Rows(s, b), Update), Only(local, Update));
  }

  // ---- What the accounts hold before garbaging ----

  /** The pool is the available sources, the dividends and the outputs; what is left of it is
      worth that less the inputs. */
  lemma LeftWorth(
      s: Store, hashed: map<string, set<SourceKey>>, b: MoneyBlock, dividends: seq<SRow>, account: Option<string>)
    requires SoundSources(s, b.number, hashed) && FitTxs(s, hashed, b) && IsDividend(b, dividends)
    ensures Sum(Left(s, b, dividends), account) + RowSum(Only(Rows(s, b), Update), account) ==
            Sum(Available(s), account) + RowSum(dividends, account) + RowSum(Only(Rows(s, b), Create), account)
  {
    FreshRows(s, hashed, b, dividends);
    SumOfPut(Available(s), dividends, account);
    SumOfPut(PutAll(Available(s), dividends), Only(Rows(s, b), Create), account);
    ConsumptionsArePooled(s, hashed, b, dividends);
    RowsShape(s, b);
    SumOfRemoval(Pool(s, b, dividends), Only(Rows(s, b), Update), account);
  }

  lemma {:induction false} OnlyCreates(rows: seq<SRow>)
    requires forall i | 0 <= i < |rows| :: rows[i].op == Create
    ensures Only(rows, Create) == rows && Only(rows, Update) == []
  {
    if rows != [] {
      var front, last := rows[..|rows| - 1], rows[|rows| - 1];
      OnlyCreates(front);
      assert last.op == Create;
      assert Only(rows, Create) == Only(front, Create) + [last] && Only(rows, Update) == Only(front, Update);
      assert front + [last] == rows;
    }
  }

  lemma {:induction false} OnlyUpdates(rows: seq<SRow>)
    requires forall i | 0 <= i < |rows| :: rows[i].op == Update
    ensures Only(rows, Update) == rows && Only(rows, Create) == []
  {
    if rows != [] {
      var front, last := rows[..|rows| - 1], rows[|rows| - 1];
      OnlyUpdates(front);
      assert last.op == Update;
      assert Only(rows, Update) == Only(front, Update) + [last] && Only(rows, Create) == Only(front, Create);
      assert front + [last] == rows;
    }
  }

  lemma EntriesOf(s: Store, b: MoneyBlock, dividends: seq<SRow>)
    requires IsDividend(b, dividends)
    ensures Only(Rows(s, b) + dividends, Create) == Only(Rows(s, b), Create) + dividends
    ensures Only(Rows(s, b) + dividends, Update) == Only(Rows(s, b), Update)
  {
    OnlyOfParts(Rows(s, b), dividends, Create);
    OnlyOfParts(Rows(s, b), dividends, Update);
    forall i | 0 <= i < |dividends| ensures dividends[i].op == Create {
      assert IsDividendRow(b, dividends[i]);
    }
    OnlyCreates(dividends);
  }

  /** The balance that the garbage rule looks at is what is left for the account: it is never
      negative, so the rule never throws NEGATIVE_BALANCE. */
  lemma BalanceIsLeft(
      s: Store, hashed: map<string, set<SourceKey>>, b: MoneyBlock, dividends: seq<SRow>, account: string)
    requires Sound(s, b.number, hashed) && FitTxs(s, hashed, b) && IsDividend(b, dividends)
    ensures Balance(s.wallets, account) + Variation(Rows(s, b) + dividends, account) ==
            Sum(Left(s, b, dividends), Some(account))
  {
    LeftWorth(s, hashed, b, dividends, Some(account));
    EntriesOf(s, b, dividends);
    RowSumOfParts(Only(Rows(s, b), Create), dividends, Some(account));
    assert Balance(s.wallets, account) == Sum(Available(s), Some(account));
  }

  // ---- Garbage ----

  lemma EntriesMember(s: Store, b: MoneyBlock, dividends: seq<SRow>, r: SRow)
    requires IsDividend(b, dividends) && r.op == Create && r in Rows(s, b) + dividends
    ensures r in Only(Rows(s, b), Create) || r in dividends
  {
    OnlyMembers(Rows(s, b), Create, r);
  }

  /** A source that the rule takes is left in the pool, with its worth and conditions. */
  lemma GarbagedIsLeft(
      s: Store, hashed: map<string, set<SourceKey>>, b: MoneyBlock, dividends: seq<SRow>, r: SRow)
    requires Sound(s, b.number, hashed) && FitTxs(s, hashed, b) && IsDividend(b, dividends)
    requires Garbaged(s, Rows(s, b) + dividends, b.unitBase, r)
    ensures HoldsRow(Left(s, b, dividends), r)
  {
    PoolContents(s, hashed, b, dividends);
    EntriesOf(s, b, dividends);
    var pool := Pool(s, b, dividends);
    if r.op == Create && r in Rows(s, b) + dividends {
      EntriesMember(s, b, dividends, r);
      var creates := Only(Rows(s, b), Create);
      if r in creates {
        var i :| 0 <= i < |creates| && creates[i] == r;
        assert HoldsRow(pool, creates[i]);
      } else {
        var i :| 0 <= i < |dividends| && dividends[i] == r;
        assert HoldsRow(pool, dividends[i]);
      }
    } else {
      assert SoundCreation(s, b.number, hashed, r.key);
      assert r.key in Available(s);
    }
  }

  /** With a dividend of at least the account minimum, a member who just received it is not poor:
      the garbage rule only takes transaction sources. */
  lemma GarbageSparesDividends(
      s: Store, hashed: map<string, set<SourceKey>>, b: MoneyBlock, dividends: seq<SRow>, r: SRow)
    requires Sound(s, b.number, hashed) && Fit(s, hashed, b) && IsDividend(b, dividends)
    requires Garbaged(s, Rows(s, b) + dividends, b.unitBase, r)
    ensures r.key.Output?
  {
    GarbagedIsLeft(s, hashed, b, dividends, r);
    if r.key.Dividend? {
      var left := Left(s, b, dividends);
      BalanceIsLeft(s, hashed, b, dividends, r.conditions);
      SumWithout(left, r.key, Some(r.conditions));
      assert Value(r.amount) < ACCOUNT_MINIMUM * Pow10(b.unitBase);
      FreshDividendRow(s, hashed, b, dividends, r);
      AtLeastMinimum(r.amount);
      assert false;
    }
  }

  lemma FreshDividendRow(
      s: Store, hashed: map<string, set<SourceKey>>, b: MoneyBlock, dividends: seq<SRow>, r: SRow)
    requires SoundSources(s, b.number, hashed) && FitTxs(s, hashed, b) && IsDividend(b, dividends)
    requires Candidate(s, Rows(s, b) + dividends, r) && r.key.Dividend?
    ensures r in dividends && IsDividendRow(b, r)
  {
    assert r.key in s.creates ==> SoundCreation(s, b.number, hashed, r.key);
    EntriesMember(s, b, dividends, r);
    if r !in dividends {
      var l := RowShape(s, b, r);
      assert false;
    }
    var i :| 0 <= i < |dividends| && dividends[i] == r;
    assert IsDividendRow(b, dividends[i]);
  }

  lemma AtLeastMinimum(a: BasedAmount)
    requires a.amount >= ACCOUNT_MINIMUM
    ensures Value(a) >= ACCOUNT_MINIMUM * Pow10(a.base)
  {}

  lemma GarbageIsLeft(
      s: Store, hashed: map<string, set<SourceKey>>, b: MoneyBlock, dividends: seq<SRow>, garbage: seq<SRow>)
    requires Sound(s, b.number, hashed) && FitTxs(s, hashed, b) && IsDividend(b, dividends)
    requires SomeGarbage(s, Rows(s, b) + dividends, b, garbage)
    ensures Holds(Left(s, b, dividends), garbage)
    ensures forall i | 0 <= i < |garbage| ::
              && garbage[i].op == Update && garbage[i].srcType == T
              && garbage[i].writtenOn == b.number && garbage[i].conditions != ""
  {
    var entries := Rows(s, b) + dividends;
    forall i | 0 <= i < |garbage|
      ensures HoldsRow(Left(s, b, dividends), garbage[i])
      ensures garbage[i].op == Update && garbage[i].srcType == T
      ensures garbage[i].writtenOn == b.number && garbage[i].conditions != ""
    {
      assert IsGarbageRow(s, entries, b, garbage[i]);
      var r :| Garbaged(s, entries, b.unitBase, r) && garbage[i] == GarbageRow(r, b.number);
      GarbagedIsLeft(s, hashed, b, dividends, r);
      GarbagedHasConditions(s, hashed, b, dividends, r);
    }
  }

  lemma GarbageNamesOutputs(
      s: Store, hashed: map<string, set<SourceKey>>, b: MoneyBlock, dividends: seq<SRow>, garbage: seq<SRow>)
    requires Sound(s, b.number, hashed) && Fit(s, hashed, b) && IsDividend(b, dividends)
    requires SomeGarbage(s, Rows(s, b) + dividends, b, garbage)
    ensures forall i | 0 <= i < |garbage| :: garbage[i].key.Output?
  {
    var entries := Rows(s, b) + dividends;
    forall i | 0 <= i < |garbage| ensures garbage[i].key.Output? {
      assert IsGarbageRow(s, entries, b, garbage[i]);
      var r :| Garbaged(s, entries, b.unitBase, r) && garbage[i] == GarbageRow(r, b.number);
      GarbageSparesDividends(s, hashed, b, dividends, r);
    }
  }

  lemma GarbagedHasConditions(
      s: Store, hashed: map<string, set<SourceKey>>, b: MoneyBlock, dividends: seq<SRow>, r: SRow)
    requires SoundSources(s, b.number, hashed) && FitTxs(s, hashed, b) && IsDividend(b, dividends)
    requires Candidate(s, Rows(s, b) + dividends, r)
    ensures r.conditions != ""
  {
    if r.op == Create && r in Rows(s, b) + dividends {
      EntriesMember(s, b, dividends, r);
      if r in Only(Rows(s, b), Create) {
        var l := RowShape(s, b, r);
      } else {
        var i :| 0 <= i < |dividends| && dividends[i] == r;
        assert IsDividendRow(b, dividends[i]);
      }
    } else {
      assert SoundCreation(s, b.number, hashed, r.key);
    }
  }
}
