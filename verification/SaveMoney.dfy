/** The money part of `saveBlockData`, on the stores themselves. */
module SaveMoney {
  import opened Sources
  import opened SourceSums
  import opened Money
  import opened LocalSources
  import opened MoneySteps
  import opened MoneyConservation
  import opened MoneyEffect
  import opened MoneyRuns
  import opened DoubleSpend
  import opened MoneyDal

  lemma EntriesAreFresh(s: Store, hashed: map<string, set<SourceKey>>, b: MoneyBlock, dividends: seq<SRow>)
    requires Sound(s, b.number, hashed) && FitTxs(s, hashed, b) && IsDividend(b, dividends)
    ensures DistinctKeys(Only(Rows(s, b) + dividends, Create))
    ensures Keys(Only(Rows(s, b) + dividends, Create)) !! s.creates.Keys
    ensures forall k | k in s.creates :: s.creates[k].key == k
  {
    var cs := Only(Rows(s, b), Create);
    EntriesOf(s, b, dividends);
    FreshRows(s, hashed, b, dividends);
    PutAllContents(Available(s), dividends);
    KeysAreTyped(s, hashed, b, dividends);
    KeysOfParts(cs, dividends);
    DistinctParts(cs, dividends);
    forall k | k in s.creates ensures s.creates[k].key == k {
      assert SoundCreation(s, b.number, hashed, k);
    }
  }

  /** Under the hypotheses the garbage rule never throws NEGATIVE_BALANCE. */
  lemma NeverOverdrawn(
      s: Store, hashed: map<string, set<SourceKey>>, b: MoneyBlock, dividends: seq<SRow>, account: string)
    requires Sound(s, b.number, hashed) && FitTxs(s, hashed, b) && IsDividend(b, dividends)
    ensures !Overdrawn(s, Rows(s, b) + dividends, account)
  {
    BalanceIsLeft(s, hashed, b, dividends, account);
  }

  lemma NoneIsOverdrawn(s: Store, hashed: map<string, set<SourceKey>>, b: MoneyBlock, dividends: seq<SRow>)
    requires Sound(s, b.number, hashed) && FitTxs(s, hashed, b) && IsDividend(b, dividends)
    ensures var entries := Rows(s, b) + dividends;
            !exists e | e in entries ::
              (if e.conditions in s.wallets then s.wallets[e.conditions] else 0) + Variation(entries, e.conditions) < 0
  {
    var entries := Rows(s, b) + dividends;
    forall e | e in entries ensures !Overdrawn(s, entries, e.conditions) {
      NeverOverdrawn(s, hashed, b, dividends, e.conditions);
    }
  }

  lemma DividendInputsAreDistinct(s: Store, b: MoneyBlock)
    requires Accepted(s, b)
    ensures DistinctKeys(OfType(Rows(s, b), D))
  {
    var rows := Rows(s, b);
    var ds := OfType(rows, D);
    forall i | 0 <= i < |ds| ensures ds[i].op == Update {
      OfTypeMembers(rows, D, ds[i]);
      var l := RowShape(s, b, ds[i]);
    }
    OnlyUpdates(ds);
    FiltersCommute(rows, D, Update);
    RowsShape(s, b);
    DistinctOfType(Only(rows, Update), D);
  }

  lemma PooledDividends(creates: set<SourceKey>, updates: set<SourceKey>, uds: set<SourceKey>,
                        cs: set<SourceKey>, ds: set<SourceKey>, us: set<SourceKey>)
    requires (forall k | k in creates :: k.Output?) && (forall k | k in cs :: k.Output?)
    requires us <= (creates - updates) + uds + ds + cs
    ensures DividendKeys(us) <= uds + ds
  {}

  lemma DividendsHeld(s: Store, hashed: map<string, set<SourceKey>>, b: MoneyBlock, dividends: seq<SRow>)
    requires Sound(s, b.number, hashed) && FitTxs(s, hashed, b) && IsDividend(b, dividends)
    ensures DividendKeys(Keys(Consumptions(s, b, []))) <= s.uds.Keys + Keys(dividends)
  {
    ConsumptionsAreDistinct(s, hashed, b, dividends, []);
    PoolContents(s, hashed, b, dividends);
    KeysAreTyped(s, hashed, b, dividends);
    PooledDividends(s.creates.Keys, s.updates.Keys, s.uds.Keys, Keys(Only(Rows(s, b), Create)), Keys(dividends),
                    Keys(Consumptions(s, b, [])));
  }

  /** The dividend rows of a block are distinct inputs, and name available dividends. */
  lemma DividendRowsAreHeld(
      s: Store, hashed: map<string, set<SourceKey>>, b: MoneyBlock, dividends: seq<SRow>, garbage: seq<SRow>)
    requires Sound(s, b.number, hashed) && FitTxs(s, hashed, b) && IsDividend(b, dividends)
    requires SomeGarbage(s, Rows(s, b) + dividends, b, garbage)
    ensures DistinctKeys(OfType(Rows(s, b) + garbage, D))
    ensures Keys(OfType(Rows(s, b) + garbage, D)) <= WithUds(s.uds, dividends).Keys
  {
    var rows := Rows(s, b);
    GarbageIsLeft(s, hashed, b, dividends, garbage);
    NoneOfType(garbage, D);
    OfTypeOfParts(rows, garbage, D);
    DividendInputsAreDistinct(s, b);
    SpentDividends(s, b, []);
    assert rows + [] == rows;
    WithUdsContents(s.uds, dividends);
    DividendsHeld(s, hashed, b, dividends);
  }

  /** An accepted block is saved without an exception, as `Step` says; it leaves sound stores if its
      dividend, if any, is at least the account minimum. */
  method SaveMoney(dal: Dal, ghost hashed: map<string, set<SourceKey>>, b: MoneyBlock)
    returns (dividends: seq<SRow>, garbage: seq<SRow>)
    requires Sound(dal.State(), b.number, hashed) && FitTxs(dal.State(), hashed, b)
    modifies dal
    ensures Step(old(dal.State()), b, dividends, garbage, dal.State())
    ensures Fit(old(dal.State()), hashed, b) ==> Sound(dal.State(), b.number + 1, hashed)
  {
    ghost var s := dal.State();
    var local := LocalSIndex(b.txs, b.number);
    var rows, ok := dal.ResolveInputs(local);
    dividends := dal.ProduceDividend(b);
    EntriesAreFresh(s, hashed, b, dividends);
    var result := dal.GarbageSmallAccounts(s, rows + dividends, b);
    NoneIsOverdrawn(s, hashed, b, dividends);
    assert result.Success?;
    garbage := result.value;
    DividendRowsAreHeld(s, hashed, b, dividends, garbage);
    dal.FlushSources(rows + garbage, b.number);
    DividendsAreCreations(b, dividends);
    dal.UpdateWallets(rows + garbage, dividends, false);
    if Fit(s, hashed, b) {
      StaysSound(s, hashed, b, dividends, garbage, dal.State());
    }
  }

  lemma DividendsAreCreations(b: MoneyBlock, dividends: seq<SRow>)
    requires IsDividend(b, dividends)
    ensures forall i | 0 <= i < |dividends| :: dividends[i].op == Create
  {
    forall i | 0 <= i < |dividends| ensures dividends[i].op == Create {
      assert IsDividendRow(b, dividends[i]);
    }
  }
}
