/** The money side over whole runs: sound stores, the supply, and no double spending. */
module MoneyRuns {
  import opened Amounts
  import opened Outcomes
  import opened Sources
  import opened SourceSums
  import opened Money
  import opened LocalSources
  import opened MoneySteps
  import opened MoneyConservation
  import opened MoneyEffect

  /** Everything that is known when a block is applied; of the garbage rows, that they name some of the
      sources that the rule takes. */
  ghost predicate Applied(
      s: Store, hashed: map<string, set<SourceKey>>, b: MoneyBlock,
      dividends: seq<SRow>, garbage: seq<SRow>, after: Store)
  {
    Sound(s, b.number, hashed) && Fit(s, hashed, b) && PartStep(s, b, dividends, garbage, after)
  }

  /** The records and dividends after some garbage rows that name outputs, whatever the dividend
      is worth and whatever happened to the wallets. */
  ghost predicate Flushing(
      s: Store, hashed: map<string, set<SourceKey>>, b: MoneyBlock,
      dividends: seq<SRow>, garbage: seq<SRow>, after: Store)
  {
    && Sound(s, b.number, hashed) && FitTxs(s, hashed, b)
    && IsDividend(b, dividends) && SomeGarbage(s, Rows(s, b) + dividends, b, garbage) && PlainGarbage(garbage)
    && Flushed(s, b, dividends, garbage, after)
  }

  // The stores after a block, key by key.

  ghost predicate CreatesAfter(s: Store, b: MoneyBlock, after: Store) {
    var cs := Only(Rows(s, b), Create);
    && after.creates.Keys == s.creates.Keys + Keys(cs)
    && (forall k | k in s.creates :: after.creates[k] == s.creates[k])
    && (forall i | 0 <= i < |cs| :: Written(after.creates, cs[i]))
  }

  ghost predicate UpdatesAfter(s: Store, b: MoneyBlock, garbage: seq<SRow>, after: Store) {
    var us := Consumptions(s, b, garbage);
    && after.updates.Keys == s.updates.Keys + (Keys(us) - DividendKeys(Keys(us)))
    && (forall k | k in s.updates && k !in Keys(us) :: after.updates[k] == s.updates[k])
    && (forall i | 0 <= i < |us| && us[i].key.Output? :: Written(after.updates, us[i]))
  }

  ghost predicate UdsAfter(s: Store, b: MoneyBlock, dividends: seq<SRow>, garbage: seq<SRow>, after: Store) {
    var spent := DividendKeys(Keys(Consumptions(s, b, garbage)));
    && after.uds.Keys == s.uds.Keys + Keys(dividends) - spent
    && (forall k | k in after.uds :: k in s.uds && k !in Keys(dividends) ==> after.uds[k] == s.uds[k])
    && (forall i | 0 <= i < |dividends| :: dividends[i].key in after.uds ==> Granted(after.uds, dividends[i]))
    && after.spent.Keys == s.spent.Keys + spent * (s.uds.Keys + Keys(dividends))
    && (forall k | k in s.spent && k !in spent :: after.spent[k] == s.spent[k])
    && (forall k | k in spent && k in after.spent && k in s.uds && k !in Keys(dividends) ::
          after.spent[k] == SpentUd(s.uds[k], b.number))
    && (forall k | k in spent && k in after.spent && k !in s.spent :: after.spent[k].consumedOn == b.number)
  }

  ghost predicate Effect(
      s: Store, b: MoneyBlock, dividends: seq<SRow>, garbage: seq<SRow>, after: Store)
  {
    CreatesAfter(s, b, after) && UpdatesAfter(s, b, garbage, after) && UdsAfter(s, b, dividends, garbage, after)
  }

  lemma GarbageIsPlain(
      s: Store, hashed: map<string, set<SourceKey>>, b: MoneyBlock,
      dividends: seq<SRow>, garbage: seq<SRow>, after: Store)
    requires Applied(s, hashed, b, dividends, garbage, after)
    ensures PlainGarbage(garbage)
  {
    GarbageIsLeft(s, hashed, b, dividends, garbage);
    GarbageNamesOutputs(s, hashed, b, dividends, garbage);
  }

  lemma AppliedIsFlushing(
      s: Store, hashed: map<string, set<SourceKey>>, b: MoneyBlock,
      dividends: seq<SRow>, garbage: seq<SRow>, after: Store)
    requires Applied(s, hashed, b, dividends, garbage, after)
    ensures Flushing(s, hashed, b, dividends, garbage, after)
  {
    GarbageIsPlain(s, hashed, b, dividends, garbage, after);
  }

  lemma CreatesEffect(
      s: Store, hashed: map<string, set<SourceKey>>, b: MoneyBlock,
      dividends: seq<SRow>, garbage: seq<SRow>, after: Store)
    requires Flushing(s, hashed, b, dividends, garbage, after)
    ensures CreatesAfter(s, b, after)
  {
    FlushedRows(s, b, garbage);
    CreationsAreTransactions(s, b);
    RowsShape(s, b);
    NoReplay(s, hashed, b);
    PutRowsContents(s.creates, Only(Rows(s, b), Create));
  }

  lemma UpdatesEffect(
      s: Store, hashed: map<string, set<SourceKey>>, b: MoneyBlock,
      dividends: seq<SRow>, garbage: seq<SRow>, after: Store)
    requires Flushing(s, hashed, b, dividends, garbage, after)
    ensures UpdatesAfter(s, b, garbage, after)
  {
    FlushedRows(s, b, garbage);
    ConsumptionsAreDistinct(s, hashed, b, dividends, garbage);
    UpdatesArePut(s, b, garbage, after);
  }

  lemma UpdatesArePut(s: Store, b: MoneyBlock, garbage: seq<SRow>, after: Store)
    requires Accepted(s, b) && PlainGarbage(garbage) && DistinctKeys(Consumptions(s, b, garbage))
    requires after.updates == PutRows(s.updates, OfType(Consumptions(s, b, garbage), T))
    ensures UpdatesAfter(s, b, garbage, after)
  {
    var us := Consumptions(s, b, garbage);
    SpentOutputs(s, b, garbage);
    PutOutputs(s.updates, us);
    forall i | 0 <= i < |us| && us[i].key.Output? ensures us[i].srcType == T {
      ConsumptionShape(s, b, garbage, us[i]);
    }
  }

  lemma PutOutputs(m: map<SourceKey, SRow>, us: seq<SRow>)
    requires DistinctKeys(us)
    ensures PutRows(m, OfType(us, T)).Keys == m.Keys + Keys(OfType(us, T))
    ensures forall k | k in m && k !in Keys(us) :: PutRows(m, OfType(us, T))[k] == m[k]
    ensures forall i | 0 <= i < |us| && us[i].srcType == T :: Written(PutRows(m, OfType(us, T)), us[i])
  {
    var ts := OfType(us, T);
    DistinctOfType(us, T);
    PutRowsContents(m, ts);
    forall i | 0 <= i < |us| && us[i].srcType == T ensures Written(PutRows(m, ts), us[i]) {
      OfTypeMembers(us, T, us[i]);
      var j :| 0 <= j < |ts| && ts[j] == us[i];
      assert Written(PutRows(m, ts), ts[j]);
    }
  }

  lemma UdsEffect(
      s: Store, hashed: map<string, set<SourceKey>>, b: MoneyBlock,
      dividends: seq<SRow>, garbage: seq<SRow>, after: Store)
    requires Flushing(s, hashed, b, dividends, garbage, after)
    ensures UdsAfter(s, b, dividends, garbage, after)
  {
    SpentDividends(s, b, garbage);
    WithUdsContents(s.uds, dividends);
    FlushContents(s.uds, WithUds(s.uds, dividends), s.spent, dividends, Rows(s, b) + garbage, b.number);
  }

  lemma FlushContents(
      uds: map<SourceKey, BasedAmount>, with: map<SourceKey, BasedAmount>, spent: map<SourceKey, SpentUd>,
      dividends: seq<SRow>, sindex: seq<SRow>, number: nat)
    requires with.Keys == uds.Keys + Keys(dividends)
    requires forall k | k in uds && k !in Keys(dividends) :: with[k] == uds[k]
    requires forall i | 0 <= i < |dividends| :: Granted(with, dividends[i])
    ensures var gone := Keys(OfType(sindex, D));
            var left, spentAfter := FlushedUds(with, sindex), FlushedSpent(with, spent, sindex, number);
            && left.Keys == uds.Keys + Keys(dividends) - gone
            && (forall k | k in left :: k in uds && k !in Keys(dividends) ==> left[k] == uds[k])
            && (forall i | 0 <= i < |dividends| :: dividends[i].key in left ==> Granted(left, dividends[i]))
            && spentAfter.Keys == spent.Keys + gone * (uds.Keys + Keys(dividends))
            && (forall k | k in spent && k !in gone :: spentAfter[k] == spent[k])
            && (forall k | k in gone && k in spentAfter && k in uds && k !in Keys(dividends) ::
                  spentAfter[k] == SpentUd(uds[k], number))
            && (forall k | k in gone && k in spentAfter && k !in spent :: spentAfter[k].consumedOn == number)
  {
    var left := FlushedUds(with, sindex);
    forall i | 0 <= i < |dividends| ensures dividends[i].key in left ==> Granted(left, dividends[i]) {
      assert Granted(with, dividends[i]);
    }
  }

  lemma StepHasEffect(
      s: Store, hashed: map<string, set<SourceKey>>, b: MoneyBlock,
      dividends: seq<SRow>, garbage: seq<SRow>, after: Store)
    requires Flushing(s, hashed, b, dividends, garbage, after)
    ensures Effect(s, b, dividends, garbage, after)
  {
    CreatesEffect(s, hashed, b, dividends, garbage, after);
    UpdatesEffect(s, hashed, b, dividends, garbage, after);
    UdsEffect(s, hashed, b, dividends, garbage, after);
  }

  // ---- The available sources after a block ----

  lemma AvailableAfterFlush(
      s: Store, hashed: map<string, set<SourceKey>>, b: MoneyBlock,
      dividends: seq<SRow>, garbage: seq<SRow>, after: Store)
    requires Flushing(s, hashed, b, dividends, garbage, after)
    ensures Available(after) == Left(s, b, dividends) - Keys(garbage)
  {
    StepHasEffect(s, hashed, b, dividends, garbage, after);
    PoolContents(s, hashed, b, dividends);
    FreshRows(s, hashed, b, dividends);
    ConsumptionsAreDistinct(s, hashed, b, dividends, garbage);
    AvailableKeysAfter(s, hashed, b, dividends, garbage, after);
    var rest := Left(s, b, dividends) - Keys(garbage);
    forall k | k in rest ensures Available(after)[k] == rest[k] {
      AvailableValueAfter(s, hashed, b, dividends, garbage, after, k);
    }
  }

  lemma AvailableKeysAfter(
      s: Store, hashed: map<string, set<SourceKey>>, b: MoneyBlock,
      dividends: seq<SRow>, garbage: seq<SRow>, after: Store)
    requires Flushing(s, hashed, b, dividends, garbage, after)
    requires Effect(s, b, dividends, garbage, after)
    requires Keys(Consumptions(s, b, garbage)) == Keys(Only(Rows(s, b), Update)) + Keys(garbage)
    requires Pool(s, b, dividends).Keys == Available(s).Keys + Keys(dividends) + Keys(Only(Rows(s, b), Create))
    ensures Available(after).Keys == (Left(s, b, dividends) - Keys(garbage)).Keys
  {
    KeysAreTyped(s, hashed, b, dividends);
    StoreKeysAfter(s, b, dividends, garbage, after);
    LeftKeys(s, b, dividends, garbage);
    KeySets(s.creates.Keys, s.updates.Keys, s.uds.Keys,
            Keys(Only(Rows(s, b), Create)), Keys(dividends), Keys(Consumptions(s, b, garbage)));
  }

  lemma StoreKeysAfter(s: Store, b: MoneyBlock, dividends: seq<SRow>, garbage: seq<SRow>, after: Store)
    requires Effect(s, b, dividends, garbage, after)
    ensures var us := Keys(Consumptions(s, b, garbage));
            Available(after).Keys ==
            ((s.creates.Keys + Keys(Only(Rows(s, b), Create))) - (s.updates.Keys + (us - DividendKeys(us))))
            + (s.uds.Keys + Keys(dividends) - DividendKeys(us))
  {}

  lemma LeftKeys(s: Store, b: MoneyBlock, dividends: seq<SRow>, garbage: seq<SRow>)
    requires Keys(Consumptions(s, b, garbage)) == Keys(Only(Rows(s, b), Update)) + Keys(garbage)
    requires Pool(s, b, dividends).Keys == Available(s).Keys + Keys(dividends) + Keys(Only(Rows(s, b), Create))
    ensures (Left(s, b, dividends) - Keys(garbage)).Keys ==
            (s.creates.Keys - s.updates.Keys) + s.uds.Keys + Keys(dividends) + Keys(Only(Rows(s, b), Create))
            - Keys(Consumptions(s, b, garbage))
  {}

  lemma KeysAreTyped(s: Store, hashed: map<string, set<SourceKey>>, b: MoneyBlock, dividends: seq<SRow>)
    requires SoundSources(s, b.number, hashed) && FitTxs(s, hashed, b) && IsDividend(b, dividends)
    ensures s.updates.Keys <= s.creates.Keys && Keys(Only(Rows(s, b), Create)) !! s.creates.Keys
    ensures forall k | k in s.creates.Keys :: k.Output?
    ensures forall k | k in Keys(Only(Rows(s, b), Create)) :: k.Output?
    ensures forall k | k in s.uds.Keys :: k.Dividend?
    ensures forall k | k in Keys(dividends) :: k.Dividend?
  {
    NoReplay(s, hashed, b);
    RowsShape(s, b);
    SourcesAreTyped(s, hashed, b.number);
    var cs := Only(Rows(s, b), Create);
    forall k | k in Keys(cs) ensures k.Output? {
      var r := MemberOfKey(cs, k);
      var l := RowShape(s, b, r);
    }
  }

  lemma SourcesAreTyped(s: Store, hashed: map<string, set<SourceKey>>, next: nat)
    requires SoundSources(s, next, hashed)
    ensures s.updates.Keys <= s.creates.Keys
    ensures forall k | k in s.creates :: k.Output?
    ensures forall k | k in s.uds :: k.Dividend?
  {
    forall k | k in s.updates ensures k in s.creates {
      assert SoundConsumption(s, next, k);
    }
    forall k | k in s.creates ensures k.Output? {
      assert SoundCreation(s, next, hashed, k);
    }
  }

  lemma KeySets(creates: set<SourceKey>, updates: set<SourceKey>, uds: set<SourceKey>,
                cs: set<SourceKey>, ds: set<SourceKey>, us: set<SourceKey>)
    requires updates <= creates && cs !! creates
    requires (forall k | k in creates :: k.Output?) && (forall k | k in cs :: k.Output?)
    requires (forall k | k in uds :: k.Dividend?) && (forall k | k in ds :: k.Dividend?)
    ensures ((creates + cs) - (updates + (us - DividendKeys(us)))) + (uds + ds - DividendKeys(us)) ==
            (creates - updates) + uds + ds + cs - us
  {}

  lemma AvailableValueAfter(
      s: Store, hashed: map<string, set<SourceKey>>, b: MoneyBlock,
      dividends: seq<SRow>, garbage: seq<SRow>, after: Store, k: SourceKey)
    requires Flushing(s, hashed, b, dividends, garbage, after)
    requires Effect(s, b, dividends, garbage, after)
    requires k in Available(after) && k in Left(s, b, dividends)
    ensures Available(after)[k] == Left(s, b, dividends)[k]
  {
    PoolContents(s, hashed, b, dividends);
    FreshRows(s, hashed, b, dividends);
    if k in Available(s) {
      OldValueAfter(s, hashed, b, dividends, garbage, after, k);
    } else if k in Keys(dividends) {
      var r := MemberOfKey(dividends, k);
      var i :| 0 <= i < |dividends| && dividends[i] == r;
      assert HoldsRow(Pool(s, b, dividends), r) && IsDividendRow(b, r);
    } else {
      NewOutputAfter(s, hashed, b, dividends, garbage, after, k);
    }
  }

  lemma OldValueAfter(
      s: Store, hashed: map<string, set<SourceKey>>, b: MoneyBlock,
      dividends: seq<SRow>, garbage: seq<SRow>, after: Store, k: SourceKey)
    requires Flushing(s, hashed, b, dividends, garbage, after)
    requires Effect(s, b, dividends, garbage, after)
    requires k in Available(after) && k in Available(s) && k !in Keys(dividends)
    ensures Available(after)[k] == Available(s)[k]
  {
    SourcesAreTyped(s, hashed, b.number);
    if k in s.uds {
      assert k in after.uds by {
        var cs := Only(Rows(s, b), Create);
        assert k !in after.creates by {
          if k in Keys(cs) {
            var r := MemberOfKey(cs, k);
            var l := RowShape(s, b, r);
            assert false;
          }
        }
      }
    } else {
      assert k !in after.uds;
    }
  }

  lemma NewOutputAfter(
      s: Store, hashed: map<string, set<SourceKey>>, b: MoneyBlock,
      dividends: seq<SRow>, garbage: seq<SRow>, after: Store, k: SourceKey)
    requires Flushing(s, hashed, b, dividends, garbage, after)
    requires Effect(s, b, dividends, garbage, after)
    requires k in Available(after) && k in Keys(Only(Rows(s, b), Create))
    requires Holds(Pool(s, b, dividends), Only(Rows(s, b), Create))
    requires forall i | 0 <= i < |dividends| :: dividends[i].key.Dividend?
    ensures k in Pool(s, b, dividends) && Available(after)[k] == Pool(s, b, dividends)[k]
  {
    var cs := Only(Rows(s, b), Create);
    var i :| 0 <= i < |cs| && cs[i].key == k;
    assert HoldsRow(Pool(s, b, dividends), cs[i]) && Written(after.creates, cs[i]);
    var l := RowShape(s, b, cs[i]);
    SourcesAreTyped(s, hashed, b.number);
    if k in Keys(dividends) {
      var r := MemberOfKey(dividends, k);
      assert false;
    }
  }

  /** What the available sources are worth after a block, in all and for each account. */
  lemma WorthAfterFlush(
      s: Store, hashed: map<string, set<SourceKey>>, b: MoneyBlock,
      dividends: seq<SRow>, garbage: seq<SRow>, after: Store, account: Option<string>)
    requires Flushing(s, hashed, b, dividends, garbage, after)
    ensures Sum(Available(after), account) + RowSum(garbage, account) + RowSum(Only(Rows(s, b), Update), account) ==
            Sum(Available(s), account) + RowSum(dividends, account) + RowSum(Only(Rows(s, b), Create), account)
  {
    AvailableAfterFlush(s, hashed, b, dividends, garbage, after);
    LeftWorth(s, hashed, b, dividends, account);
    GarbageIsLeft(s, hashed, b, dividends, garbage);
    SumOfRemoval(Left(s, b, dividends), garbage, account);
  }

  /** The sources available after an accepted block. */
  lemma AvailableAfter(
      s: Store, hashed: map<string, set<SourceKey>>, b: MoneyBlock,
      dividends: seq<SRow>, garbage: seq<SRow>, after: Store)
    requires Applied(s, hashed, b, dividends, garbage, after)
    ensures Available(after) == Left(s, b, dividends) - Keys(garbage)
  {
    AppliedIsFlushing(s, hashed, b, dividends, garbage, after);
    AvailableAfterFlush(s, hashed, b, dividends, garbage, after);
  }

  lemma WorthAfter(
      s: Store, hashed: map<string, set<SourceKey>>, b: MoneyBlock,
      dividends: seq<SRow>, garbage: seq<SRow>, after: Store, account: Option<string>)
    requires Applied(s, hashed, b, dividends, garbage, after)
    ensures Sum(Available(after), account) + RowSum(garbage, account) + RowSum(Only(Rows(s, b), Update), account) ==
            Sum(Available(s), account) + RowSum(dividends, account) + RowSum(Only(Rows(s, b), Create), account)
  {
    AppliedIsFlushing(s, hashed, b, dividends, garbage, after);
    WorthAfterFlush(s, hashed, b, dividends, garbage, after, account);
  }

  /** The supply grows by the dividend and shrinks by what is garbaged; transactions keep it. */
  lemma SupplyAfter(
      s: Store, hashed: map<string, set<SourceKey>>, b: MoneyBlock,
      dividends: seq<SRow>, garbage: seq<SRow>, after: Store)
    requires Applied(s, hashed, b, dividends, garbage, after)
    ensures Supply(after) + RowSum(garbage, None) == Supply(s) + RowSum(dividends, None)
  {
    WorthAfter(s, hashed, b, dividends, garbage, after, None);
    TransactionsAreBalanced(s, b);
  }

  lemma {:induction false} DividendsWorth(rows: seq<SRow>, amount: BasedAmount)
    requires forall i | 0 <= i < |rows| :: rows[i].amount == amount
    ensures RowSum(rows, None) == |rows| * Value(amount)
  {
    if rows != [] {
      DividendsWorth(rows[..|rows| - 1], amount);
      assert |rows| * Value(amount) == (|rows| - 1) * Value(amount) + Value(amount);
    }
  }

  lemma {:induction false} CountDistinct(rows: seq<SRow>)
    requires DistinctKeys(rows)
    ensures |Keys(rows)| == |rows|
  {
    if rows != [] {
      KeysWithLast(rows);
      CountDistinct(rows[..|rows| - 1]);
    }
  }

  lemma {:induction false} CountProducers(producers: set<string>, number: nat)
    ensures |set p | p in producers :: Dividend(p, number)| == |producers|
  {
    var keys := set p | p in producers :: Dividend(p, number);
    if producers != {} {
      var p :| p in producers;
      CountProducers(producers - {p}, number);
      assert keys == (set q | q in producers - {p} :: Dividend(q, number)) + {Dividend(p, number)};
    }
  }

  /** The dividend is worth its amount times the number of producers. */
  lemma DividendWorth(b: MoneyBlock, dividends: seq<SRow>)
    requires IsDividend(b, dividends)
    ensures RowSum(dividends, None) == if b.dividend.Some? then |b.producers| * Value(b.dividend.value) else 0
  {
    CountDistinct(dividends);
    if b.dividend.Some? {
      CountProducers(b.producers, b.number);
      forall i | 0 <= i < |dividends| ensures dividends[i].amount == b.dividend.value {
        assert IsDividendRow(b, dividends[i]);
      }
      DividendsWorth(dividends, b.dividend.value);
    } else {
      assert dividends == [];
    }
  }

  // ---- Soundness is kept ----

  lemma WalletsStillAgree(
      s: Store, hashed: map<string, set<SourceKey>>, b: MoneyBlock,
      dividends: seq<SRow>, garbage: seq<SRow>, after: Store)
    requires Applied(s, hashed, b, dividends, garbage, after)
    ensures WalletsAgree(after)
  {
    GarbageIsPlain(s, hashed, b, dividends, garbage, after);
    FlushedRows(s, b, garbage);
    forall c ensures Balance(after.wallets, c) == Sum(Available(after), Some(c)) {
      WorthAfter(s, hashed, b, dividends, garbage, after, Some(c));
      RowSumOfParts(Only(Rows(s, b), Update), garbage, Some(c));
      assert Balance(s.wallets, c) == Sum(Available(s), Some(c));
    }
  }

  lemma ConsumedAreCreated(
      s: Store, hashed: map<string, set<SourceKey>>, b: MoneyBlock,
      dividends: seq<SRow>, garbage: seq<SRow>, after: Store, r: SRow)
    requires Applied(s, hashed, b, dividends, garbage, after)
    requires r in Consumptions(s, b, garbage)
    ensures HoldsRow(Pool(s, b, dividends), r)
    ensures r.op == Update && r.writtenOn == b.number
  {
    if r in Only(Rows(s, b), Update) {
      OnlyMembers(Rows(s, b), Update, r);
      var l := RowShape(s, b, r);
      ConsumptionIsPooled(s, hashed, b, dividends, r);
    } else {
      GarbageIsLeft(s, hashed, b, dividends, garbage);
      var i :| 0 <= i < |garbage| && garbage[i] == r;
      assert HoldsRow(Left(s, b, dividends), garbage[i]);
    }
  }

  lemma PooledOutput(
      s: Store, hashed: map<string, set<SourceKey>>, b: MoneyBlock,
      dividends: seq<SRow>, garbage: seq<SRow>, after: Store, k: SourceKey)
    requires Applied(s, hashed, b, dividends, garbage, after)
    requires k in Pool(s, b, dividends) && k.Output?
    ensures k in after.creates && SourceOf(after.creates[k]) == Pool(s, b, dividends)[k]
  {
    AppliedIsFlushing(s, hashed, b, dividends, garbage, after);
    StepHasEffect(s, hashed, b, dividends, garbage, after);
    PoolContents(s, hashed, b, dividends);
    FreshRows(s, hashed, b, dividends);
    if k !in Available(s) {
      var cs := Only(Rows(s, b), Create);
      assert k in Keys(cs) by {
        if k in Keys(dividends) {
          var d := MemberOfKey(dividends, k);
          assert false;
        }
      }
      var i :| 0 <= i < |cs| && cs[i].key == k;
      assert HoldsRow(Pool(s, b, dividends), cs[i]) && Written(after.creates, cs[i]);
    }
  }
}
