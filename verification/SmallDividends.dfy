/** A dividend below the account minimum: the garbage rule takes it in the transaction index, and
    it stays available in the dividend store. What that does to the wallets, exactly. */
module SmallDividends {
  import opened Amounts
  import opened Outcomes
  import opened Sources
  import opened SourceSums
  import opened TxDepth
  import opened Money
  import opened LocalSources
  import opened MoneySteps
  import opened MoneyConservation
  import opened MoneyEffect
  import opened MoneyRuns

  /** A block that is applied, whatever its dividend is worth. */
  ghost predicate AppliedAnyway(
      s: Store, hashed: map<string, set<SourceKey>>, b: MoneyBlock,
      dividends: seq<SRow>, garbage: seq<SRow>, after: Store)
  {
    Sound(s, b.number, hashed) && FitTxs(s, hashed, b) && Step(s, b, dividends, garbage, after)
  }

  /** The rows that name a dividend, or those that name an output. */
  function Naming(rows: seq<SRow>, dividend: bool): (r: seq<SRow>)
    ensures forall i | 0 <= i < |r| :: r[i].key.Dividend? == dividend && r[i] in rows
  {
    if rows == [] then []
    else
      var front, last := Naming(rows[..|rows| - 1], dividend), rows[|rows| - 1];
      if last.key.Dividend? == dividend then front + [last] else front
  }

  lemma {:induction false} NamingMembers(rows: seq<SRow>, dividend: bool, r: SRow)
    ensures r in Naming(rows, dividend) <==> r in rows && r.key.Dividend? == dividend
  {
    if rows != [] {
      NamingMembers(rows[..|rows| - 1], dividend, r);
      assert rows == rows[..|rows| - 1] + [rows[|rows| - 1]];
    }
  }

  lemma {:induction false} NamingIsDistinct(rows: seq<SRow>, dividend: bool)
    requires DistinctKeys(rows)
    ensures DistinctKeys(Naming(rows, dividend)) && Keys(Naming(rows, dividend)) <= Keys(rows)
  {
    if rows != [] {
      var named := Naming(rows, dividend);
      KeysWithLast(rows);
      NamingIsDistinct(rows[..|rows| - 1], dividend);
      if rows[|rows| - 1].key.Dividend? == dividend {
        KeysWithLast(named);
        assert named[..|named| - 1] == Naming(rows[..|rows| - 1], dividend);
        DistinctWithLast(named);
      }
    }
  }

  lemma {:induction false} NamingWorth(rows: seq<SRow>, account: Option<string>)
    ensures RowSum(rows, account) == RowSum(Naming(rows, false), account) + RowSum(Naming(rows, true), account)
  {
    if rows != [] {
      var n := |rows| - 1;
      NamingWorth(rows[..n], account);
      var d := rows[n].key.Dividend?;
      assert Naming(rows, d)[..|Naming(rows, d)| - 1] == Naming(rows[..n], d);
    }
  }

  lemma {:induction false} WorthNothing(rows: seq<SRow>, account: Option<string>)
    requires forall i | 0 <= i < |rows| :: Weight(SourceOf(rows[i]), account) == 0
    ensures RowSum(rows, account) == 0
  {
    if rows != [] {
      WorthNothing(rows[..|rows| - 1], account);
    }
  }

  lemma {:induction false} WorthAtLeast(rows: seq<SRow>, account: Option<string>, r: SRow)
    requires r in rows
    ensures RowSum(rows, account) >= Weight(SourceOf(r), account)
  {
    var n := |rows| - 1;
    if r != rows[n] {
      assert r in rows[..n];
      WorthAtLeast(rows[..n], account, r);
    }
  }

  lemma {:induction false} PutRowsKeys(m: map<SourceKey, SRow>, rows: seq<SRow>)
    ensures PutRows(m, rows).Keys == m.Keys + Keys(rows)
  {
    if rows != [] {
      KeysWithLast(rows);
      PutRowsKeys(m, rows[..|rows| - 1]);
    }
  }

  /** The stores without the records that name dividends: those are never looked at, since the
      dividend DAO knows which dividends are available. */
  ghost function WithoutStrays(s: Store, b: MoneyBlock, garbage: seq<SRow>, after: Store): Store {
    after.(updates := PutRows(s.updates, Only(OfType(Rows(s, b) + Naming(garbage, false), T), Update)))
  }

  lemma GarbageOfOutputs(
      s: Store, hashed: map<string, set<SourceKey>>, b: MoneyBlock,
      dividends: seq<SRow>, garbage: seq<SRow>, after: Store)
    requires AppliedAnyway(s, hashed, b, dividends, garbage, after)
    ensures var outputs := Naming(garbage, false);
            SomeGarbage(s, Rows(s, b) + dividends, b, outputs) && PlainGarbage(outputs)
  {
    var outputs := Naming(garbage, false);
    GarbageIsLeft(s, hashed, b, dividends, garbage);
    NamingIsDistinct(garbage, false);
    forall i | 0 <= i < |outputs| ensures IsGarbageRow(s, Rows(s, b) + dividends, b, outputs[i]) {
      var j :| 0 <= j < |garbage| && garbage[j] == outputs[i];
      assert IsGarbageRow(s, Rows(s, b) + dividends, b, garbage[j]);
    }
  }

  ghost predicate TransactionUpdates(rows: seq<SRow>) {
    forall i | 0 <= i < |rows| :: rows[i].op == Update && rows[i].srcType == T
  }

  /** How garbage rows enter the rows that are flushed. */
  lemma GarbageIsFlushed(s: Store, b: MoneyBlock, garbage: seq<SRow>)
    requires TransactionUpdates(garbage)
    ensures var rows := Rows(s, b);
            && Only(OfType(rows + garbage, T), Create) == Only(OfType(rows, T), Create)
            && Only(OfType(rows + garbage, T), Update) == Only(OfType(rows, T), Update) + garbage
            && OfType(rows + garbage, D) == OfType(rows, D)
  {
    var rows := Rows(s, b);
    AllOfType(garbage, T);
    NoneOfType(garbage, D);
    OfTypeOfParts(rows, garbage, T);
    OfTypeOfParts(rows, garbage, D);
    OnlyUpdates(garbage);
    OnlyOfParts(OfType(rows, T), garbage, Create);
    OnlyOfParts(OfType(rows, T), garbage, Update);
  }

  lemma FlushedWithoutStrays(
      s: Store, hashed: map<string, set<SourceKey>>, b: MoneyBlock,
      dividends: seq<SRow>, garbage: seq<SRow>, after: Store)
    requires AppliedAnyway(s, hashed, b, dividends, garbage, after)
    ensures Flushing(s, hashed, b, dividends, Naming(garbage, false), WithoutStrays(s, b, garbage, after))
  {
    GarbageOfOutputs(s, hashed, b, dividends, garbage, after);
    GarbageIsLeft(s, hashed, b, dividends, garbage);
    GarbageIsFlushed(s, b, garbage);
    GarbageIsFlushed(s, b, Naming(garbage, false));
  }

  lemma OutputKeysAgree(garbage: seq<SRow>)
    ensures forall k: SourceKey | k.Output? :: k in Keys(garbage) <==> k in Keys(Naming(garbage, false))
  {
    forall k: SourceKey | k.Output? ensures k in Keys(garbage) <==> k in Keys(Naming(garbage, false)) {
      if k in Keys(garbage) {
        var r := MemberOfKey(garbage, k);
        NamingMembers(garbage, false, r);
        KeyOfMember(Naming(garbage, false), r);
      }
      if k in Keys(Naming(garbage, false)) {
        var r := MemberOfKey(Naming(garbage, false), k);
        KeyOfMember(garbage, r);
      }
    }
  }

  lemma UpdatesDifferInDividends(
      s: Store, b: MoneyBlock, dividends: seq<SRow>, garbage: seq<SRow>, after: Store)
    requires Flushed(s, b, dividends, garbage, after) && TransactionUpdates(garbage)
    ensures forall k: SourceKey | k.Output? ::
              k in after.updates <==> k in WithoutStrays(s, b, garbage, after).updates
  {
    var outputs, us := Naming(garbage, false), Only(OfType(Rows(s, b), T), Update);
    GarbageIsFlushed(s, b, garbage);
    GarbageIsFlushed(s, b, outputs);
    PutRowsKeys(s.updates, us + garbage);
    PutRowsKeys(s.updates, us + outputs);
    KeysOfParts(us, garbage);
    KeysOfParts(us, outputs);
    OutputKeysAgree(garbage);
  }

  lemma CreationsAreOutputs(
      s: Store, hashed: map<string, set<SourceKey>>, b: MoneyBlock,
      dividends: seq<SRow>, garbage: seq<SRow>, after: Store)
    requires AppliedAnyway(s, hashed, b, dividends, garbage, after)
    ensures forall k | k in after.creates :: k.Output?
  {
    FlushedWithoutStrays(s, hashed, b, dividends, garbage, after);
    CreatesEffect(s, hashed, b, dividends, Naming(garbage, false), WithoutStrays(s, b, garbage, after));
    KeysAreTyped(s, hashed, b, dividends);
    assert forall k | k in after.creates :: k in s.creates.Keys || k in Keys(Only(Rows(s, b), Create));
  }

  lemma OutputsDecide(x: Store, y: Store)
    requires x.creates == y.creates && x.uds == y.uds
    requires forall k | k in x.creates :: k.Output?
    requires forall k: SourceKey | k.Output? :: k in x.updates <==> k in y.updates
    ensures Available(x) == Available(y)
  {
    assert x.creates.Keys - x.updates.Keys == y.creates.Keys - y.updates.Keys;
  }

  lemma StraysAreNotAvailable(
      s: Store, hashed: map<string, set<SourceKey>>, b: MoneyBlock,
      dividends: seq<SRow>, garbage: seq<SRow>, after: Store)
    requires AppliedAnyway(s, hashed, b, dividends, garbage, after)
    ensures Available(after) == Available(WithoutStrays(s, b, garbage, after))
  {
    CreationsAreOutputs(s, hashed, b, dividends, garbage, after);
    GarbageIsLeft(s, hashed, b, dividends, garbage);
    UpdatesDifferInDividends(s, b, dividends, garbage, after);
    OutputsDecide(after, WithoutStrays(s, b, garbage, after));
  }

  /** What an account still owns beyond its wallet: the dividends that the garbage rule took. */
  lemma WalletGap(
      s: Store, hashed: map<string, set<SourceKey>>, b: MoneyBlock,
      dividends: seq<SRow>, garbage: seq<SRow>, after: Store, account: string)
    requires AppliedAnyway(s, hashed, b, dividends, garbage, after)
    ensures Sum(Available(after), Some(account)) ==
            Balance(after.wallets, account) + RowSum(Naming(garbage, true), Some(account))
  {
    var outputs := Naming(garbage, false);
    FlushedWithoutStrays(s, hashed, b, dividends, garbage, after);
    StraysAreNotAvailable(s, hashed, b, dividends, garbage, after);
    WorthAfterFlush(s, hashed, b, dividends, outputs, WithoutStrays(s, b, garbage, after), Some(account));
    GarbageIsLeft(s, hashed, b, dividends, garbage);
    FlushedRows(s, b, garbage);
    RowSumOfParts(Only(Rows(s, b), Update), garbage, Some(account));
    NamingWorth(garbage, Some(account));
    assert Balance(s.wallets, account) == Sum(Available(s), Some(account));
  }

  // ---- Which dividends the rule takes ----

  lemma TakenDividend(
      s: Store, hashed: map<string, set<SourceKey>>, b: MoneyBlock,
      dividends: seq<SRow>, garbage: seq<SRow>, after: Store, g: SRow)
    requires AppliedAnyway(s, hashed, b, dividends, garbage, after)
    requires g in garbage && g.key.Dividend?
    ensures b.dividend.Some? && g.amount == b.dividend.value
    ensures g.key.pub in b.producers && g.conditions == Sig(g.key.pub)
    ensures Poor(s, Rows(s, b) + dividends, b.unitBase, Sig(g.key.pub))
  {
    var entries := Rows(s, b) + dividends;
    var i :| 0 <= i < |garbage| && garbage[i] == g;
    assert IsGarbageRow(s, entries, b, garbage[i]);
    var r :| Garbaged(s, entries, b.unitBase, r) && g == GarbageRow(r, b.number);
    FreshDividendRow(s, hashed, b, dividends, r);
    KeyOfMember(dividends, r);
    assert r.key in Produced(b);
  }

  /** A block cannot spend the dividend it produces. */
  lemma FreshDividendIsNotSpent(
      s: Store, hashed: map<string, set<SourceKey>>, b: MoneyBlock, dividends: seq<SRow>, k: SourceKey)
    requires Sound(s, b.number, hashed) && FitTxs(s, hashed, b) && IsDividend(b, dividends)
    requires k in Keys(dividends)
    ensures k !in Keys(Only(Rows(s, b), Update))
  {
    FreshRows(s, hashed, b, dividends);
    var d := MemberOfKey(dividends, k);
    if k in Keys(Only(Rows(s, b), Update)) {
      var r := MemberOfKey(Only(Rows(s, b), Update), k);
      var l := RowShape(s, b, r);
      var local := LocalRows(b.txs, b.number);
      LocalSourceMeans(local, l.key);
      if LocalSource(local, l.key).Some? {
        LocalRowShape(b.txs, b.number, LocalSource(local, l.key).value);
      }
      GlobalSourceIsAvailable(s, hashed, b.number, local, l);
      assert false;
    }
  }

  lemma PoorProducerIsTaken(
      s: Store, hashed: map<string, set<SourceKey>>, b: MoneyBlock,
      dividends: seq<SRow>, garbage: seq<SRow>, after: Store, p: string)
    requires AppliedAnyway(s, hashed, b, dividends, garbage, after)
    requires b.dividend.Some? && p in b.producers && Poor(s, Rows(s, b) + dividends, b.unitBase, Sig(p))
    ensures RowSum(Naming(garbage, true), Some(Sig(p))) >= Value(b.dividend.value)
  {
    var entries, k := Rows(s, b) + dividends, Dividend(p, b.number);
    assert k in Produced(b);
    var r := MemberOfKey(dividends, k);
    var i :| 0 <= i < |dividends| && dividends[i] == r;
    assert IsDividendRow(b, dividends[i]);
    EntriesOf(s, b, dividends);
    FreshDividendIsNotSpent(s, hashed, b, dividends, k);
    assert r in entries;
    assert Garbaged(s, entries, b.unitBase, r);
    var g := MemberOfKey(garbage, k);
    TakenDividend(s, hashed, b, dividends, garbage, after, g);
    NamingMembers(garbage, true, g);
    WorthAtLeast(Naming(garbage, true), Some(Sig(p)), g);
  }

  /** Nobody is paid a dividend that the garbage rule takes. */
  ghost predicate DividendIsSafe(s: Store, b: MoneyBlock, dividends: seq<SRow>) {
    || b.dividend.None?
    || b.dividend.value.amount == 0
    || forall p | p in b.producers :: !Poor(s, Rows(s, b) + dividends, b.unitBase, Sig(p))
  }

  /** The wallets agree with the available sources after a block exactly when it pays no dividend,
      or one of nothing, or leaves every member it pays with the account minimum. */
  lemma WalletsAgreeIff(
      s: Store, hashed: map<string, set<SourceKey>>, b: MoneyBlock,
      dividends: seq<SRow>, garbage: seq<SRow>, after: Store)
    requires AppliedAnyway(s, hashed, b, dividends, garbage, after)
    ensures WalletsAgree(after) <==> DividendIsSafe(s, b, dividends)
  {
    if DividendIsSafe(s, b, dividends) {
      forall c ensures Balance(after.wallets, c) == Sum(Available(after), Some(c)) {
        WalletGap(s, hashed, b, dividends, garbage, after, c);
        NothingOfWorthTaken(s, hashed, b, dividends, garbage, after, c);
      }
    } else {
      var p :| p in b.producers && Poor(s, Rows(s, b) + dividends, b.unitBase, Sig(p));
      WalletGap(s, hashed, b, dividends, garbage, after, Sig(p));
      PoorProducerIsTaken(s, hashed, b, dividends, garbage, after, p);
      PositiveValue(b.dividend.value);
      assert Balance(after.wallets, Sig(p)) != Sum(Available(after), Some(Sig(p)));
    }
  }

  lemma NothingOfWorthTaken(
      s: Store, hashed: map<string, set<SourceKey>>, b: MoneyBlock,
      dividends: seq<SRow>, garbage: seq<SRow>, after: Store, c: string)
    requires AppliedAnyway(s, hashed, b, dividends, garbage, after)
    requires DividendIsSafe(s, b, dividends)
    ensures RowSum(Naming(garbage, true), Some(c)) == 0
  {
    var taken := Naming(garbage, true);
    forall i | 0 <= i < |taken| ensures Weight(SourceOf(taken[i]), Some(c)) == 0 {
      TakenDividend(s, hashed, b, dividends, garbage, after, taken[i]);
      assert b.dividend.value.amount == 0;
    }
    WorthNothing(taken, Some(c));
  }

  // ---- A dividend of 50 ----

  /** Block #1 pays A, who owns nothing, a dividend of 50. The garbage rule writes a consumption of
      it in the transaction index; A's wallet says 0 and the dividend is still available. */
  lemma SmallDividendBreaksWallets()
    ensures AppliedAnyway(NOTHING, map[], FIFTY, [GRANT], [TAKEN], AFTER)
    ensures !DividendIsSafe(NOTHING, FIFTY, [GRANT])
    ensures Balance(AFTER.wallets, Sig("A")) == 0 && Sum(Available(AFTER), Some(Sig("A"))) == 50
  {
    EmptyStoreIsSound();
    EmptyBlockIsAccepted();
    SmallDividendStep();
    FiftyIsStillThere();
    SmallDividendIsGarbage();
  }

  lemma FiftyIsStillThere()
    ensures Sum(Available(AFTER), Some(Sig("A"))) == 50
  {
    var none: map<SourceKey, Source> := map[];
    var ud := Source(GRANT.amount, Sig("A"));
    assert Available(AFTER) == none[GRANT.key := ud];
    SumWith(none, GRANT.key, ud, Some(Sig("A")));
    assert Value(GRANT.amount) == 50;
  }

  const NOTHING := Store(map[], map[], map[], map[], map[])
  const FIFTY := MoneyBlock(1, [], Some(BasedAmount(50, 0)), {"A"}, 0)
  const GRANT := DividendRow("A", BasedAmount(50, 0), 1)
  const TAKEN := GarbageRow(GRANT, 1)
  const AFTER := Store(map[], map[GRANT.key := TAKEN], map[GRANT.key := BasedAmount(50, 0)], map[], map[])

  lemma EmptyStoreIsSound()
    ensures Sound(NOTHING, 1, map[])
  {
    assert Available(NOTHING) == map[];
    assert forall c :: Sum(Available(NOTHING), Some(c)) == 0;
  }

  lemma EmptyBlockIsAccepted()
    ensures Rows(NOTHING, FIFTY) == [] && FitTxs(NOTHING, map[], FIFTY)
  {
    assert LocalRows([], 1) == [];
    assert Ids([]) == [] && MaxDepthOf([], []) == 0;
  }

  lemma OneRow(r: SRow)
    ensures Only([r], r.op) == [r] && OfType([r], r.srcType) == [r] && Keys([r]) == {r.key}
    ensures Only([r], if r.op == Create then Update else Create) == []
    ensures OfType([r], if r.srcType == T then D else T) == []
    ensures forall c :: RowSum([r], Some(c)) == if c == r.conditions then Value(r.amount) else 0
    ensures [r][..0] == [] && [] + [r] == [r]
  {
    assert [r][..0] == [];
    assert [r][0] == r;
  }

  lemma SmallDividendIsGarbage()
    ensures IsDividend(FIFTY, [GRANT]) && IsGarbage(NOTHING, [GRANT], FIFTY, [TAKEN])
    ensures Poor(NOTHING, [GRANT], 0, Sig("A"))
  {
    OneRow(GRANT);
    OneRow(TAKEN);
    assert IsDividendRow(FIFTY, GRANT);
    assert Value(GRANT.amount) == 50;
    assert Poor(NOTHING, [GRANT], 0, GRANT.conditions);
    assert Keys([]) == {};
    assert Garbaged(NOTHING, [GRANT], 0, GRANT) by { assert GRANT in [GRANT]; }
    assert IsGarbageRow(NOTHING, [GRANT], FIFTY, TAKEN);
  }

  lemma SmallDividendStep()
    ensures Step(NOTHING, FIFTY, [GRANT], [TAKEN], AFTER)
  {
    EmptyBlockIsAccepted();
    SmallDividendIsGarbage();
    OneRow(GRANT);
    OneRow(TAKEN);
    assert PutRows(map[], [TAKEN]) == map[TAKEN.key := TAKEN];
    assert WithUds(map[], [GRANT]) == map[GRANT.key := GRANT.amount];
    assert Keys([]) == {};
    SmallDividendWallets();
  }

  lemma SmallDividendWallets()
    ensures WalletsMoved(map[], [TAKEN], [GRANT], false, map[])
  {
    OneRow(GRANT);
    OneRow(TAKEN);
    var none: map<string, int> := map[];
    forall c
      ensures Balance(none, c) == Balance(none, c) + Signed(false, Variation([TAKEN], c) + RowSum([GRANT], Some(c)))
    {
      assert RowSum([], Some(c)) == 0;
    }
  }
}
