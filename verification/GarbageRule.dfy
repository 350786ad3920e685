/** What the garbage rule leaves to an account. */
module GarbageRule {
  import opened Amounts
  import opened Sources
  import opened SourceSums
  import opened Money
  import opened LocalSources
  import opened MoneySteps
  import opened MoneyConservation
  import opened MoneyDal
  import opened MoneyRuns

  /** Below `100 * 10^unitBase`, an account that the entries mention loses each transaction source of
      its own that the block does not consume: the rule consumes it as it is. */
  lemma PoorAccountIsEmptied(
      s: Store, entries: seq<SRow>, b: MoneyBlock, garbage: seq<SRow>, account: string, r: SRow)
    requires DistinctKeys(Only(entries, Create)) && Keys(Only(entries, Create)) !! s.creates.Keys
    requires IsGarbage(s, entries, b, garbage)
    requires exists e | e in entries :: e.conditions == account
    requires (if account in s.wallets then s.wallets[account] else 0) + Variation(entries, account)
             < 100 * Pow10(b.unitBase)
    requires || (r in entries && r.op == Create)
             || (r.key in s.creates && r.key !in s.updates && r == s.creates[r.key])
    requires r.conditions == account && forall u | u in entries && u.op == Update :: u.key != r.key
    ensures SRow(Update, T, r.key, r.tx, r.amount, account, b.number) in garbage
  {
    if r.key in Keys(Only(entries, Update)) {
      var u := MemberOfKey(Only(entries, Update), r.key);
      OnlyMembers(entries, Update, u);
    }
    assert Garbaged(s, entries, b.unitBase, r);
    var i :| 0 <= i < |garbage| && garbage[i].key == r.key;
    assert IsGarbageRow(s, entries, b, garbage[i]);
    var x :| Garbaged(s, entries, b.unitBase, x) && garbage[i] == GarbageRow(x, b.number);
    OneCandidate(s, entries, x, r);
  }

  /** From `100 * 10^unitBase` on, and without an entry, nothing is taken from an account; and no
      source is taken that the block consumes. */
  lemma GarbageIsOfPoorAccounts(s: Store, entries: seq<SRow>, b: MoneyBlock, garbage: seq<SRow>, g: SRow)
    requires IsGarbage(s, entries, b, garbage) && g in garbage
    ensures exists e | e in entries :: e.conditions == g.conditions
    ensures (if g.conditions in s.wallets then s.wallets[g.conditions] else 0) + Variation(entries, g.conditions)
            < 100 * Pow10(b.unitBase)
    ensures forall u | u in entries && u.op == Update :: u.key != g.key
    ensures exists r: SRow ::
              && g == SRow(Update, T, r.key, r.tx, r.amount, r.conditions, b.number)
              && (|| (r in entries && r.op == Create)
                  || (r.key in s.creates && r.key !in s.updates && r == s.creates[r.key]))
  {
    var i :| 0 <= i < |garbage| && garbage[i] == g;
    assert IsGarbageRow(s, entries, b, garbage[i]);
    var r :| Garbaged(s, entries, b.unitBase, r) && g == GarbageRow(r, b.number);
    forall u | u in entries && u.op == Update ensures u.key != g.key {
      EitherKind(entries, u);
    }
  }

  ghost predicate IsGarbagedAccount(s: Store, entries: seq<SRow>, unitBase: nat, account: string) {
    (exists e | e in entries :: e.conditions == account) && Poor(s, entries, unitBase, account)
  }

  /** A garbaged account keeps exactly its earlier dividends that the block does not spend. */
  lemma GarbagedAccountKeepsOldDividends(
      s: Store, hashed: map<string, set<SourceKey>>, b: MoneyBlock,
      dividends: seq<SRow>, garbage: seq<SRow>, after: Store, account: string, k: SourceKey)
    requires Applied(s, hashed, b, dividends, garbage, after)
    requires IsGarbage(s, Rows(s, b) + dividends, b, garbage)
    requires IsGarbagedAccount(s, Rows(s, b) + dividends, b.unitBase, account)
    ensures (k in Available(after) && Available(after)[k].conditions == account) <==>
            (k in s.uds && k !in Keys(Only(Rows(s, b), Update)) && Owner(k) == account)
  {
    AvailableAfter(s, hashed, b, dividends, garbage, after);
    PoolContents(s, hashed, b, dividends);
    KeysAreTyped(s, hashed, b, dividends);
    GarbageIsLeft(s, hashed, b, dividends, garbage);
    GarbageNamesOutputs(s, hashed, b, dividends, garbage);
    if k in Available(after) && Available(after)[k].conditions == account && k !in s.uds {
      var r := LeftIsCandidate(s, hashed, b, dividends, k);
      EntriesOf(s, b, dividends);
      assert Garbaged(s, Rows(s, b) + dividends, b.unitBase, r);
      assert false;
    }
    if k in s.uds && k !in Keys(Only(Rows(s, b), Update)) {
      if k in Keys(garbage) {
        var g := MemberOfKey(garbage, k);
        assert false;
      }
    }
  }

  /** What is left of the pool and is not an earlier dividend is a candidate of the rule. */
  lemma LeftIsCandidate(
      s: Store, hashed: map<string, set<SourceKey>>, b: MoneyBlock, dividends: seq<SRow>, k: SourceKey)
    returns (r: SRow)
    requires Sound(s, b.number, hashed) && Fit(s, hashed, b) && IsDividend(b, dividends)
    requires k in Left(s, b, dividends) && k !in s.uds
    ensures r.key == k && Candidate(s, Rows(s, b) + dividends, r)
    ensures r.conditions == Left(s, b, dividends)[k].conditions
  {
    PoolContents(s, hashed, b, dividends);
    var pool, cs := Pool(s, b, dividends), Only(Rows(s, b), Create);
    if k in Available(s) {
      r := s.creates[k];
      assert SoundCreation(s, b.number, hashed, k);
    } else if k in Keys(dividends) {
      r := MemberOfKey(dividends, k);
      var i :| 0 <= i < |dividends| && dividends[i] == r;
      assert HoldsRow(pool, dividends[i]) && IsDividendRow(b, r);
    } else {
      r := MemberOfKey(cs, k);
      var i :| 0 <= i < |cs| && cs[i] == r;
      assert HoldsRow(pool, cs[i]);
    }
  }
}
