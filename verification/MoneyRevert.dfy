/** Reverting the money side of a block. */
module MoneyRevert {
  import opened Amounts
  import opened Outcomes
  import opened Sources
  import opened SourceSums
  import opened Money
  import opened LocalSources
  import opened MoneySteps
  import opened MoneyConservation
  import opened MoneyEffect
  import opened MoneyRuns
  import opened DoubleSpend

  // ---- What `revertBlock` does, in its order ----

  function OfOwners(keys: set<SourceKey>, owners: set<string>): set<SourceKey> {
    set k | k in keys && k.Dividend? && k.pub in owners
  }

  function ProducedOn(uds: map<SourceKey, BasedAmount>, number: nat): set<SourceKey> {
    set k | k in uds && k.Dividend? && k.number == number
  }

  function SpentOn(spent: map<SourceKey, SpentUd>, number: nat): set<SourceKey> {
    set k | k in spent && spent[k].consumedOn == number
  }

  function WrittenOn(records: map<SourceKey, SRow>, number: nat): set<SourceKey> {
    set k | k in records && records[k].writtenOn == number
  }

  /** The rows of these dividends, in any order. */
  ghost predicate UdRows(keys: set<SourceKey>, amounts: map<SourceKey, BasedAmount>, rows: seq<SRow>) {
    && DistinctKeys(rows) && Keys(rows) == keys
    && forall i | 0 <= i < |rows| :: UdRow(amounts, rows[i])
  }

  ghost predicate UdRow(amounts: map<SourceKey, BasedAmount>, r: SRow) {
    r.op == Create && r.key in amounts && r.amount == amounts[r.key] && r.conditions == Owner(r.key)
  }

  ghost predicate RecordRows(records: map<SourceKey, SRow>, number: nat, rows: seq<SRow>) {
    && DistinctKeys(rows) && Keys(rows) == WrittenOn(records, number)
    && forall i | 0 <= i < |rows| :: Written(records, rows[i])
  }

  function SpentAmounts(spent: map<SourceKey, SpentUd>): map<SourceKey, BasedAmount> {
    map k | k in spent :: spent[k].amount
  }

  /** The rows and wallets that a revert goes through. */
  datatype Undo = Undo(destroyed: seq<SRow>, recovered: seq<SRow>, moves: seq<SRow>,
                       wallets1: map<string, int>, wallets2: map<string, int>)

  /** The dividend entries of the newcomers are deleted first; then the dividends produced by the
      block are destroyed, those it spent are recovered, its rows are removed, and the wallets are
      moved back for each of the three groups. */
  ghost predicate MoneyReverted(s: Store, number: nat, newcomers: set<string>, u: Undo, after: Store) {
    var uds := s.uds - OfOwners(s.uds.Keys, newcomers);
    var spent := s.spent - OfOwners(s.spent.Keys, newcomers);
    && UdRows(ProducedOn(uds, number), uds, u.destroyed)
    && UdRows(SpentOn(spent, number), SpentAmounts(spent), u.recovered)
    && RecordRows(s.creates, number, Only(u.moves, Create)) && RecordRows(s.updates, number, Only(u.moves, Update))
    && after.creates == s.creates - WrittenOn(s.creates, number)
    && after.updates == s.updates - WrittenOn(s.updates, number)
    && after.uds == WithUds(uds - ProducedOn(uds, number), u.recovered)
    && after.spent == spent - SpentOn(spent, number)
    && WalletsMoved(s.wallets, [], u.destroyed, true, u.wallets1)
    && WalletsMoved(u.wallets1, [], u.recovered, false, u.wallets2)
    && WalletsMoved(u.wallets2, u.moves, [], true, after.wallets)
  }

  /** Newcomers never had a dividend before the block. */
  ghost predicate AreNew(s: Store, newcomers: set<string>) {
    OfOwners(s.uds.Keys, newcomers) == {} && OfOwners(s.spent.Keys, newcomers) == {}
  }

  // ---- The sources are restored ----

  /** A block never spends its own dividends. */
  lemma SpendsOldDividends(
      s: Store, hashed: map<string, set<SourceKey>>, b: MoneyBlock,
      dividends: seq<SRow>, garbage: seq<SRow>, after: Store)
    requires Applied(s, hashed, b, dividends, garbage, after)
    ensures DividendKeys(Keys(Consumptions(s, b, garbage))) <= s.uds.Keys
  {
    var us := Consumptions(s, b, garbage);
    GarbageIsPlain(s, hashed, b, dividends, garbage, after);
    forall k | k in DividendKeys(Keys(us)) ensures k in s.uds {
      var r := MemberOfKey(us, k);
      ConsumptionShape(s, b, garbage, r);
      assert r in Only(Rows(s, b), Update);
      OnlyMembers(Rows(s, b), Update, r);
      var l := RowShape(s, b, r);
      LocalSourceMeans(LocalRows(b.txs, b.number), l.key);
      if LocalSource(LocalRows(b.txs, b.number), l.key).Some? {
        LocalRowShape(b.txs, b.number, LocalSource(LocalRows(b.txs, b.number), l.key).value);
        assert false;
      }
    }
  }

  lemma RecordsAreRestored(before: map<SourceKey, SRow>, after: map<SourceKey, SRow>, keys: set<SourceKey>, number: nat)
    requires after.Keys == before.Keys + keys && keys !! before.Keys
    requires forall k | k in before :: after[k] == before[k]
    requires forall k | k in after :: after[k].writtenOn == number <==> k in keys
    ensures WrittenOn(after, number) == keys && after - WrittenOn(after, number) == before
  {}

  lemma CreatesAreRestored(
      s: Store, hashed: map<string, set<SourceKey>>, b: MoneyBlock,
      dividends: seq<SRow>, garbage: seq<SRow>, after: Store)
    requires Applied(s, hashed, b, dividends, garbage, after)
    ensures WrittenOn(after.creates, b.number) == Keys(Only(Rows(s, b), Create))
    ensures after.creates - WrittenOn(after.creates, b.number) == s.creates
  {
    AppliedIsFlushing(s, hashed, b, dividends, garbage, after);
    CreatesEffect(s, hashed, b, dividends, garbage, after);
    NoReplay(s, hashed, b);
    RowsShape(s, b);
    forall k | k in after.creates
      ensures after.creates[k].writtenOn == b.number <==> k in Keys(Only(Rows(s, b), Create))
    {
      CreateDate(s, hashed, b, after, k);
    }
    RecordsAreRestored(s.creates, after.creates, Keys(Only(Rows(s, b), Create)), b.number);
  }

  lemma CreateDate(s: Store, hashed: map<string, set<SourceKey>>, b: MoneyBlock, after: Store, k: SourceKey)
    requires SoundSources(s, b.number, hashed) && Accepted(s, b) && CreatesAfter(s, b, after)
    requires Keys(Only(Rows(s, b), Create)) !! s.creates.Keys && k in after.creates
    ensures after.creates[k].writtenOn == b.number <==> k in Keys(Only(Rows(s, b), Create))
  {
    var cs := Only(Rows(s, b), Create);
    if k in s.creates {
      assert SoundCreation(s, b.number, hashed, k);
    } else {
      var i :| 0 <= i < |cs| && cs[i].key == k;
      assert Written(after.creates, cs[i]);
      var l := RowShape(s, b, cs[i]);
    }
  }

  lemma UpdatesAreRestored(
      s: Store, hashed: map<string, set<SourceKey>>, b: MoneyBlock,
      dividends: seq<SRow>, garbage: seq<SRow>, after: Store)
    requires Applied(s, hashed, b, dividends, garbage, after)
    ensures var us := Keys(Consumptions(s, b, garbage));
            WrittenOn(after.updates, b.number) == us - DividendKeys(us)
    ensures after.updates - WrittenOn(after.updates, b.number) == s.updates
  {
    AppliedIsFlushing(s, hashed, b, dividends, garbage, after);
    UpdatesEffect(s, hashed, b, dividends, garbage, after);
    ConsumedOnce(s, hashed, b, dividends, garbage, after);
    var us := Keys(Consumptions(s, b, garbage));
    forall k | k in after.updates ensures after.updates[k].writtenOn == b.number <==> k in us - DividendKeys(us) {
      UpdateDate(s, hashed, b, dividends, garbage, after, k);
    }
    RecordsAreRestored(s.updates, after.updates, us - DividendKeys(us), b.number);
  }

  lemma UpdateDate(
      s: Store, hashed: map<string, set<SourceKey>>, b: MoneyBlock,
      dividends: seq<SRow>, garbage: seq<SRow>, after: Store, k: SourceKey)
    requires Applied(s, hashed, b, dividends, garbage, after) && UpdatesAfter(s, b, garbage, after)
    requires ConsumedIn(s, b, garbage) !! EverConsumed(s) && k in after.updates
    ensures after.updates[k].writtenOn == b.number <==> k in Keys(Consumptions(s, b, garbage))
  {
    var us := Consumptions(s, b, garbage);
    if k in s.updates {
      assert SoundConsumption(s, b.number, k);
    } else {
      var i :| 0 <= i < |us| && us[i].key == k;
      assert Written(after.updates, us[i]);
      ConsumedAreCreated(s, hashed, b, dividends, garbage, after, us[i]);
    }
  }

  /** The dividend store after a block and after its revert, as maps: `gone` are the dividends that
      the block spent. */
  lemma UdsAreRestored(
      s: Store, b: MoneyBlock, dividends: seq<SRow>, garbage: seq<SRow>, after: Store, newcomers: set<string>)
    requires UdsAfter(s, b, dividends, garbage, after) && FreshDividends(s, b.number, dividends)
    requires DividendKeys(Keys(Consumptions(s, b, garbage))) <= s.uds.Keys && AreNew(s, newcomers)
    ensures var gone := DividendKeys(Keys(Consumptions(s, b, garbage)));
            var uds := after.uds - OfOwners(after.uds.Keys, newcomers);
            var spent := after.spent - OfOwners(after.spent.Keys, newcomers);
            && uds - ProducedOn(uds, b.number) == s.uds - gone
            && ProducedOn(uds, b.number) == Keys(dividends) - OfOwners(Keys(dividends), newcomers)
            && SpentOn(spent, b.number) == gone
            && spent - SpentOn(spent, b.number) == s.spent
            && (forall k | k in gone :: spent[k] == SpentUd(s.uds[k], b.number))
  {
    NewcomersAreApart(s, b, dividends, after, newcomers);
    var gone := DividendKeys(Keys(Consumptions(s, b, garbage)));
    AvailableUdsAreBack(s, dividends, gone, after.uds, newcomers, b.number);
    SpentUdsAreBack(s, gone, after.spent, newcomers, b.number);
  }

  lemma AvailableUdsAreBack(
      s: Store, dividends: seq<SRow>, gone: set<SourceKey>, after: map<SourceKey, BasedAmount>,
      newcomers: set<string>, number: nat)
    requires FreshDividends(s, number, dividends) && gone <= s.uds.Keys
    requires after.Keys == s.uds.Keys + Keys(dividends) - gone
    requires forall k | k in after :: k in s.uds && k !in Keys(dividends) ==> after[k] == s.uds[k]
    requires forall k | k in s.uds :: k !in OfOwners(after.Keys, newcomers)
    ensures var uds := after - OfOwners(after.Keys, newcomers);
            && uds - ProducedOn(uds, number) == s.uds - gone
            && ProducedOn(uds, number) == Keys(dividends) - OfOwners(Keys(dividends), newcomers)
  {}

  lemma SpentUdsAreBack(
      s: Store, gone: set<SourceKey>, after: map<SourceKey, SpentUd>, newcomers: set<string>, number: nat)
    requires (forall k | k in s.spent :: k !in s.uds && s.spent[k].consumedOn < number) && gone <= s.uds.Keys
    requires after.Keys == s.spent.Keys + gone
    requires forall k | k in s.spent && k !in gone :: after[k] == s.spent[k]
    requires forall k | k in gone :: after[k] == SpentUd(s.uds[k], number)
    requires forall k | k in s.uds || k in s.spent :: k !in OfOwners(after.Keys, newcomers)
    ensures var spent := after - OfOwners(after.Keys, newcomers);
            && SpentOn(spent, number) == gone && spent - SpentOn(spent, number) == s.spent
            && forall k | k in gone :: spent[k] == SpentUd(s.uds[k], number)
  {}

  lemma NewcomersAreApart(s: Store, b: MoneyBlock, dividends: seq<SRow>, after: Store, newcomers: set<string>)
    requires AreNew(s, newcomers)
    ensures forall k | k in s.uds ::
              k !in OfOwners(after.uds.Keys, newcomers) && k !in OfOwners(after.spent.Keys, newcomers)
    ensures forall k | k in s.spent :: k !in OfOwners(after.spent.Keys, newcomers)
  {
    forall k | k in s.uds
      ensures k !in OfOwners(after.uds.Keys, newcomers) && k !in OfOwners(after.spent.Keys, newcomers)
    {
      assert k !in OfOwners(s.uds.Keys, newcomers);
    }
    forall k | k in s.spent ensures k !in OfOwners(after.spent.Keys, newcomers) {
      assert k !in OfOwners(s.spent.Keys, newcomers);
    }
  }

  // ---- The wallets ----

  /** Rows that name the same sources with the same worth and conditions have the same sums. */
  lemma SameSources(xs: seq<SRow>, ys: seq<SRow>, account: Option<string>)
    requires DistinctKeys(xs) && DistinctKeys(ys) && Keys(xs) == Keys(ys)
    requires forall i, j | 0 <= i < |xs| && 0 <= j < |ys| && xs[i].key == ys[j].key ::
               SourceOf(xs[i]) == SourceOf(ys[j])
    ensures RowSum(xs, account) == RowSum(ys, account)
  {
    var none: map<SourceKey, Source> := map[];
    PutAllContents(none, xs);
    PutAllContents(none, ys);
    forall k | k in Keys(xs) ensures PutAll(none, xs)[k] == PutAll(none, ys)[k] {
      var i :| 0 <= i < |xs| && xs[i].key == k;
      var j :| 0 <= j < |ys| && ys[j].key == k;
      assert HoldsRow(PutAll(none, xs), xs[i]) && HoldsRow(PutAll(none, ys), ys[j]);
    }
    assert PutAll(none, xs) == PutAll(none, ys);
    SumOfPut(none, xs, account);
    SumOfPut(none, ys, account);
  }

  /** The rows of a given type, or with given owners, and the others. */
  lemma {:induction false} SplitByType(rows: seq<SRow>, account: Option<string>)
    ensures RowSum(rows, account) == RowSum(OfType(rows, T), account) + RowSum(OfType(rows, D), account)
  {
    if rows != [] {
      var front, last := rows[..|rows| - 1], rows[|rows| - 1];
      SplitByType(front, account);
      SumWithLast(OfType(front, last.srcType), last, account);
    }
  }

  lemma SumWithLast(rows: seq<SRow>, last: SRow, account: Option<string>)
    ensures RowSum(rows + [last], account) == RowSum(rows, account) + Weight(SourceOf(last), account)
  {
    assert (rows + [last])[..|rows|] == rows;
  }

  function OwnedBy(rows: seq<SRow>, owners: set<string>, yes: bool): seq<SRow> {
    if rows == [] then []
    else
      var front, r := OwnedBy(rows[..|rows| - 1], owners, yes), rows[|rows| - 1];
      if (r.key.Dividend? && r.key.pub in owners) == yes then front + [r] else front
  }

  lemma {:induction false} SplitByOwner(rows: seq<SRow>, owners: set<string>, account: Option<string>)
    ensures RowSum(rows, account) ==
            RowSum(OwnedBy(rows, owners, true), account) + RowSum(OwnedBy(rows, owners, false), account)
  {
    if rows != [] {
      var front, r := rows[..|rows| - 1], rows[|rows| - 1];
      SplitByOwner(front, owners, account);
      var yes := r.key.Dividend? && r.key.pub in owners;
      assert (OwnedBy(front, owners, yes) + [r])[..|OwnedBy(front, owners, yes)|] == OwnedBy(front, owners, yes);
    }
  }

  lemma {:induction false} OwnedByMembers(rows: seq<SRow>, owners: set<string>, yes: bool, r: SRow)
    ensures r in OwnedBy(rows, owners, yes) <==> r in rows && (r.key.Dividend? && r.key.pub in owners) == yes
  {
    if rows != [] {
      OwnedByMembers(rows[..|rows| - 1], owners, yes, r);
      assert rows == rows[..|rows| - 1] + [rows[|rows| - 1]];
    }
  }

  lemma {:induction false} OwnedByIsDistinct(rows: seq<SRow>, owners: set<string>, yes: bool)
    requires DistinctKeys(rows)
    ensures DistinctKeys(OwnedBy(rows, owners, yes))
  {
    if rows != [] {
      var front, r := rows[..|rows| - 1], rows[|rows| - 1];
      KeysWithLast(rows);
      OwnedByIsDistinct(front, owners, yes);
      var kept := OwnedBy(front, owners, yes);
      forall i | 0 <= i < |kept| ensures kept[i].key != r.key {
        OwnedByMembers(front, owners, yes, kept[i]);
        KeyOfMember(front, kept[i]);
      }
    }
  }

  /** The keys of dividends that are not the newcomers'. */
  lemma OthersKeys(dividends: seq<SRow>, newcomers: set<string>)
    ensures Keys(OwnedBy(dividends, newcomers, false)) == Keys(dividends) - OfOwners(Keys(dividends), newcomers)
  {
    var rows := OwnedBy(dividends, newcomers, false);
    forall k | k in Keys(rows) ensures k in Keys(dividends) - OfOwners(Keys(dividends), newcomers) {
      var r := MemberOfKey(rows, k);
      OwnedByMembers(dividends, newcomers, false, r);
      KeyOfMember(dividends, r);
    }
    forall k | k in Keys(dividends) - OfOwners(Keys(dividends), newcomers) ensures k in Keys(rows) {
      var r := MemberOfKey(dividends, k);
      OwnedByMembers(dividends, newcomers, false, r);
      KeyOfMember(rows, r);
    }
  }

  lemma DestroyedSum(
      s: Store, hashed: map<string, set<SourceKey>>, b: MoneyBlock, dividends: seq<SRow>, garbage: seq<SRow>,
      after: Store, newcomers: set<string>, destroyed: seq<SRow>, account: Option<string>)
    requires Applied(s, hashed, b, dividends, garbage, after) && AreNew(s, newcomers)
    requires var uds := after.uds - OfOwners(after.uds.Keys, newcomers);
             UdRows(ProducedOn(uds, b.number), uds, destroyed)
    ensures RowSum(destroyed, account) == RowSum(OwnedBy(dividends, newcomers, false), account)
  {
    AppliedIsFlushing(s, hashed, b, dividends, garbage, after);
    UdsEffect(s, hashed, b, dividends, garbage, after);
    SpendsOldDividends(s, hashed, b, dividends, garbage, after);
    DividendsAreFresh(s, hashed, b, dividends);
    UdsAreRestored(s, b, dividends, garbage, after, newcomers);
    var others := OwnedBy(dividends, newcomers, false);
    OwnedByIsDistinct(dividends, newcomers, false);
    OthersKeys(dividends, newcomers);
    var uds := after.uds - OfOwners(after.uds.Keys, newcomers);
    forall i, j | 0 <= i < |destroyed| && 0 <= j < |others| && destroyed[i].key == others[j].key
      ensures SourceOf(destroyed[i]) == SourceOf(others[j])
    {
      assert UdRow(uds, destroyed[i]);
      OwnedByMembers(dividends, newcomers, false, others[j]);
      DividendIsGranted(b, dividends, after.uds, others[j]);
    }
    SameSources(destroyed, others, account);
  }

  lemma DividendIsGranted(b: MoneyBlock, dividends: seq<SRow>, uds: map<SourceKey, BasedAmount>, r: SRow)
    requires IsDividend(b, dividends) && r in dividends && r.key in uds
    requires forall i | 0 <= i < |dividends| :: dividends[i].key in uds ==> Granted(uds, dividends[i])
    ensures uds[r.key] == r.amount && r.conditions == Owner(r.key)
  {
    var i :| 0 <= i < |dividends| && dividends[i] == r;
    assert Granted(uds, dividends[i]) && IsDividendRow(b, dividends[i]);
  }

  lemma RecoveredSum(
      s: Store, hashed: map<string, set<SourceKey>>, b: MoneyBlock, dividends: seq<SRow>, garbage: seq<SRow>,
      after: Store, newcomers: set<string>, recovered: seq<SRow>, account: Option<string>)
    requires Applied(s, hashed, b, dividends, garbage, after) && AreNew(s, newcomers)
    requires var spent := after.spent - OfOwners(after.spent.Keys, newcomers);
             UdRows(SpentOn(spent, b.number), SpentAmounts(spent), recovered)
    ensures RowSum(recovered, account) == RowSum(OfType(Consumptions(s, b, garbage), D), account)
  {
    AppliedIsFlushing(s, hashed, b, dividends, garbage, after);
    UdsEffect(s, hashed, b, dividends, garbage, after);
    SpendsOldDividends(s, hashed, b, dividends, garbage, after);
    DividendsAreFresh(s, hashed, b, dividends);
    UdsAreRestored(s, b, dividends, garbage, after, newcomers);
    var us := Consumptions(s, b, garbage);
    var ds := OfType(us, D);
    ConsumptionsAreDistinct(s, hashed, b, dividends, garbage);
    DistinctOfType(us, D);
    SpentKeys(s, hashed, b, dividends, garbage, after);
    var spent := after.spent - OfOwners(after.spent.Keys, newcomers);
    forall i, j | 0 <= i < |recovered| && 0 <= j < |ds| && recovered[i].key == ds[j].key
      ensures SourceOf(recovered[i]) == SourceOf(ds[j])
    {
      assert UdRow(SpentAmounts(spent), recovered[i]);
      OfTypeMembers(us, D, ds[j]);
      SpentDividendRow(s, hashed, b, dividends, garbage, after, ds[j]);
    }
    SameSources(recovered, ds, account);
  }

  lemma SpentKeys(
      s: Store, hashed: map<string, set<SourceKey>>, b: MoneyBlock, dividends: seq<SRow>, garbage: seq<SRow>,
      after: Store)
    requires Applied(s, hashed, b, dividends, garbage, after)
    ensures Keys(OfType(Consumptions(s, b, garbage), D)) == DividendKeys(Keys(Consumptions(s, b, garbage)))
  {
    var us := Consumptions(s, b, garbage);
    GarbageIsPlain(s, hashed, b, dividends, garbage, after);
    forall k ensures k in Keys(OfType(us, D)) <==> k in DividendKeys(Keys(us)) {
      if k in Keys(OfType(us, D)) {
        var r := MemberOfKey(OfType(us, D), k);
        OfTypeMembers(us, D, r);
        ConsumptionShape(s, b, garbage, r);
        KeyOfMember(us, r);
      }
      if k in DividendKeys(Keys(us)) {
        var r := MemberOfKey(us, k);
        ConsumptionShape(s, b, garbage, r);
        OfTypeMembers(us, D, r);
        KeyOfMember(OfType(us, D), r);
      }
    }
  }

  /** A spent dividend is stated with the amount it had. */
  lemma SpentDividendRow(
      s: Store, hashed: map<string, set<SourceKey>>, b: MoneyBlock,
      dividends: seq<SRow>, garbage: seq<SRow>, after: Store, r: SRow)
    requires Applied(s, hashed, b, dividends, garbage, after)
    requires r in Consumptions(s, b, garbage) && r.srcType == D
    ensures r.key in s.uds && s.uds[r.key] == r.amount && r.conditions == Owner(r.key)
  {
    GarbageIsPlain(s, hashed, b, dividends, garbage, after);
    ConsumptionShape(s, b, garbage, r);
    SpendsOldDividends(s, hashed, b, dividends, garbage, after);
    KeyOfMember(Consumptions(s, b, garbage), r);
    ConsumedAreCreated(s, hashed, b, dividends, garbage, after, r);
    PoolContents(s, hashed, b, dividends);
    assert r.key in Available(s);
  }

  lemma MovesSums(
      s: Store, hashed: map<string, set<SourceKey>>, b: MoneyBlock, dividends: seq<SRow>, garbage: seq<SRow>,
      after: Store, moves: seq<SRow>, account: Option<string>)
    requires Applied(s, hashed, b, dividends, garbage, after)
    requires RecordRows(after.creates, b.number, Only(moves, Create))
             && RecordRows(after.updates, b.number, Only(moves, Update))
    ensures RowSum(Only(moves, Create), account) == RowSum(Only(Rows(s, b), Create), account)
    ensures RowSum(Only(moves, Update), account) == RowSum(OfType(Consumptions(s, b, garbage), T), account)
  {
    CreatesMoved(s, hashed, b, dividends, garbage, after, Only(moves, Create), account);
    UpdatesMoved(s, hashed, b, dividends, garbage, after, Only(moves, Update), account);
  }

  lemma CreatesMoved(
      s: Store, hashed: map<string, set<SourceKey>>, b: MoneyBlock, dividends: seq<SRow>, garbage: seq<SRow>,
      after: Store, rows: seq<SRow>, account: Option<string>)
    requires Applied(s, hashed, b, dividends, garbage, after) && RecordRows(after.creates, b.number, rows)
    ensures RowSum(rows, account) == RowSum(Only(Rows(s, b), Create), account)
  {
    AppliedIsFlushing(s, hashed, b, dividends, garbage, after);
    CreatesEffect(s, hashed, b, dividends, garbage, after);
    CreatesAreRestored(s, hashed, b, dividends, garbage, after);
    RowsShape(s, b);
    var cs := Only(Rows(s, b), Create);
    forall i, j | 0 <= i < |rows| && 0 <= j < |cs| && rows[i].key == cs[j].key
      ensures SourceOf(rows[i]) == SourceOf(cs[j])
    {
      assert Written(after.creates, rows[i]) && Written(after.creates, cs[j]);
    }
    SameSources(rows, cs, account);
  }

  lemma UpdatesMoved(
      s: Store, hashed: map<string, set<SourceKey>>, b: MoneyBlock, dividends: seq<SRow>, garbage: seq<SRow>,
      after: Store, rows: seq<SRow>, account: Option<string>)
    requires Applied(s, hashed, b, dividends, garbage, after) && RecordRows(after.updates, b.number, rows)
    ensures RowSum(rows, account) == RowSum(OfType(Consumptions(s, b, garbage), T), account)
  {
    AppliedIsFlushing(s, hashed, b, dividends, garbage, after);
    UpdatesEffect(s, hashed, b, dividends, garbage, after);
    UpdatesAreRestored(s, hashed, b, dividends, garbage, after);
    GarbageIsPlain(s, hashed, b, dividends, garbage, after);
    SpentOutputs(s, b, garbage);
    ConsumptionsAreDistinct(s, hashed, b, dividends, garbage);
    DistinctOfType(Consumptions(s, b, garbage), T);
    var ts := OfType(Consumptions(s, b, garbage), T);
    forall i, j | 0 <= i < |rows| && 0 <= j < |ts| && rows[i].key == ts[j].key
      ensures SourceOf(rows[i]) == SourceOf(ts[j])
    {
      assert Written(after.updates, rows[i]);
      UpdateIsWritten(s, b, garbage, after, ts[j]);
    }
    SameSources(rows, ts, account);
  }

  lemma UpdateIsWritten(s: Store, b: MoneyBlock, garbage: seq<SRow>, after: Store, r: SRow)
    requires Accepted(s, b) && PlainGarbage(garbage) && UpdatesAfter(s, b, garbage, after)
    requires r in OfType(Consumptions(s, b, garbage), T)
    ensures Written(after.updates, r)
  {
    var us := Consumptions(s, b, garbage);
    OfTypeMembers(us, T, r);
    ConsumptionShape(s, b, garbage, r);
    var m :| 0 <= m < |us| && us[m] == r;
    assert Written(after.updates, us[m]);
  }

  // ---- The round trip ----

  /** Reverting restores the sources and the dividends. Of the wallets it restores all but those of
      the newcomers who received a dividend in the block: their entry is deleted before the dividends
      of the block are looked up, so nothing takes it off their wallet. */
  lemma RevertUndoesMoney(
      s: Store, hashed: map<string, set<SourceKey>>, b: MoneyBlock, dividends: seq<SRow>, garbage: seq<SRow>,
      after: Store, newcomers: set<string>, u: Undo, back: Store)
    requires Applied(s, hashed, b, dividends, garbage, after) && AreNew(s, newcomers)
    requires MoneyReverted(after, b.number, newcomers, u, back)
    ensures back.creates == s.creates && back.updates == s.updates && back.uds == s.uds && back.spent == s.spent
    ensures forall c {:trigger Balance(back.wallets, c)} ::
              Balance(back.wallets, c) == Balance(s.wallets, c) + RowSum(OwnedBy(dividends, newcomers, true), Some(c))
  {
    CreatesAreRestored(s, hashed, b, dividends, garbage, after);
    UpdatesAreRestored(s, hashed, b, dividends, garbage, after);
    UdsAreBack(s, hashed, b, dividends, garbage, after, newcomers, u.recovered);
    forall c
      ensures Balance(back.wallets, c) == Balance(s.wallets, c) + RowSum(OwnedBy(dividends, newcomers, true), Some(c))
    {
      WalletIsBack(s, hashed, b, dividends, garbage, after, newcomers, u, back, c);
    }
  }

  lemma UdsAreBack(
      s: Store, hashed: map<string, set<SourceKey>>, b: MoneyBlock, dividends: seq<SRow>, garbage: seq<SRow>,
      after: Store, newcomers: set<string>, recovered: seq<SRow>)
    requires Applied(s, hashed, b, dividends, garbage, after) && AreNew(s, newcomers)
    requires var spent := after.spent - OfOwners(after.spent.Keys, newcomers);
             UdRows(SpentOn(spent, b.number), SpentAmounts(spent), recovered)
    ensures var uds := after.uds - OfOwners(after.uds.Keys, newcomers);
            var spent := after.spent - OfOwners(after.spent.Keys, newcomers);
            && WithUds(uds - ProducedOn(uds, b.number), recovered) == s.uds
            && spent - SpentOn(spent, b.number) == s.spent
  {
    AppliedIsFlushing(s, hashed, b, dividends, garbage, after);
    UdsEffect(s, hashed, b, dividends, garbage, after);
    SpendsOldDividends(s, hashed, b, dividends, garbage, after);
    DividendsAreFresh(s, hashed, b, dividends);
    UdsAreRestored(s, b, dividends, garbage, after, newcomers);
    var gone := DividendKeys(Keys(Consumptions(s, b, garbage)));
    var spent := after.spent - OfOwners(after.spent.Keys, newcomers);
    forall i | 0 <= i < |recovered|
      ensures recovered[i].key in s.uds && recovered[i].amount == s.uds[recovered[i].key]
    {
      assert UdRow(SpentAmounts(spent), recovered[i]);
      KeyOfMember(recovered, recovered[i]);
    }
    PutBack(s.uds, gone, recovered);
  }

  lemma PutBack(uds: map<SourceKey, BasedAmount>, gone: set<SourceKey>, recovered: seq<SRow>)
    requires DistinctKeys(recovered) && Keys(recovered) == gone && gone <= uds.Keys
    requires forall i | 0 <= i < |recovered| :: recovered[i].key in uds && recovered[i].amount == uds[recovered[i].key]
    ensures WithUds(uds - gone, recovered) == uds
  {
    WithUdsContents(uds - gone, recovered);
    forall k | k in gone ensures WithUds(uds - gone, recovered)[k] == uds[k] {
      var i :| 0 <= i < |recovered| && recovered[i].key == k;
      assert Granted(WithUds(uds - gone, recovered), recovered[i]);
    }
  }

  lemma WalletIsBack(
      s: Store, hashed: map<string, set<SourceKey>>, b: MoneyBlock, dividends: seq<SRow>, garbage: seq<SRow>,
      after: Store, newcomers: set<string>, u: Undo, back: Store, c: string)
    requires Applied(s, hashed, b, dividends, garbage, after) && AreNew(s, newcomers)
    requires MoneyReverted(after, b.number, newcomers, u, back)
    ensures Balance(back.wallets, c) == Balance(s.wallets, c) + RowSum(OwnedBy(dividends, newcomers, true), Some(c))
  {
    DestroyedSum(s, hashed, b, dividends, garbage, after, newcomers, u.destroyed, Some(c));
    RecoveredSum(s, hashed, b, dividends, garbage, after, newcomers, u.recovered, Some(c));
    MovesSums(s, hashed, b, dividends, garbage, after, u.moves, Some(c));
    GarbageIsPlain(s, hashed, b, dividends, garbage, after);
    FlushedRows(s, b, garbage);
    SplitByType(Consumptions(s, b, garbage), Some(c));
    SplitByOwner(dividends, newcomers, Some(c));
    WalletMoves(s.wallets, after.wallets, u, back.wallets, Rows(s, b) + garbage, dividends, c);
  }

  /** The four movements of a wallet, forth and back. */
  lemma WalletMoves(
      before: map<string, int>, saved: map<string, int>, u: Undo, back: map<string, int>,
      sindex: seq<SRow>, dividends: seq<SRow>, c: string)
    requires WalletsMoved(before, sindex, dividends, false, saved)
    requires WalletsMoved(saved, [], u.destroyed, true, u.wallets1)
    requires WalletsMoved(u.wallets1, [], u.recovered, false, u.wallets2)
    requires WalletsMoved(u.wallets2, u.moves, [], true, back)
    ensures Balance(back, c) ==
            Balance(before, c) + Variation(sindex, c) + RowSum(dividends, Some(c))
            - RowSum(u.destroyed, Some(c)) + RowSum(u.recovered, Some(c)) - Variation(u.moves, c)
  {
    MovedAt(before, sindex, dividends, false, saved, c);
    MovedAt(saved, [], u.destroyed, true, u.wallets1, c);
    MovedAt(u.wallets1, [], u.recovered, false, u.wallets2, c);
    MovedAt(u.wallets2, u.moves, [], true, back, c);
  }

  lemma MovedAt(
      before: map<string, int>, sindex: seq<SRow>, dividends: seq<SRow>, reverse: bool, after: map<string, int>,
      c: string)
    requires WalletsMoved(before, sindex, dividends, reverse, after)
    ensures Balance(after, c) == Balance(before, c) +
            Signed(reverse, (if sindex == [] then 0 else Variation(sindex, c))
                            + (if dividends == [] then 0 else RowSum(dividends, Some(c))))
  {}

  /** The wallets are restored exactly when the block did not give a dividend to a newcomer. */
  lemma WalletsAreRestoredIff(
      s: Store, hashed: map<string, set<SourceKey>>, b: MoneyBlock, dividends: seq<SRow>, garbage: seq<SRow>,
      after: Store, newcomers: set<string>, u: Undo, back: Store)
    requires Applied(s, hashed, b, dividends, garbage, after) && AreNew(s, newcomers)
    requires MoneyReverted(after, b.number, newcomers, u, back)
    ensures (forall c {:trigger Balance(back.wallets, c)} :: Balance(back.wallets, c) == Balance(s.wallets, c)) <==>
            (b.dividend.None? || b.producers !! newcomers)
  {
    RevertUndoesMoney(s, hashed, b, dividends, garbage, after, newcomers, u, back);
    var kept := OwnedBy(dividends, newcomers, true);
    if b.dividend.None? || b.producers !! newcomers {
      NoneOwned(b, dividends, newcomers);
      assert forall c :: RowSum(kept, Some(c)) == 0;
    } else {
      var p :| p in b.producers && p in newcomers;
      var r := DividendRow(p, b.dividend.value, b.number);
      DividendIsListed(b, dividends, p);
      OwnedByMembers(dividends, newcomers, true, r);
      MemberCounts(kept, r);
      AtLeastMinimum(r.amount);
      assert Balance(back.wallets, Sig(p)) > Balance(s.wallets, Sig(p));
    }
  }

  lemma NoneOwned(b: MoneyBlock, dividends: seq<SRow>, newcomers: set<string>)
    requires IsDividend(b, dividends) && (b.dividend.None? || b.producers !! newcomers)
    ensures OwnedBy(dividends, newcomers, true) == []
  {
    var kept := OwnedBy(dividends, newcomers, true);
    if kept != [] {
      var r := kept[0];
      OwnedByMembers(dividends, newcomers, true, r);
      KeyOfMember(dividends, r);
      assert false;
    }
  }

  lemma DividendIsListed(b: MoneyBlock, dividends: seq<SRow>, p: string)
    requires IsDividend(b, dividends) && b.dividend.Some? && p in b.producers
    ensures DividendRow(p, b.dividend.value, b.number) in dividends
  {
    assert Dividend(p, b.number) in Produced(b);
    var i :| 0 <= i < |dividends| && dividends[i].key == Dividend(p, b.number);
    assert IsDividendRow(b, dividends[i]);
  }

  lemma {:induction false} MemberCounts(rows: seq<SRow>, r: SRow)
    requires r in rows
    ensures RowSum(rows, Some(r.conditions)) >= Value(r.amount)
  {
    var n := |rows| - 1;
    if rows[n] != r {
      assert r in rows[..n];
      MemberCounts(rows[..n], r);
    }
  }
}
