/** Runs of the money side: sound stores in every reachable state, and no source is created or
    consumed twice. */
module DoubleSpend {
  import opened Outcomes
  import opened Sources
  import opened SourceSums
  import opened Money
  import opened LocalSources
  import opened MoneySteps
  import opened MoneyEffect
  import opened MoneyRuns

  ghost function CreatedIn(s: Store, b: MoneyBlock, dividends: seq<SRow>): set<SourceKey> {
    Keys(Only(Rows(s, b), Create)) + Keys(dividends)
  }

  ghost function ConsumedIn(s: Store, b: MoneyBlock, garbage: seq<SRow>): set<SourceKey> {
    Keys(Consumptions(s, b, garbage))
  }

  // ---- One block, as sets of names ----

  /** The names in the stores, and the fresh ones `cs` and `ds` of a block. */
  ghost predicate NamesFit(
      creates: set<SourceKey>, updates: set<SourceKey>, uds: set<SourceKey>, spent: set<SourceKey>,
      cs: set<SourceKey>, ds: set<SourceKey>)
  {
    && (forall k | k in creates :: k.Output?) && (forall k | k in cs :: k.Output?)
    && (forall k | k in uds :: k.Dividend?) && (forall k | k in ds :: k.Dividend?)
    && (forall k | k in spent :: k.Dividend?)
    && updates <= creates && cs !! creates && ds !! uds + spent && uds !! spent
  }

  lemma NamesMove(
      creates: set<SourceKey>, updates: set<SourceKey>, uds: set<SourceKey>, spent: set<SourceKey>,
      cs: set<SourceKey>, ds: set<SourceKey>, us: set<SourceKey>)
    requires NamesFit(creates, updates, uds, spent, cs, ds)
    requires us <= (creates - updates) + uds + ds + cs
    ensures us !! updates + spent && cs + ds !! creates + uds + spent
    ensures var gone := DividendKeys(us);
            var uds2, spent2 := uds + ds - gone, spent + gone * (uds + ds);
            && (creates + cs) + uds2 + spent2 == creates + uds + spent + (cs + ds)
            && (updates + (us - gone)) + spent2 == updates + spent + us
            && us <= (creates + cs) + uds2 + spent2
            && uds2 !! spent2
  {
    assert DividendKeys(us) <= uds + ds;
  }

  lemma StoreNames(
      s: Store, hashed: map<string, set<SourceKey>>, b: MoneyBlock,
      dividends: seq<SRow>, garbage: seq<SRow>, after: Store)
    requires Applied(s, hashed, b, dividends, garbage, after)
    ensures NamesFit(s.creates.Keys, s.updates.Keys, s.uds.Keys, s.spent.Keys,
                     Keys(Only(Rows(s, b), Create)), Keys(dividends))
    ensures ConsumedIn(s, b, garbage) <=
            (s.creates.Keys - s.updates.Keys) + s.uds.Keys + Keys(dividends) + Keys(Only(Rows(s, b), Create))
  {
    PoolContents(s, hashed, b, dividends);
    ConsumptionsAreDistinct(s, hashed, b, dividends, garbage);
    KeysAreTyped(s, hashed, b, dividends);
    forall k | k in Keys(dividends) ensures k !in s.uds && k !in s.spent {
      var r := MemberOfKey(dividends, k);
      var i :| 0 <= i < |dividends| && dividends[i] == r;
      assert IsDividendRow(b, dividends[i]);
    }
  }

  lemma NamesAfter(
      s: Store, hashed: map<string, set<SourceKey>>, b: MoneyBlock,
      dividends: seq<SRow>, garbage: seq<SRow>, after: Store)
    requires Applied(s, hashed, b, dividends, garbage, after)
    ensures var gone := DividendKeys(ConsumedIn(s, b, garbage));
            && after.creates.Keys == s.creates.Keys + Keys(Only(Rows(s, b), Create))
            && after.updates.Keys == s.updates.Keys + (ConsumedIn(s, b, garbage) - gone)
            && after.uds.Keys == s.uds.Keys + Keys(dividends) - gone
            && after.spent.Keys == s.spent.Keys + gone * (s.uds.Keys + Keys(dividends))
  {
    AppliedIsFlushing(s, hashed, b, dividends, garbage, after);
    StepHasEffect(s, hashed, b, dividends, garbage, after);
  }

  lemma Moved(
      s: Store, hashed: map<string, set<SourceKey>>, b: MoneyBlock,
      dividends: seq<SRow>, garbage: seq<SRow>, after: Store)
    requires Applied(s, hashed, b, dividends, garbage, after)
    ensures CreatedIn(s, b, dividends) !! EverCreated(s)
    ensures EverCreated(after) == EverCreated(s) + CreatedIn(s, b, dividends)
    ensures ConsumedIn(s, b, garbage) !! EverConsumed(s)
    ensures EverConsumed(after) == EverConsumed(s) + ConsumedIn(s, b, garbage)
    ensures ConsumedIn(s, b, garbage) <= EverCreated(after)
    ensures after.uds.Keys !! after.spent.Keys
  {
    StoreNames(s, hashed, b, dividends, garbage, after);
    NamesAfter(s, hashed, b, dividends, garbage, after);
    NamesMove(s.creates.Keys, s.updates.Keys, s.uds.Keys, s.spent.Keys,
              Keys(Only(Rows(s, b), Create)), Keys(dividends), ConsumedIn(s, b, garbage));
  }

  /** A block creates only sources that never existed, each by one row. */
  lemma CreatedOnce(
      s: Store, hashed: map<string, set<SourceKey>>, b: MoneyBlock,
      dividends: seq<SRow>, garbage: seq<SRow>, after: Store)
    requires Applied(s, hashed, b, dividends, garbage, after)
    ensures DistinctKeys(Only(Rows(s, b), Create)) && DistinctKeys(dividends)
    ensures CreatedIn(s, b, dividends) !! EverCreated(s)
    ensures EverCreated(after) == EverCreated(s) + CreatedIn(s, b, dividends)
  {
    RowsShape(s, b);
    Moved(s, hashed, b, dividends, garbage, after);
  }

  /** A block consumes each source by one row, and only sources that were created and never consumed. */
  lemma ConsumedOnce(
      s: Store, hashed: map<string, set<SourceKey>>, b: MoneyBlock,
      dividends: seq<SRow>, garbage: seq<SRow>, after: Store)
    requires Applied(s, hashed, b, dividends, garbage, after)
    ensures DistinctKeys(Consumptions(s, b, garbage))
    ensures ConsumedIn(s, b, garbage) !! EverConsumed(s)
    ensures EverConsumed(after) == EverConsumed(s) + ConsumedIn(s, b, garbage)
    ensures ConsumedIn(s, b, garbage) <= EverCreated(after)
  {
    ConsumptionsAreDistinct(s, hashed, b, dividends, garbage);
    Moved(s, hashed, b, dividends, garbage, after);
  }

  // ---- The sources index stays sound ----

  lemma CreationsStaySound(
      s: Store, hashed: map<string, set<SourceKey>>, b: MoneyBlock,
      dividends: seq<SRow>, garbage: seq<SRow>, after: Store, k: SourceKey)
    requires Applied(s, hashed, b, dividends, garbage, after) && Effect(s, b, dividends, garbage, after)
    requires k in after.creates
    ensures SoundCreation(after, b.number + 1, hashed, k)
  {
    ConsumedOnce(s, hashed, b, dividends, garbage, after);
    if k in s.creates {
      assert SoundCreation(s, b.number, hashed, k);
    } else {
      NewCreationIsSound(s, hashed, b, dividends, garbage, after, k);
    }
  }

  lemma NewCreationIsSound(
      s: Store, hashed: map<string, set<SourceKey>>, b: MoneyBlock,
      dividends: seq<SRow>, garbage: seq<SRow>, after: Store, k: SourceKey)
    requires Applied(s, hashed, b, dividends, garbage, after)
    requires CreatesAfter(s, b, after) && k in Keys(Only(Rows(s, b), Create))
    requires EverConsumed(after) == EverConsumed(s) + ConsumedIn(s, b, garbage)
    ensures k in after.creates && SoundCreation(after, b.number + 1, hashed, k)
  {
    var cs := Only(Rows(s, b), Create);
    var i :| 0 <= i < |cs| && cs[i].key == k;
    assert Written(after.creates, cs[i]);
    var l := RowShape(s, b, cs[i]);
    RowsShape(s, b);
    ConsumptionsAreDistinct(s, hashed, b, dividends, garbage);
    CreationHash(s, b, hashed, cs[i]);
  }

  /** The hash of a created output determines inputs that the block consumes. */
  lemma CreationHash(s: Store, b: MoneyBlock, hashed: map<string, set<SourceKey>>, r: SRow)
    requires Accepted(s, b) && HashesIdentify(hashed, b.txs)
    requires r in LocalRows(b.txs, b.number) && r.op == Create
    ensures r.key.Output? && r.key.txHash in hashed
    ensures hashed[r.key.txHash] <= Keys(Only(LocalRows(b.txs, b.number), Update))
  {
    var local := LocalRows(b.txs, b.number);
    LocalRowShape(b.txs, b.number, r);
    var tx :| tx in b.txs && tx.hash == r.tx;
    forall k | k in InputKeys(tx) ensures k in Keys(Only(local, Update)) {
      var i :| 0 <= i < |tx.inputs| && tx.inputs[i].key == k;
      InputIsLocalRow(b.txs, b.number, tx, i);
      OnlyMembers(local, Update, InputRow(tx, i, b.number));
      KeyOfMember(Only(local, Update), InputRow(tx, i, b.number));
    }
  }

  lemma ConsumptionsStaySound(
      s: Store, hashed: map<string, set<SourceKey>>, b: MoneyBlock,
      dividends: seq<SRow>, garbage: seq<SRow>, after: Store, k: SourceKey)
    requires Applied(s, hashed, b, dividends, garbage, after) && Effect(s, b, dividends, garbage, after)
    requires k in after.updates
    ensures SoundConsumption(after, b.number + 1, k)
  {
    var us := Consumptions(s, b, garbage);
    if k in Keys(us) {
      SourcesAreTyped(s, hashed, b.number);
      ConsumedOnce(s, hashed, b, dividends, garbage, after);
      var r := MemberOfKey(us, k);
      var i :| 0 <= i < |us| && us[i] == r;
      ConsumedAreCreated(s, hashed, b, dividends, garbage, after, r);
      assert k.Output?;
      PooledOutput(s, hashed, b, dividends, garbage, after, k);
      assert Written(after.updates, us[i]);
      CreationsStaySound(s, hashed, b, dividends, garbage, after, k);
    } else {
      assert SoundConsumption(s, b.number, k);
    }
  }

  ghost predicate FreshDividends(s: Store, number: nat, dividends: seq<SRow>) {
    && (forall k | k in Keys(dividends) :: k.Dividend? && k.number == number && k !in s.uds && k !in s.spent)
    && (forall k | k in s.uds :: k.Dividend? && k.number < number && k !in s.spent)
    && (forall k | k in s.spent :: k.Dividend? && s.spent[k].consumedOn < number)
  }

  lemma DividendsAreFresh(
      s: Store, hashed: map<string, set<SourceKey>>, b: MoneyBlock, dividends: seq<SRow>)
    requires SoundSources(s, b.number, hashed) && IsDividend(b, dividends)
    ensures FreshDividends(s, b.number, dividends)
  {
    forall k | k in Keys(dividends) ensures k.Dividend? && k.number == b.number {
      var r := MemberOfKey(dividends, k);
      var i :| 0 <= i < |dividends| && dividends[i] == r;
      assert IsDividendRow(b, dividends[i]);
    }
  }

  lemma UdsStaySound(
      s: Store, hashed: map<string, set<SourceKey>>, b: MoneyBlock,
      dividends: seq<SRow>, garbage: seq<SRow>, after: Store)
    requires Applied(s, hashed, b, dividends, garbage, after) && Effect(s, b, dividends, garbage, after)
    ensures forall k | k in after.uds :: k.Dividend? && k.number < b.number + 1 && k !in after.spent
    ensures forall k | k in after.spent ::
              k.Dividend? && k.number < b.number + 1 && after.spent[k].consumedOn < b.number + 1
  {
    Moved(s, hashed, b, dividends, garbage, after);
    DividendsAreFresh(s, hashed, b, dividends);
    SpentDates(s, b, dividends, garbage, after);
  }

  lemma SpentDates(s: Store, b: MoneyBlock, dividends: seq<SRow>, garbage: seq<SRow>, after: Store)
    requires UdsAfter(s, b, dividends, garbage, after) && FreshDividends(s, b.number, dividends)
    requires forall k | k in s.spent :: k.number < b.number
    requires ConsumedIn(s, b, garbage) !! s.spent.Keys
    ensures forall k | k in after.uds :: k.Dividend? && k.number < b.number + 1
    ensures forall k | k in after.spent ::
              k.Dividend? && k.number < b.number + 1 && after.spent[k].consumedOn < b.number + 1
  {
    var gone := DividendKeys(Keys(Consumptions(s, b, garbage)));
    forall k | k in after.spent ensures after.spent[k].consumedOn < b.number + 1 {
      assert k in s.spent || k in gone;
    }
  }

  lemma StaysSound(
      s: Store, hashed: map<string, set<SourceKey>>, b: MoneyBlock,
      dividends: seq<SRow>, garbage: seq<SRow>, after: Store)
    requires Applied(s, hashed, b, dividends, garbage, after)
    ensures Sound(after, b.number + 1, hashed)
  {
    WalletsStillAgree(s, hashed, b, dividends, garbage, after);
    SourcesStaySound(s, hashed, b, dividends, garbage, after);
  }

  lemma SourcesStaySound(
      s: Store, hashed: map<string, set<SourceKey>>, b: MoneyBlock,
      dividends: seq<SRow>, garbage: seq<SRow>, after: Store)
    requires Applied(s, hashed, b, dividends, garbage, after)
    ensures SoundSources(after, b.number + 1, hashed)
  {
    AppliedIsFlushing(s, hashed, b, dividends, garbage, after);
    StepHasEffect(s, hashed, b, dividends, garbage, after);
    UdsStaySound(s, hashed, b, dividends, garbage, after);
    forall k | k in after.creates ensures SoundCreation(after, b.number + 1, hashed, k) {
      CreationsStaySound(s, hashed, b, dividends, garbage, after, k);
    }
    forall k | k in after.updates ensures SoundConsumption(after, b.number + 1, k) {
      ConsumptionsStaySound(s, hashed, b, dividends, garbage, after, k);
    }
  }

  // ---- Runs ----

  const EMPTY := Store(map[], map[], map[], map[], map[])

  datatype Trace = Trace(
    blocks: seq<MoneyBlock>, dividends: seq<seq<SRow>>, garbage: seq<seq<SRow>>, stores: seq<Store>)

  ghost predicate WellFormed(t: Trace) {
    |t.dividends| == |t.blocks| && |t.garbage| == |t.blocks| && |t.stores| == |t.blocks| + 1
  }

  ghost predicate RunStep(t: Trace, hashed: map<string, set<SourceKey>>, i: nat)
    requires WellFormed(t) && i < |t.blocks|
  {
    && t.blocks[i].number == i
    && Fit(t.stores[i], hashed, t.blocks[i])
    && Step(t.stores[i], t.blocks[i], t.dividends[i], t.garbage[i], t.stores[i + 1])
  }

  /** A run from the empty stores: `stores[i]` is the state before block `i`. */
  ghost predicate MoneyRun(t: Trace, hashed: map<string, set<SourceKey>>) {
    WellFormed(t) && t.stores[0] == EMPTY && forall i | 0 <= i < |t.blocks| :: RunStep(t, hashed, i)
  }

  lemma EmptyIsSound(hashed: map<string, set<SourceKey>>)
    ensures Sound(EMPTY, 0, hashed)
  {
    assert Available(EMPTY) == map[];
    assert forall c :: Sum(Available(EMPTY), Some(c)) == 0;
  }

  lemma RunStepIsSound(t: Trace, hashed: map<string, set<SourceKey>>, i: nat)
    requires WellFormed(t) && i < |t.blocks| && RunStep(t, hashed, i)
    requires Sound(t.stores[i], i, hashed)
    ensures Sound(t.stores[i + 1], i + 1, hashed)
  {
    StaysSound(t.stores[i], hashed, t.blocks[i], t.dividends[i], t.garbage[i], t.stores[i + 1]);
  }

  /** In every reachable state the stores are sound: in particular every wallet is what the
      available sources with its conditions are worth. */
  lemma {:induction false} RunIsSound(t: Trace, hashed: map<string, set<SourceKey>>, i: nat)
    requires MoneyRun(t, hashed) && i <= |t.blocks|
    ensures Sound(t.stores[i], i, hashed)
    ensures WalletsAgree(t.stores[i])
    decreases i
  {
    if i == 0 {
      EmptyIsSound(hashed);
    } else {
      var j := i - 1;
      RunIsSound(t, hashed, j);
      assert RunStep(t, hashed, j);
      RunStepIsSound(t, hashed, j);
    }
  }

  lemma AppliedAt(t: Trace, hashed: map<string, set<SourceKey>>, i: nat)
    requires MoneyRun(t, hashed) && i < |t.blocks|
    ensures t.blocks[i].number == i
    ensures Applied(t.stores[i], hashed, t.blocks[i], t.dividends[i], t.garbage[i], t.stores[i + 1])
  {
    RunIsSound(t, hashed, i);
    assert RunStep(t, hashed, i);
  }

  ghost function CreatedAt(t: Trace, i: nat): set<SourceKey>
    requires WellFormed(t) && i < |t.blocks|
  {
    CreatedIn(t.stores[i], t.blocks[i], t.dividends[i])
  }

  ghost function ConsumedAt(t: Trace, i: nat): set<SourceKey>
    requires WellFormed(t) && i < |t.blocks|
  {
    ConsumedIn(t.stores[i], t.blocks[i], t.garbage[i])
  }

  /** Sets that accumulate: each step adds only new elements. */
  ghost predicate Accumulates(ever: seq<set<SourceKey>>, added: seq<set<SourceKey>>) {
    && |ever| == |added| + 1 && ever[0] == {}
    && forall i | 0 <= i < |added| :: AddsAt(ever, added, i)
  }

  ghost predicate AddsAt(ever: seq<set<SourceKey>>, added: seq<set<SourceKey>>, i: nat)
    requires |ever| == |added| + 1 && i < |added|
  {
    ever[i + 1] == ever[i] + added[i] && added[i] !! ever[i]
  }

  lemma {:induction false} AddedApart(ever: seq<set<SourceKey>>, added: seq<set<SourceKey>>, i: nat, j: nat)
    requires Accumulates(ever, added) && i < j <= |added|
    ensures added[i] <= ever[j]
    ensures j < |added| ==> added[i] !! added[j]
  {
    assert AddsAt(ever, added, j - 1);
    if i < j - 1 {
      AddedApart(ever, added, i, j - 1);
    }
    assert j < |added| ==> AddsAt(ever, added, j);
  }

  lemma {:induction false} AddedSomewhere(ever: seq<set<SourceKey>>, added: seq<set<SourceKey>>, j: nat, k: SourceKey)
    returns (i: nat)
    requires Accumulates(ever, added) && j <= |added| && k in ever[j]
    ensures i < j && k in added[i]
  {
    if j == 0 {
      assert false;
    }
    assert AddsAt(ever, added, j - 1);
    i := j - 1;
    if k !in added[j - 1] {
      i := AddedSomewhere(ever, added, j - 1, k);
    }
  }

  ghost function CreatedHistory(t: Trace): seq<set<SourceKey>>
    requires WellFormed(t)
  {
    seq(|t.blocks|, i requires 0 <= i < |t.blocks| => CreatedAt(t, i))
  }

  ghost function ConsumedHistory(t: Trace): seq<set<SourceKey>>
    requires WellFormed(t)
  {
    seq(|t.blocks|, i requires 0 <= i < |t.blocks| => ConsumedAt(t, i))
  }

  ghost function EverCreatedHistory(t: Trace): seq<set<SourceKey>> {
    seq(|t.stores|, i requires 0 <= i < |t.stores| => EverCreated(t.stores[i]))
  }

  ghost function EverConsumedHistory(t: Trace): seq<set<SourceKey>> {
    seq(|t.stores|, i requires 0 <= i < |t.stores| => EverConsumed(t.stores[i]))
  }

  lemma Recorded(t: Trace, hashed: map<string, set<SourceKey>>, i: nat)
    requires MoneyRun(t, hashed) && i < |t.blocks|
    ensures EverCreated(t.stores[i + 1]) == EverCreated(t.stores[i]) + CreatedAt(t, i)
    ensures EverConsumed(t.stores[i + 1]) == EverConsumed(t.stores[i]) + ConsumedAt(t, i)
    ensures CreatedAt(t, i) !! EverCreated(t.stores[i]) && ConsumedAt(t, i) !! EverConsumed(t.stores[i])
    ensures ConsumedAt(t, i) <= EverCreated(t.stores[i + 1])
  {
    AppliedAt(t, hashed, i);
    Moved(t.stores[i], hashed, t.blocks[i], t.dividends[i], t.garbage[i], t.stores[i + 1]);
  }

  lemma NothingAtFirst(t: Trace, hashed: map<string, set<SourceKey>>)
    requires MoneyRun(t, hashed)
    ensures EverCreated(t.stores[0]) == {} && EverConsumed(t.stores[0]) == {}
  {}

  lemma Histories(t: Trace, hashed: map<string, set<SourceKey>>)
    returns (created: seq<set<SourceKey>>, consumed: seq<set<SourceKey>>)
    requires MoneyRun(t, hashed)
    ensures |created| == |t.stores| && Accumulates(created, CreatedHistory(t))
    ensures |consumed| == |t.stores| && Accumulates(consumed, ConsumedHistory(t))
    ensures forall i | 0 <= i < |t.blocks| :: ConsumedAt(t, i) <= created[i + 1]
  {
    created, consumed := EverCreatedHistory(t), EverConsumedHistory(t);
    var createdIn, consumedIn := CreatedHistory(t), ConsumedHistory(t);
    NothingAtFirst(t, hashed);
    forall i | 0 <= i < |t.blocks|
      ensures AddsAt(created, createdIn, i) && AddsAt(consumed, consumedIn, i)
      ensures ConsumedAt(t, i) <= created[i + 1]
    {
      Recorded(t, hashed, i);
    }
  }

  /** Over a whole run a source is created in one block at most and consumed in one block at most,
      each time by one row, by a transaction or by the garbage rule. */
  lemma NoDoubleSpend(t: Trace, hashed: map<string, set<SourceKey>>, i: nat, j: nat)
    requires MoneyRun(t, hashed) && i < j < |t.blocks|
    ensures CreatedAt(t, i) !! CreatedAt(t, j) && ConsumedAt(t, i) !! ConsumedAt(t, j)
  {
    var created, consumed := Histories(t, hashed);
    AddedApart(created, CreatedHistory(t), i, j);
    AddedApart(consumed, ConsumedHistory(t), i, j);
  }

  lemma NoDoubleSpendInBlock(t: Trace, hashed: map<string, set<SourceKey>>, i: nat)
    requires MoneyRun(t, hashed) && i < |t.blocks|
    ensures DistinctKeys(Consumptions(t.stores[i], t.blocks[i], t.garbage[i]))
    ensures DistinctKeys(Only(Rows(t.stores[i], t.blocks[i]), Create)) && DistinctKeys(t.dividends[i])
  {
    AppliedAt(t, hashed, i);
    CreatedOnce(t.stores[i], hashed, t.blocks[i], t.dividends[i], t.garbage[i], t.stores[i + 1]);
    ConsumedOnce(t.stores[i], hashed, t.blocks[i], t.dividends[i], t.garbage[i], t.stores[i + 1]);
  }

  /** Every consumption has its creation, in the same block or before. */
  lemma ConsumedWasCreatedBefore(t: Trace, hashed: map<string, set<SourceKey>>, j: nat, k: SourceKey) returns (i: nat)
    requires MoneyRun(t, hashed) && j < |t.blocks| && k in ConsumedAt(t, j)
    ensures i <= j && k in CreatedAt(t, i)
  {
    var created, consumed := Histories(t, hashed);
    i := AddedSomewhere(created, CreatedHistory(t), j + 1, k);
  }
}
