/** Runs that trim: after a block, the records of transaction sources consumed long enough ago are
    deleted, and so are the dividends spent as long ago. Nothing that a rule looks at changes. */
module Trimming {
  import opened Amounts
  import opened Outcomes
  import opened Sources
  import opened SourceSums
  import opened Money
  import opened LocalSources
  import opened MoneySteps
  import opened MoneyEffect
  import opened MoneyRuns
  import opened DoubleSpend
  import opened MoneyDal
  import opened MoneyRevert

  function ConsumedBefore(updates: map<SourceKey, SRow>, below: nat): set<SourceKey> {
    set k | k in updates && updates[k].writtenOn < below
  }

  function SpentBefore(spent: map<SourceKey, SpentUd>, below: nat): set<SourceKey> {
    set k | k in spent && spent[k].consumedOn < below
  }

  /** The stores without what was consumed before block `below`. */
  function Trimmed(s: Store, below: nat): Store {
    var stale := ConsumedBefore(s.updates, below);
    s.(creates := s.creates - stale, updates := s.updates - stale, spent := s.spent - SpentBefore(s.spent, below))
  }

  /** `trimConsumedSource`: both records of each source consumed before `below` are deleted. */
  method TrimConsumedSource(dal: Dal, below: nat)
    modifies dal`creates, dal`updates
    ensures dal.creates == old(dal.creates) - ConsumedBefore(old(dal.updates), below)
    ensures dal.updates == old(dal.updates) - ConsumedBefore(old(dal.updates), below)
  {
    var ids := ConsumedBefore(dal.updates, below);
    ghost var gone: set<SourceKey> := {};
    while ids != {}
      invariant gone + ids == ConsumedBefore(old(dal.updates), below) && gone !! ids
      invariant dal.creates == old(dal.creates) - gone && dal.updates == old(dal.updates) - gone
    {
      var id :| id in ids;
      ids := ids - {id};
      if id in dal.updates && dal.updates[id].writtenOn < below {
        dal.creates := dal.creates - {id};
        dal.updates := dal.updates - {id};
      }
      gone := gone + {id};
    }
  }

  /** `trimConsumedUDs` */
  method TrimConsumedUds(dal: Dal, below: nat)
    modifies dal`spent
    ensures dal.spent == old(dal.spent) - SpentBefore(old(dal.spent), below)
  {
    var names := dal.spent.Keys;
    ghost var seen: set<SourceKey> := {};
    while names != {}
      invariant seen + names == old(dal.spent).Keys && seen !! names
      invariant dal.spent == old(dal.spent) - (seen * SpentBefore(old(dal.spent), below))
    {
      var k :| k in names;
      names := names - {k};
      assert k in dal.spent && dal.spent[k] == old(dal.spent)[k];
      if dal.spent[k].consumedOn < below {
        dal.spent := dal.spent - {k};
      }
      seen := seen + {k};
    }
    assert seen * SpentBefore(old(dal.spent), below) == SpentBefore(old(dal.spent), below);
  }

  /** The money part of `trimIndexes`: a transaction source loses both records when it was consumed before
      block `below`, a dividend its entry when it was spent before. */
  method TrimIndexes(dal: Dal, below: nat)
    modifies dal
    ensures dal.State() == Trimmed(old(dal.State()), below)
    ensures dal.creates ==
            map k | k in old(dal.creates) && !(k in old(dal.updates) && old(dal.updates)[k].writtenOn < below) ::
              old(dal.creates)[k]
    ensures dal.updates ==
            map k | k in old(dal.updates) && old(dal.updates)[k].writtenOn >= below :: old(dal.updates)[k]
    ensures dal.spent == map k | k in old(dal.spent) && old(dal.spent)[k].consumedOn >= below :: old(dal.spent)[k]
    ensures dal.uds == old(dal.uds) && dal.wallets == old(dal.wallets)
  {
    TrimConsumedSource(dal, below);
    TrimConsumedUds(dal, below);
  }

  // ---- What the rules see ----

  lemma AvailableWhenTrimmed(s: Store, hashed: map<string, set<SourceKey>>, next: nat, below: nat)
    requires SoundSources(s, next, hashed)
    ensures Available(Trimmed(s, below)) == Available(s)
  {
    var stale, t := ConsumedBefore(s.updates, below), Trimmed(s, below);
    assert t.creates.Keys - t.updates.Keys == s.creates.Keys - s.updates.Keys;
  }

  /** A trimmed source has no conditions any more and stays locked, as it stays consumed when it is
      kept; for all other sources nothing changes. */
  lemma UsableWhenTrimmed(
      s: Store, hashed: map<string, set<SourceKey>>, next: nat, below: nat, local: seq<SRow>, r: SRow)
    requires SoundSources(s, next, hashed)
    ensures Usable(Trimmed(s, below), local, r) <==> Usable(s, local, r)
    ensures Usable(s, local, r) ==> ConditionsOf(Trimmed(s, below), local, r) == ConditionsOf(s, local, r)
  {
    assert r.key in s.updates ==> SoundConsumption(s, next, r.key);
  }

  lemma {:induction false} ResolvedWhenTrimmed(
      s: Store, hashed: map<string, set<SourceKey>>, next: nat, below: nat, local: seq<SRow>, n: nat)
    requires SoundSources(s, next, hashed) && AllUsable(s, local) && n <= |local|
    ensures Resolved(Trimmed(s, below), local, n) == Resolved(s, local, n)
  {
    if n > 0 {
      ResolvedWhenTrimmed(s, hashed, next, below, local, n - 1);
      var r := local[n - 1];
      if r.op == Update {
        assert Usable(s, local, r);
        UsableWhenTrimmed(s, hashed, next, below, local, r);
      }
    }
  }

  lemma AcceptedWhenTrimmed(s: Store, hashed: map<string, set<SourceKey>>, below: nat, b: MoneyBlock)
    requires SoundSources(s, b.number, hashed)
    ensures Fit(Trimmed(s, below), hashed, b) <==> Fit(s, hashed, b)
    ensures Fit(s, hashed, b) ==> Rows(Trimmed(s, below), b) == Rows(s, b)
  {
    var local := LocalRows(b.txs, b.number);
    forall i | 0 <= i < |local| && local[i].op == Update
      ensures Usable(Trimmed(s, below), local, local[i]) <==> Usable(s, local, local[i])
    {
      UsableWhenTrimmed(s, hashed, b.number, below, local, local[i]);
    }
    assert AllUsable(s, local) <==> AllUsable(Trimmed(s, below), local);
    if AllUsable(s, local) {
      ResolvedWhenTrimmed(s, hashed, b.number, below, local, |local|);
    }
  }

  lemma GarbageWhenTrimmed(s: Store, below: nat, entries: seq<SRow>, b: MoneyBlock, garbage: seq<SRow>)
    requires IsGarbage(Trimmed(s, below), entries, b, garbage)
    ensures IsGarbage(s, entries, b, garbage)
  {
    var t := Trimmed(s, below);
    forall r ensures Garbaged(t, entries, b.unitBase, r) <==> Garbaged(s, entries, b.unitBase, r) {
      assert Candidate(t, entries, r) <==> Candidate(s, entries, r);
    }
    forall i | 0 <= i < |garbage| ensures IsGarbageRow(s, entries, b, garbage[i]) {
      assert IsGarbageRow(t, entries, b, garbage[i]);
    }
  }

  // ---- A step on trimmed stores is a step on the whole ones ----

  lemma {:induction false} PutRowsApart(m: map<SourceKey, SRow>, rows: seq<SRow>, stale: set<SourceKey>)
    requires Keys(rows) !! stale
    ensures PutRows(m - stale, rows) == PutRows(m, rows) - stale
  {
    if rows != [] {
      KeysWithLast(rows);
      PutRowsApart(m, rows[..|rows| - 1], stale);
    }
  }

  /** The stores as they would be without trimming. */
  ghost function Untrimmed(
      s: Store, b: MoneyBlock, dividends: seq<SRow>, garbage: seq<SRow>, wallets: map<string, int>): Store
  {
    var sindex := Rows(s, b) + garbage;
    var uds := WithUds(s.uds, dividends);
    Store(PutRows(s.creates, Only(OfType(sindex, T), Create)), PutRows(s.updates, Only(OfType(sindex, T), Update)),
          FlushedUds(uds, sindex), FlushedSpent(uds, s.spent, sindex, b.number), wallets)
  }

  lemma StepOnTrimmed(
      s: Store, hashed: map<string, set<SourceKey>>, b: MoneyBlock, below: nat,
      dividends: seq<SRow>, garbage: seq<SRow>, after: Store)
    requires Sound(s, b.number, hashed) && Fit(Trimmed(s, below), hashed, b)
    requires Step(Trimmed(s, below), b, dividends, garbage, after)
    ensures var whole := Untrimmed(s, b, dividends, garbage, after.wallets);
            Applied(s, hashed, b, dividends, garbage, whole) && Step(s, b, dividends, garbage, whole)
  {
    AcceptedWhenTrimmed(s, hashed, below, b);
    GarbageWhenTrimmed(s, below, Rows(s, b) + dividends, b, garbage);
  }

  /** The new records stay apart from the trimmed ones. */
  lemma FlushOnTrimmed(
      s: Store, hashed: map<string, set<SourceKey>>, b: MoneyBlock, below: nat,
      dividends: seq<SRow>, garbage: seq<SRow>, after: Store)
    requires Sound(s, b.number, hashed) && Fit(Trimmed(s, below), hashed, b) && below <= b.number
    requires Step(Trimmed(s, below), b, dividends, garbage, after)
    ensures after == Trimmed(Untrimmed(s, b, dividends, garbage, after.wallets), below)
  {
    var full := Untrimmed(s, b, dividends, garbage, after.wallets);
    AcceptedWhenTrimmed(s, hashed, below, b);
    StepOnTrimmed(s, hashed, b, below, dividends, garbage, after);
    RecordsOnTrimmed(s, hashed, b, below, dividends, garbage, full);
    SpentOnTrimmed(s, hashed, b, below, dividends, garbage, full);
  }

  lemma RecordsOnTrimmed(
      s: Store, hashed: map<string, set<SourceKey>>, b: MoneyBlock, below: nat,
      dividends: seq<SRow>, garbage: seq<SRow>, full: Store)
    requires Applied(s, hashed, b, dividends, garbage, full) && below <= b.number
    ensures var stale, sindex := ConsumedBefore(s.updates, below), Rows(s, b) + garbage;
            && ConsumedBefore(full.updates, below) == stale
            && full.creates - stale == PutRows(s.creates - stale, Only(OfType(sindex, T), Create))
            && full.updates - stale == PutRows(s.updates - stale, Only(OfType(sindex, T), Update))
  {
    var stale, sindex := ConsumedBefore(s.updates, below), Rows(s, b) + garbage;
    NewRecordsAreApart(s, hashed, b, dividends, garbage, full);
    assert stale <= s.updates.Keys;
    PutRowsApart(s.creates, Only(OfType(sindex, T), Create), stale);
    PutRowsApart(s.updates, Only(OfType(sindex, T), Update), stale);
    NewRecordsAreDated(s, hashed, b, below, dividends, garbage, full);
  }

  lemma NewRecordsAreApart(
      s: Store, hashed: map<string, set<SourceKey>>, b: MoneyBlock,
      dividends: seq<SRow>, garbage: seq<SRow>, full: Store)
    requires Applied(s, hashed, b, dividends, garbage, full)
    ensures Keys(Only(OfType(Rows(s, b) + garbage, T), Create)) !! s.updates.Keys
    ensures Keys(Only(OfType(Rows(s, b) + garbage, T), Update)) !! s.updates.Keys
  {
    AppliedIsFlushing(s, hashed, b, dividends, garbage, full);
    FlushedRows(s, b, garbage);
    CreationsAreTransactions(s, b);
    KeysAreTyped(s, hashed, b, dividends);
    ConsumedOnce(s, hashed, b, dividends, garbage, full);
    DistinctOfType(Consumptions(s, b, garbage), T);
  }

  lemma NewRecordsAreDated(
      s: Store, hashed: map<string, set<SourceKey>>, b: MoneyBlock, below: nat,
      dividends: seq<SRow>, garbage: seq<SRow>, full: Store)
    requires Applied(s, hashed, b, dividends, garbage, full) && below <= b.number
    ensures ConsumedBefore(full.updates, below) == ConsumedBefore(s.updates, below)
  {
    UpdatesAreRestored(s, hashed, b, dividends, garbage, full);
    OlderRecords(s.updates, full.updates, b.number, below);
  }

  lemma OlderRecords(before: map<SourceKey, SRow>, after: map<SourceKey, SRow>, number: nat, below: nat)
    requires after - WrittenOn(after, number) == before && below <= number
    ensures ConsumedBefore(after, below) == ConsumedBefore(before, below)
  {
    forall k ensures k in ConsumedBefore(after, below) <==> k in ConsumedBefore(before, below) {
      if k in after && k !in WrittenOn(after, number) {
        assert k in before;
      }
    }
  }

  lemma SpentOnTrimmed(
      s: Store, hashed: map<string, set<SourceKey>>, b: MoneyBlock, below: nat,
      dividends: seq<SRow>, garbage: seq<SRow>, full: Store)
    requires Applied(s, hashed, b, dividends, garbage, full) && below <= b.number
    ensures var stale, sindex := SpentBefore(s.spent, below), Rows(s, b) + garbage;
            && SpentBefore(full.spent, below) == stale
            && full.spent - stale == FlushedSpent(WithUds(s.uds, dividends), s.spent - stale, sindex, b.number)
  {
    var sindex, uds := Rows(s, b) + garbage, WithUds(s.uds, dividends);
    StoreNames(s, hashed, b, dividends, garbage, full);
    WithUdsContents(s.uds, dividends);
    SpentApart(uds, s.spent, Keys(OfType(sindex, D)), b.number, below);
  }

  lemma SpentApart(
      uds: map<SourceKey, BasedAmount>, spent: map<SourceKey, SpentUd>, gone: set<SourceKey>, number: nat, below: nat)
    requires uds.Keys !! spent.Keys && below <= number
    ensures var more := map k | k in gone && k in uds :: SpentUd(uds[k], number);
            var stale := SpentBefore(spent, below);
            SpentBefore(spent + more, below) == stale && (spent + more) - stale == (spent - stale) + more
  {
    var more := map k | k in gone && k in uds :: SpentUd(uds[k], number);
    var stale := SpentBefore(spent, below);
    assert more.Keys !! spent.Keys;
    assert stale <= spent.Keys;
  }

  // ---- Reverting on trimmed stores ----

  /** What was consumed before the block is not written on it. */
  lemma RecordsOfBlockStay(s: Store, hashed: map<string, set<SourceKey>>, next: nat, below: nat, number: nat)
    requires SoundSources(s, next, hashed) && below <= number
    ensures var stale := ConsumedBefore(s.updates, below);
            && WrittenOn(s.creates - stale, number) == WrittenOn(s.creates, number)
            && WrittenOn(s.updates - stale, number) == WrittenOn(s.updates, number)
            && ConsumedBefore(s.updates - WrittenOn(s.updates, number), below) == stale
  {
    forall k | k in ConsumedBefore(s.updates, below)
      ensures k !in WrittenOn(s.creates, number) && k !in WrittenOn(s.updates, number)
    {
      assert SoundConsumption(s, next, k);
    }
  }

  lemma SpentOfBlockStay(spent: map<SourceKey, SpentUd>, newcomers: set<string>, below: nat, number: nat)
    requires below <= number
    ensures var stale := SpentBefore(spent, below);
            var small := spent - stale;
            var kept, keptSmall := spent - OfOwners(spent.Keys, newcomers), small - OfOwners(small.Keys, newcomers);
            && SpentOn(keptSmall, number) == SpentOn(kept, number)
            && (forall k | k in SpentOn(kept, number) :: keptSmall[k] == kept[k])
            && keptSmall - SpentOn(keptSmall, number) ==
               (kept - SpentOn(kept, number)) - SpentBefore(kept - SpentOn(kept, number), below)
  {}

  /** The stores after the same revert without trimming. */
  ghost function RevertedWhole(
      s: Store, number: nat, newcomers: set<string>, u: Undo, wallets: map<string, int>): Store
  {
    var uds := s.uds - OfOwners(s.uds.Keys, newcomers);
    var spent := s.spent - OfOwners(s.spent.Keys, newcomers);
    Store(s.creates - WrittenOn(s.creates, number), s.updates - WrittenOn(s.updates, number),
          WithUds(uds - ProducedOn(uds, number), u.recovered), spent - SpentOn(spent, number), wallets)
  }

  lemma RowsOnTrimmed(records: map<SourceKey, SRow>, stale: set<SourceKey>, number: nat, rows: seq<SRow>)
    requires RecordRows(records - stale, number, rows)
    requires WrittenOn(records - stale, number) == WrittenOn(records, number)
    ensures RecordRows(records, number, rows)
  {
    forall i | 0 <= i < |rows| ensures Written(records, rows[i]) {
      assert Written(records - stale, rows[i]);
    }
  }

  lemma UdRowsOnTrimmed(
      keys: set<SourceKey>, small: map<SourceKey, SpentUd>, spent: map<SourceKey, SpentUd>, rows: seq<SRow>)
    requires UdRows(keys, SpentAmounts(small), rows)
    requires forall k | k in keys && k in small :: k in spent && small[k] == spent[k]
    ensures UdRows(keys, SpentAmounts(spent), rows)
  {
    forall i | 0 <= i < |rows| ensures UdRow(SpentAmounts(spent), rows[i]) {
      assert UdRow(SpentAmounts(small), rows[i]);
      KeyOfMember(rows, rows[i]);
    }
  }

  lemma WholeIsReverted(
      s: Store, hashed: map<string, set<SourceKey>>, next: nat, below: nat, number: nat, newcomers: set<string>,
      u: Undo, back: Store)
    requires SoundSources(s, next, hashed) && below <= number
    requires MoneyReverted(Trimmed(s, below), number, newcomers, u, back)
    ensures MoneyReverted(s, number, newcomers, u, RevertedWhole(s, number, newcomers, u, back.wallets))
  {
    var stale := ConsumedBefore(s.updates, below);
    RecordsOfBlockStay(s, hashed, next, below, number);
    SpentOfBlockStay(s.spent, newcomers, below, number);
    RowsOnTrimmed(s.creates, stale, number, Only(u.moves, Create));
    RowsOnTrimmed(s.updates, stale, number, Only(u.moves, Update));
    var small := s.spent - SpentBefore(s.spent, below);
    UdRowsOnTrimmed(SpentOn(s.spent - OfOwners(s.spent.Keys, newcomers), number),
                    small - OfOwners(small.Keys, newcomers), s.spent - OfOwners(s.spent.Keys, newcomers), u.recovered);
  }

  lemma TrimCommutes(m: map<SourceKey, SRow>, stale: set<SourceKey>, written: set<SourceKey>)
    ensures (m - stale) - written == (m - written) - stale
  {}

  /** A revert of a block that is not older than the trimming is that of the whole stores, seen through
      the trimming. */
  lemma RevertOnTrimmed(
      s: Store, hashed: map<string, set<SourceKey>>, next: nat, below: nat, number: nat, newcomers: set<string>,
      u: Undo, back: Store)
    requires SoundSources(s, next, hashed) && below <= number
    requires MoneyReverted(Trimmed(s, below), number, newcomers, u, back)
    ensures var whole := RevertedWhole(s, number, newcomers, u, back.wallets);
            MoneyReverted(s, number, newcomers, u, whole) && back == Trimmed(whole, below)
  {
    var stale := ConsumedBefore(s.updates, below);
    WholeIsReverted(s, hashed, next, below, number, newcomers, u, back);
    RecordsOfBlockStay(s, hashed, next, below, number);
    SpentOfBlockStay(s.spent, newcomers, below, number);
    TrimCommutes(s.creates, stale, WrittenOn(s.creates, number));
    TrimCommutes(s.updates, stale, WrittenOn(s.updates, number));
  }

  lemma TrimmedTwice(s: Store, x: nat, y: nat)
    ensures Trimmed(Trimmed(s, x), y) == Trimmed(s, if x <= y then y else x)
  {
    var z := if x <= y then y else x;
    var t := Trimmed(s, x);
    var u, v := ConsumedBefore(s.updates, x), ConsumedBefore(t.updates, y);
    assert u + v == ConsumedBefore(s.updates, z);
    assert s.creates - u - v == s.creates - ConsumedBefore(s.updates, z);
    assert s.updates - u - v == s.updates - ConsumedBefore(s.updates, z);
    assert SpentBefore(s.spent, x) + SpentBefore(t.spent, y) == SpentBefore(s.spent, z);
  }

  // ---- Runs ----

  /** Block `i` is accepted on the trimmed stores, saved, and what was consumed before `cuts[i]` is
      trimmed. */
  ghost predicate TrimStep(t: Trace, hashed: map<string, set<SourceKey>>, cuts: seq<nat>, i: nat)
    requires WellFormed(t) && |cuts| == |t.blocks| && i < |t.blocks|
  {
    && t.blocks[i].number == i && cuts[i] <= i
    && Fit(t.stores[i], hashed, t.blocks[i])
    && exists saved :: Step(t.stores[i], t.blocks[i], t.dividends[i], t.garbage[i], saved)
                       && t.stores[i + 1] == Trimmed(saved, cuts[i])
  }

  ghost predicate TrimmedRun(t: Trace, hashed: map<string, set<SourceKey>>, cuts: seq<nat>) {
    && WellFormed(t) && |cuts| == |t.blocks| && t.stores[0] == EMPTY
    && forall i | 0 <= i < |t.blocks| :: TrimStep(t, hashed, cuts, i)
  }

  ghost predicate IsTrimmed(s: Store, t: Store, next: nat) {
    exists below: nat | below <= next :: t == Trimmed(s, below)
  }

  /** The whole stores of the first `i` blocks. */
  ghost predicate WholeStores(t: Trace, hashed: map<string, set<SourceKey>>, stores: seq<Store>, i: nat)
    requires WellFormed(t) && i <= |t.blocks|
  {
    && |stores| == i + 1 && stores[0] == EMPTY && Sound(stores[i], i, hashed)
    && (forall j | 0 <= j < i :: WholeStep(t, hashed, stores, j))
    && (forall j | 0 <= j <= i :: IsTrimmed(stores[j], t.stores[j], j))
  }

  ghost predicate WholeStep(t: Trace, hashed: map<string, set<SourceKey>>, stores: seq<Store>, j: nat)
    requires WellFormed(t) && j < |t.blocks| && j + 1 < |stores|
  {
    && Fit(stores[j], hashed, t.blocks[j])
    && Step(stores[j], t.blocks[j], t.dividends[j], t.garbage[j], stores[j + 1])
    && Rows(t.stores[j], t.blocks[j]) == Rows(stores[j], t.blocks[j])
  }

  lemma NextWholeStore(
      s: Store, hashed: map<string, set<SourceKey>>, b: MoneyBlock, dividends: seq<SRow>, garbage: seq<SRow>,
      small: Store, cut: nat, small': Store) returns (after: Store)
    requires Sound(s, b.number, hashed) && IsTrimmed(s, small, b.number) && cut <= b.number
    requires Fit(small, hashed, b)
    requires exists saved :: Step(small, b, dividends, garbage, saved) && small' == Trimmed(saved, cut)
    ensures Applied(s, hashed, b, dividends, garbage, after) && Rows(small, b) == Rows(s, b)
    ensures Step(s, b, dividends, garbage, after)
    ensures IsTrimmed(after, small', b.number + 1)
  {
    var below: nat :| below <= b.number && small == Trimmed(s, below);
    var saved :| Step(small, b, dividends, garbage, saved) && small' == Trimmed(saved, cut);
    after := Untrimmed(s, b, dividends, garbage, saved.wallets);
    AcceptedWhenTrimmed(s, hashed, below, b);
    StepOnTrimmed(s, hashed, b, below, dividends, garbage, saved);
    FlushOnTrimmed(s, hashed, b, below, dividends, garbage, saved);
    TrimmedTwice(after, below, cut);
    assert small' == Trimmed(after, if below <= cut then cut else below);
  }

  lemma MoreWholeStores(t: Trace, hashed: map<string, set<SourceKey>>, stores: seq<Store>, j: nat, after: Store)
    requires WellFormed(t) && j < |t.blocks| && WholeStores(t, hashed, stores, j)
    requires Fit(stores[j], hashed, t.blocks[j])
    requires Step(stores[j], t.blocks[j], t.dividends[j], t.garbage[j], after)
    requires Rows(t.stores[j], t.blocks[j]) == Rows(stores[j], t.blocks[j])
    requires IsTrimmed(after, t.stores[j + 1], j + 1) && Sound(after, j + 1, hashed)
    ensures WholeStores(t, hashed, stores + [after], j + 1)
  {
    var all := stores + [after];
    forall m | 0 <= m < j + 1 ensures WholeStep(t, hashed, all, m) {
      if m < j { assert WholeStep(t, hashed, stores, m); }
    }
    forall m | 0 <= m <= j + 1 ensures IsTrimmed(all[m], t.stores[m], m) {
      if m <= j { assert IsTrimmed(stores[m], t.stores[m], m); }
    }
  }

  lemma OneMoreWholeStore(t: Trace, hashed: map<string, set<SourceKey>>, cuts: seq<nat>, before: seq<Store>, j: nat)
    returns (stores: seq<Store>)
    requires WellFormed(t) && |cuts| == |t.blocks| && j < |t.blocks| && TrimStep(t, hashed, cuts, j)
    requires WholeStores(t, hashed, before, j)
    ensures WholeStores(t, hashed, stores, j + 1)
  {
    assert IsTrimmed(before[j], t.stores[j], j);
    var after := NextWholeStore(before[j], hashed, t.blocks[j], t.dividends[j], t.garbage[j],
                                t.stores[j], cuts[j], t.stores[j + 1]);
    StaysSound(before[j], hashed, t.blocks[j], t.dividends[j], t.garbage[j], after);
    MoreWholeStores(t, hashed, before, j, after);
    stores := before + [after];
  }

  lemma {:induction false} WholeStoresExist(t: Trace, hashed: map<string, set<SourceKey>>, cuts: seq<nat>, i: nat)
    returns (stores: seq<Store>)
    requires TrimmedRun(t, hashed, cuts) && i <= |t.blocks|
    ensures WholeStores(t, hashed, stores, i)
    decreases i
  {
    if i == 0 {
      EmptyIsSound(hashed);
      stores := [EMPTY];
      assert EMPTY == Trimmed(EMPTY, 0);
    } else {
      var j := i - 1;
      var before := WholeStoresExist(t, hashed, cuts, j);
      assert TrimStep(t, hashed, cuts, j);
      stores := OneMoreWholeStore(t, hashed, cuts, before, j);
    }
  }

  lemma SameRows(t: Trace, hashed: map<string, set<SourceKey>>, whole: Trace, i: nat)
    requires WellFormed(t) && WellFormed(whole) && whole == t.(stores := whole.stores) && i < |t.blocks|
    requires WholeStep(t, hashed, whole.stores, i)
    ensures CreatedAt(t, i) == CreatedAt(whole, i) && ConsumedAt(t, i) == ConsumedAt(whole, i)
  {}

  /** A run that trims is a run that does not, seen through the trimming: the same blocks are accepted
      and write the same rows. */
  lemma TrimmedRunIsRun(t: Trace, hashed: map<string, set<SourceKey>>, cuts: seq<nat>) returns (whole: Trace)
    requires TrimmedRun(t, hashed, cuts)
    ensures MoneyRun(whole, hashed) && whole == t.(stores := whole.stores)
    ensures forall i | 0 <= i <= |t.blocks| :: IsTrimmed(whole.stores[i], t.stores[i], i)
    ensures forall i | 0 <= i < |t.blocks| ::
              CreatedAt(t, i) == CreatedAt(whole, i) && ConsumedAt(t, i) == ConsumedAt(whole, i)
  {
    var stores := WholeStoresExist(t, hashed, cuts, |t.blocks|);
    whole := t.(stores := stores);
    forall i | 0 <= i < |t.blocks| ensures RunStep(whole, hashed, i) {
      assert WholeStep(t, hashed, stores, i) && TrimStep(t, hashed, cuts, i);
    }
    forall i | 0 <= i < |t.blocks|
      ensures CreatedAt(t, i) == CreatedAt(whole, i) && ConsumedAt(t, i) == ConsumedAt(whole, i)
    {
      assert WholeStep(t, hashed, stores, i);
      SameRows(t, hashed, whole, i);
    }
  }

  /** No double spend in runs that trim. */
  lemma NoDoubleSpendWhenTrimmed(t: Trace, hashed: map<string, set<SourceKey>>, cuts: seq<nat>, i: nat, j: nat)
    requires TrimmedRun(t, hashed, cuts) && i < j < |t.blocks|
    ensures CreatedAt(t, i) !! CreatedAt(t, j) && ConsumedAt(t, i) !! ConsumedAt(t, j)
  {
    var whole := TrimmedRunIsRun(t, hashed, cuts);
    NoDoubleSpend(whole, hashed, i, j);
  }

  /** Wallets agree with the sources in runs that trim. */
  lemma WalletsAgreeWhenTrimmed(t: Trace, hashed: map<string, set<SourceKey>>, cuts: seq<nat>, i: nat)
    requires TrimmedRun(t, hashed, cuts) && i <= |t.blocks|
    ensures WalletsAgree(t.stores[i])
  {
    var whole := TrimmedRunIsRun(t, hashed, cuts);
    RunIsSound(whole, hashed, i);
    assert IsTrimmed(whole.stores[i], t.stores[i], i);
    var below: nat :| below <= i && t.stores[i] == Trimmed(whole.stores[i], below);
    AvailableWhenTrimmed(whole.stores[i], hashed, i, below);
    forall c ensures Balance(t.stores[i].wallets, c) == Sum(Available(t.stores[i]), Some(c)) {
      assert Balance(whole.stores[i].wallets, c) == Sum(Available(whole.stores[i]), Some(c));
    }
  }
}
