/** Runs of accepted blocks, whatever their chained inputs state: what can be consumed again, and since
    which block. */
module SpentAgainRuns {
  import opened Sources
  import opened Money
  import opened MoneyRuns
  import opened DoubleSpend
  import opened AnyInputs
  import opened SpentAgain
  import MoneyDal

  // ---- Runs ----

  ghost predicate SourcesRunStep(t: Trace, docs: map<string, Tx>, i: nat)
    requires WellFormed(t) && i < |t.blocks|
  {
    && t.blocks[i].number == i && Documented(docs, t.blocks[i].txs)
    && SourcesStep(t.stores[i], t.blocks[i], t.dividends[i], t.garbage[i], t.stores[i + 1])
  }

  /** Accepted blocks from the empty stores, whatever the wallets say and the garbage rule makes of it. */
  ghost predicate SourcesRun(t: Trace, docs: map<string, Tx>) {
    WellFormed(t) && t.stores[0] == EMPTY && forall i | 0 <= i < |t.blocks| :: SourcesRunStep(t, docs, i)
  }

  ghost predicate NoneOverdrawn(s: Store, entries: seq<SRow>) {
    forall e | e in entries :: !MoneyDal.Overdrawn(s, entries, e.conditions)
  }

  ghost predicate SavedRunStep(t: Trace, docs: map<string, Tx>, i: nat)
    requires WellFormed(t) && i < |t.blocks|
  {
    var s, b := t.stores[i], t.blocks[i];
    && b.number == i && Documented(docs, b.txs)
    && Accepted(s, b) && NoneOverdrawn(s, Rows(s, b) + t.dividends[i])
    && Step(s, b, t.dividends[i], t.garbage[i], t.stores[i + 1])
  }

  /** What the code saves: the garbage rule does not throw, and the wallets are moved. */
  ghost predicate SavedRun(t: Trace, docs: map<string, Tx>) {
    WellFormed(t) && t.stores[0] == EMPTY && forall i | 0 <= i < |t.blocks| :: SavedRunStep(t, docs, i)
  }

  lemma SavedIsSourcesRun(t: Trace, docs: map<string, Tx>)
    requires SavedRun(t, docs)
    ensures SourcesRun(t, docs)
  {
    forall i | 0 <= i < |t.blocks| ensures SourcesRunStep(t, docs, i) {
      assert SavedRunStep(t, docs, i);
      StepMovesSources(t.stores[i], t.blocks[i], t.dividends[i], t.garbage[i], t.stores[i + 1]);
    }
  }

  lemma EmptyIsConsistent(docs: map<string, Tx>)
    ensures Consistent(EMPTY, 0, docs)
  {}

  /** Every reachable index is consistent. */
  lemma {:induction false} RunIsConsistent(t: Trace, docs: map<string, Tx>, i: nat)
    requires SourcesRun(t, docs) && i <= |t.blocks|
    ensures Consistent(t.stores[i], i, docs)
    decreases i
  {
    if i == 0 {
      EmptyIsConsistent(docs);
    } else {
      var j := i - 1;
      RunIsConsistent(t, docs, j);
      assert SourcesRunStep(t, docs, j);
      StaysConsistent(t.stores[j], docs, t.blocks[j], t.dividends[j], t.garbage[j], t.stores[i]);
    }
  }

  lemma SourcedAt(t: Trace, docs: map<string, Tx>, i: nat)
    requires SourcesRun(t, docs) && i < |t.blocks|
    ensures t.blocks[i].number == i
    ensures Sourced(t.stores[i], docs, t.blocks[i], t.dividends[i], t.garbage[i], t.stores[i + 1])
  {
    RunIsConsistent(t, docs, i);
    assert SourcesRunStep(t, docs, i);
  }

  // ---- Nothing is created twice ----

  lemma EverAt(t: Trace, docs: map<string, Tx>, i: nat)
    requires SourcesRun(t, docs) && i < |t.blocks|
    ensures CreatedAt(t, i) !! EverCreated(t.stores[i])
    ensures EverCreated(t.stores[i + 1]) == EverCreated(t.stores[i]) + CreatedAt(t, i)
    ensures EverConsumed(t.stores[i + 1]) == EverConsumed(t.stores[i]) + ConsumedAt(t, i)
  {
    SourcedAt(t, docs, i);
    EverAfter(t.stores[i], docs, t.blocks[i], t.dividends[i], t.garbage[i], t.stores[i + 1]);
  }

  /** Sets that collect: each step adds elements, new or not. */
  ghost predicate Collects(ever: seq<set<SourceKey>>, added: seq<set<SourceKey>>) {
    |ever| == |added| + 1 && forall i | 0 <= i < |added| :: CollectsAt(ever, added, i)
  }

  ghost predicate CollectsAt(ever: seq<set<SourceKey>>, added: seq<set<SourceKey>>, i: nat)
    requires |ever| == |added| + 1 && i < |added|
  {
    ever[i + 1] == ever[i] + added[i]
  }

  lemma {:induction false} CollectedStays(ever: seq<set<SourceKey>>, added: seq<set<SourceKey>>, i: nat, j: nat)
    requires Collects(ever, added) && i < j <= |added|
    ensures added[i] <= ever[j]
    decreases j
  {
    assert CollectsAt(ever, added, j - 1);
    if i < j - 1 {
      CollectedStays(ever, added, i, j - 1);
    }
  }

  /** What a block creates or consumes is recorded from then on. */
  lemma Stays(t: Trace, docs: map<string, Tx>, i: nat, j: nat)
    requires SourcesRun(t, docs) && i < j <= |t.blocks|
    ensures CreatedAt(t, i) <= EverCreated(t.stores[j]) && ConsumedAt(t, i) <= EverConsumed(t.stores[j])
  {
    var created, consumed := EverCreatedHistory(t), EverConsumedHistory(t);
    forall m | 0 <= m < |t.blocks|
      ensures CollectsAt(created, CreatedHistory(t), m) && CollectsAt(consumed, ConsumedHistory(t), m)
    {
      EverAt(t, docs, m);
    }
    CollectedStays(created, CreatedHistory(t), i, j);
    CollectedStays(consumed, ConsumedHistory(t), i, j);
  }

  /** No source is created in two blocks, whatever the chained inputs state. */
  lemma NothingCreatedTwice(t: Trace, docs: map<string, Tx>, i: nat, j: nat)
    requires SourcesRun(t, docs) && i < j < |t.blocks|
    ensures CreatedAt(t, i) !! CreatedAt(t, j)
  {
    Stays(t, docs, i, j);
    EverAt(t, docs, j);
  }

  // ---- What can be consumed again ----

  /** Block `j` leaves `k` exposed, and no block before `i` consumes it since. */
  ghost predicate LeftExposed(t: Trace, j: nat, i: nat, k: SourceKey)
    requires WellFormed(t) && j < i <= |t.blocks|
    decreases i
  {
    if i == j + 1 then Exposes(t.blocks[j], t.garbage[j], k)
    else LeftExposed(t, j, i - 1, k) && k !in ConsumedAt(t, i - 1)
  }

  ghost predicate ExposedBefore(t: Trace, i: nat, k: SourceKey)
    requires WellFormed(t) && i <= |t.blocks|
  {
    exists j: nat | j < i :: LeftExposed(t, j, i, k)
  }

  lemma ExposedStep(t: Trace, docs: map<string, Tx>, i: nat, k: SourceKey)
    requires SourcesRun(t, docs) && i < |t.blocks|
    ensures ExposedAt(t.stores[i + 1], k) <==>
            Exposes(t.blocks[i], t.garbage[i], k) || (ExposedAt(t.stores[i], k) && k !in ConsumedAt(t, i))
  {
    SourcedAt(t, docs, i);
    ExposedAfterIff(t.stores[i], docs, t.blocks[i], t.dividends[i], t.garbage[i], t.stores[i + 1], k);
  }

  lemma LeftExposedStep(t: Trace, i: nat, n: nat, k: SourceKey)
    requires WellFormed(t) && i + 1 == n <= |t.blocks|
    ensures ExposedBefore(t, n, k) <==>
            Exposes(t.blocks[i], t.garbage[i], k) || (ExposedBefore(t, i, k) && k !in ConsumedAt(t, i))
  {
    assert Exposes(t.blocks[i], t.garbage[i], k) <==> LeftExposed(t, i, n, k);
    if j: nat :| j < i && LeftExposed(t, j, i, k) {
      assert LeftExposed(t, j, n, k) <==> k !in ConsumedAt(t, i);
    }
    if j: nat :| j < n && LeftExposed(t, j, n, k) {
      assert j < i ==> LeftExposed(t, j, i, k) && k !in ConsumedAt(t, i);
    }
  }

  /** What is exposed in a state was left so by a block before. */
  lemma {:induction false} ExposedSince(t: Trace, docs: map<string, Tx>, i: nat, k: SourceKey)
    requires SourcesRun(t, docs) && i <= |t.blocks|
    ensures ExposedAt(t.stores[i], k) <==> ExposedBefore(t, i, k)
    decreases i
  {
    if i > 0 {
      ExposedSince(t, docs, i - 1, k);
      ExposedStep(t, docs, i - 1, k);
      LeftExposedStep(t, i - 1, i, k);
    }
  }

  /** After a run, a consumed source can be consumed again if and only if some block consumed it by an
      input that misstated it, or garbaged it as a dividend, and no later block has consumed it. */
  lemma CanBeSpentAgainIff(t: Trace, docs: map<string, Tx>, i: nat, k: SourceKey)
    requires SourcesRun(t, docs) && i <= |t.blocks|
    ensures k in EverConsumed(t.stores[i]) && CanBeSpent(t.stores[i], i, docs, k) <==>
            ExposedBefore(t, i, k)
  {
    RunIsConsistent(t, docs, i);
    ExposedSince(t, docs, i, k);
    if k in EverConsumed(t.stores[i]) {
      SpentAgainIff(t.stores[i], i, docs, k);
    }
  }

  /** What two blocks consume was exposed in between. */
  lemma ConsumedTwiceWasExposed(t: Trace, docs: map<string, Tx>, i: nat, j: nat, k: SourceKey)
    requires SourcesRun(t, docs) && i < j < |t.blocks|
    requires k in ConsumedAt(t, i) && k in ConsumedAt(t, j)
    ensures ExposedBefore(t, j, k)
  {
    Stays(t, docs, i, j);
    SourcedAt(t, docs, j);
    ConsumedAgainWasExposed(t.stores[j], docs, t.blocks[j], t.dividends[j], t.garbage[j], t.stores[j + 1], k);
    ExposedSince(t, docs, j, k);
  }

  // ---- No double spending ----

  ghost predicate PlainUpTo(t: Trace, n: nat)
    requires WellFormed(t) && n <= |t.blocks|
  {
    forall m | 0 <= m < n :: IsPlain(t.blocks[m], t.garbage[m])
  }

  lemma PlainStep(t: Trace, docs: map<string, Tx>, i: nat)
    requires SourcesRun(t, docs) && i < |t.blocks| && NothingExposed(t.stores[i])
    ensures NothingExposed(t.stores[i + 1]) <==> IsPlain(t.blocks[i], t.garbage[i])
  {
    SourcedAt(t, docs, i);
    NothingExposedAfterIff(t.stores[i], docs, t.blocks[i], t.dividends[i], t.garbage[i], t.stores[i + 1]);
  }

  /** No state up to a block has an exposed source if and only if the blocks before are plain: chained
      inputs state the amount of the output they name, and the garbage rule takes outputs only. */
  lemma {:induction false} NeverExposedIff(t: Trace, docs: map<string, Tx>, n: nat)
    requires SourcesRun(t, docs) && n <= |t.blocks|
    ensures PlainUpTo(t, n) <==> forall i | 0 <= i <= n :: NothingExposed(t.stores[i])
    decreases n
  {
    if n > 0 {
      var m := n - 1;
      NeverExposedIff(t, docs, m);
      assert PlainUpTo(t, n) <==> PlainUpTo(t, m) && IsPlain(t.blocks[m], t.garbage[m]);
      if NothingExposed(t.stores[m]) {
        PlainStep(t, docs, m);
      }
    }
  }

  /** Over plain blocks, no source is consumed in two blocks. */
  lemma NothingConsumedTwice(t: Trace, docs: map<string, Tx>, i: nat, j: nat)
    requires SourcesRun(t, docs) && i < j < |t.blocks| && PlainUpTo(t, j)
    ensures ConsumedAt(t, i) !! ConsumedAt(t, j)
  {
    NeverExposedIff(t, docs, j);
    assert NothingExposed(t.stores[j]);
    forall k | k in ConsumedAt(t, i) && k in ConsumedAt(t, j) ensures false {
      ConsumedTwiceWasExposed(t, docs, i, j, k);
      ExposedSince(t, docs, j, k);
    }
  }

  /** The runs of `DoubleSpend` are made of plain blocks. */
  lemma MoneyRunIsPlain(t: Trace, hashed: map<string, set<SourceKey>>, docs: map<string, Tx>)
    requires MoneyRun(t, hashed) && forall i | 0 <= i < |t.blocks| :: Documented(docs, t.blocks[i].txs)
    ensures SourcesRun(t, docs) && PlainUpTo(t, |t.blocks|)
  {
    forall i | 0 <= i < |t.blocks|
      ensures SourcesRunStep(t, docs, i) && IsPlain(t.blocks[i], t.garbage[i])
    {
      AppliedAt(t, hashed, i);
      assert RunStep(t, hashed, i) && Documented(docs, t.blocks[i].txs);
      StepMovesSources(t.stores[i], t.blocks[i], t.dividends[i], t.garbage[i], t.stores[i + 1]);
      GarbageIsPlain(t.stores[i], hashed, t.blocks[i], t.dividends[i], t.garbage[i], t.stores[i + 1]);
    }
  }
}
