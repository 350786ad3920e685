/** What one accepted block keeps on the money side: wallets are the sums of the available
    sources, and the supply changes by the dividend and by what is garbaged only. */
module MoneySteps {
  import opened Outcomes
  import opened Sources
  import opened SourceSums
  import opened Money
  import opened LocalSources

  /** Every wallet holds what the available sources with its conditions are worth. */
  ghost predicate WalletsAgree(s: Store) {
    forall c {:trigger Balance(s.wallets, c)} :: Balance(s.wallets, c) == Sum(Available(s), Some(c))
  }

  ghost predicate Sound(s: Store, next: nat, hashed: map<string, set<SourceKey>>) {
    SoundSources(s, next, hashed) && WalletsAgree(s)
  }

  /** The hypotheses on the transactions of a block: it is accepted, hashes identify transactions,
      and chained inputs state the amount of their output. */
  ghost predicate FitTxs(s: Store, hashed: map<string, set<SourceKey>>, b: MoneyBlock) {
    && Accepted(s, b) && HashesIdentify(hashed, b.txs)
    && ChainedInputsMatch(LocalRows(b.txs, b.number))
  }

  /** All the hypotheses on a block: a dividend is at least the account minimum, too. */
  ghost predicate Fit(s: Store, hashed: map<string, set<SourceKey>>, b: MoneyBlock) {
    && FitTxs(s, hashed, b)
    && (b.dividend.Some? ==> b.dividend.value.amount >= ACCOUNT_MINIMUM && b.dividend.value.base == b.unitBase)
  }

  // ---- Resolved rows ----

  lemma {:induction false} ResolvedAt(s: Store, local: seq<SRow>, n: nat)
    requires n <= |local|
    ensures |Resolved(s, local, n)| == n
    ensures forall i | 0 <= i < n :: Resolved(s, local, n)[i] == ResolvedRow(s, local, local[i])
  {
    if n > 0 {
      ResolvedAt(s, local, n - 1);
    }
  }

  ghost predicate Pointwise(s: Store, local: seq<SRow>, xs: seq<SRow>, ys: seq<SRow>) {
    |xs| == |ys| && forall i | 0 <= i < |ys| :: xs[i] == ResolvedRow(s, local, ys[i])
  }

  lemma {:induction false} ResolvedKeepsOrder(s: Store, local: seq<SRow>, n: nat, op: Op)
    requires n <= |local|
    ensures Pointwise(s, local, Only(Resolved(s, local, n), op), Only(local[..n], op))
  {
    if n > 0 {
      ResolvedKeepsOrder(s, local, n - 1, op);
      assert local[..n][..n - 1] == local[..n - 1];
      assert Resolved(s, local, n)[..|Resolved(s, local, n)| - 1] == Resolved(s, local, n - 1);
    }
  }

  lemma SameKeys(xs: seq<SRow>, ys: seq<SRow>)
    ensures |xs| == |ys| && (forall i | 0 <= i < |xs| :: xs[i].key == ys[i].key) ==>
              Keys(xs) == Keys(ys) && (DistinctKeys(ys) ==> DistinctKeys(xs))
  {
    if |xs| == |ys| && forall i | 0 <= i < |xs| :: xs[i].key == ys[i].key {
      forall k ensures k in Keys(xs) <==> k in Keys(ys) {
        if i :| 0 <= i < |xs| && xs[i].key == k { assert ys[i].key == k; }
        if i :| 0 <= i < |ys| && ys[i].key == k { assert xs[i].key == k; }
      }
    }
  }

  /** The creations are unchanged by the resolution. */
  lemma {:induction false} ResolvedCreations(s: Store, local: seq<SRow>, n: nat)
    requires n <= |local|
    ensures Only(Resolved(s, local, n), Create) == Only(local[..n], Create)
  {
    if n > 0 {
      ResolvedCreations(s, local, n - 1);
      assert local[..n][..n - 1] == local[..n - 1];
      assert Resolved(s, local, n)[..|Resolved(s, local, n)| - 1] == Resolved(s, local, n - 1);
    }
  }

  /** What the rows of an accepted block look like once resolved. */
  lemma RowsShape(s: Store, b: MoneyBlock)
    requires Accepted(s, b)
    ensures var local := LocalRows(b.txs, b.number);
            && Only(Rows(s, b), Create) == Only(local, Create)
            && DistinctKeys(Only(Rows(s, b), Create)) && DistinctKeys(Only(Rows(s, b), Update))
            && Keys(Only(Rows(s, b), Update)) == Keys(Only(local, Update))
    ensures forall i | 0 <= i < |Rows(s, b)| :: ResolvedFrom(s, b, Rows(s, b)[i])
  {
    var local := LocalRows(b.txs, b.number);
    assert local[..|local|] == local;
    ResolvedCreations(s, local, |local|);
    ResolvedAt(s, local, |local|);
    ResolvedKeepsOrder(s, local, |local|, Update);
    SameKeys(Only(Rows(s, b), Update), Only(local, Update));
    forall i | 0 <= i < |Rows(s, b)| ensures ResolvedFrom(s, b, Rows(s, b)[i]) {
      assert IsResolvedOf(s, b, Rows(s, b)[i], local[i]);
    }
  }

  ghost predicate IsResolvedOf(s: Store, b: MoneyBlock, r: SRow, l: SRow) {
    l in LocalRows(b.txs, b.number) && r == ResolvedRow(s, LocalRows(b.txs, b.number), l)
  }

  ghost predicate ResolvedFrom(s: Store, b: MoneyBlock, r: SRow) {
    exists l :: IsResolvedOf(s, b, r, l)
  }

  lemma RowShape(s: Store, b: MoneyBlock, r: SRow) returns (l: SRow)
    requires Accepted(s, b) && r in Rows(s, b)
    ensures IsResolvedOf(s, b, r, l)
    ensures r.writtenOn == b.number && r.conditions != ""
    ensures r.op == Create ==> r == l && r.key.Output? && r.srcType == T
    ensures r.op == Update ==> (r.srcType == D <==> r.key.Dividend?)
    ensures r.op == Update ==> Usable(s, LocalRows(b.txs, b.number), l)
  {
    RowsShape(s, b);
    var i :| 0 <= i < |Rows(s, b)| && Rows(s, b)[i] == r;
    assert ResolvedFrom(s, b, Rows(s, b)[i]);
    l :| IsResolvedOf(s, b, r, l);
    LocalRowShape(b.txs, b.number, l);
    var local := LocalRows(b.txs, b.number);
    if l.op == Update { IsUsable(s, local, l); }
  }

  // ---- Where the money of a block is ----

  /** The available sources, with the block's dividends and outputs. */
  ghost function Pool(s: Store, b: MoneyBlock, dividends: seq<SRow>): map<SourceKey, Source> {
    PutAll(PutAll(Available(s), dividends), Only(Rows(s, b), Create))
  }

  ghost function Left(s: Store, b: MoneyBlock, dividends: seq<SRow>): map<SourceKey, Source> {
    Pool(s, b, dividends) - Keys(Only(Rows(s, b), Update))
  }

  lemma FreshRows(s: Store, hashed: map<string, set<SourceKey>>, b: MoneyBlock, dividends: seq<SRow>)
    requires SoundSources(s, b.number, hashed) && Accepted(s, b) && HashesIdentify(hashed, b.txs)
    requires IsDividend(b, dividends)
    ensures DistinctKeys(dividends) && Keys(dividends) !! Available(s).Keys
    ensures forall i | 0 <= i < |dividends| :: dividends[i].key.Dividend?
    ensures DistinctKeys(Only(Rows(s, b), Create))
    ensures Keys(Only(Rows(s, b), Create)) !! PutAll(Available(s), dividends).Keys
  {
    NoReplay(s, hashed, b);
    RowsShape(s, b);
    PutAllContents(Available(s), dividends);
    forall i | 0 <= i < |dividends| ensures dividends[i].key.Dividend? && dividends[i].key !in Available(s) {
      DividendIsFresh(s, hashed, b, dividends, i);
    }
    var creates := Only(Rows(s, b), Create);
    forall i | 0 <= i < |creates| ensures creates[i].key !in PutAll(Available(s), dividends) {
      OutputIsFresh(s, hashed, b, dividends, creates[i]);
    }
  }

  lemma DividendIsFresh(
      s: Store, hashed: map<string, set<SourceKey>>, b: MoneyBlock, dividends: seq<SRow>, i: nat)
    requires SoundSources(s, b.number, hashed) && IsDividend(b, dividends) && i < |dividends|
    ensures dividends[i].key.Dividend? && dividends[i].key !in Available(s)
  {
    assert IsDividendRow(b, dividends[i]);
    assert dividends[i].key in s.creates ==> SoundCreation(s, b.number, hashed, dividends[i].key);
  }

  lemma OutputIsFresh(
      s: Store, hashed: map<string, set<SourceKey>>, b: MoneyBlock, dividends: seq<SRow>, r: SRow)
    requires SoundSources(s, b.number, hashed) && Accepted(s, b) && IsDividend(b, dividends)
    requires r in Rows(s, b) && r.op == Create && r.key !in s.creates
    ensures r.key !in Available(s).Keys + Keys(dividends)
  {
    var l := RowShape(s, b, r);
  }

  lemma PoolContents(s: Store, hashed: map<string, set<SourceKey>>, b: MoneyBlock, dividends: seq<SRow>)
    requires SoundSources(s, b.number, hashed) && Accepted(s, b) && HashesIdentify(hashed, b.txs)
    requires IsDividend(b, dividends)
    ensures Pool(s, b, dividends).Keys == Available(s).Keys + Keys(dividends) + Keys(Only(Rows(s, b), Create))
    ensures forall k | k in Available(s) :: Pool(s, b, dividends)[k] == Available(s)[k]
    ensures Holds(Pool(s, b, dividends), dividends) && Holds(Pool(s, b, dividends), Only(Rows(s, b), Create))
  {
    FreshRows(s, hashed, b, dividends);
    var creates := Only(Rows(s, b), Create);
    PutAllContents(Available(s), dividends);
    PutAllContents(PutAll(Available(s), dividends), creates);
    var pool := Pool(s, b, dividends);
    forall i | 0 <= i < |dividends| ensures HoldsRow(pool, dividends[i]) {
      assert dividends[i].key in PutAll(Available(s), dividends);
      assert dividends[i].key !in Keys(creates);
    }
    forall i | 0 <= i < |creates| ensures HoldsRow(pool, creates[i]) {
      assert creates[i].key in pool;
    }
  }

  /** Every consumption takes a source of the pool, at its worth and with its conditions. */
  lemma ConsumptionsArePooled(s: Store, hashed: map<string, set<SourceKey>>, b: MoneyBlock, dividends: seq<SRow>)
    requires SoundSources(s, b.number, hashed) && FitTxs(s, hashed, b) && IsDividend(b, dividends)
    ensures Holds(Pool(s, b, dividends), Only(Rows(s, b), Update))
  {
    PoolContents(s, hashed, b, dividends);
    var updates := Only(Rows(s, b), Update);
    forall i | 0 <= i < |updates| ensures HoldsRow(Pool(s, b, dividends), updates[i]) {
      ConsumptionIsPooled(s, hashed, b, dividends, updates[i]);
    }
  }

  lemma ConsumptionIsPooled(
      s: Store, hashed: map<string, set<SourceKey>>, b: MoneyBlock, dividends: seq<SRow>, r: SRow)
    requires SoundSources(s, b.number, hashed) && FitTxs(s, hashed, b) && IsDividend(b, dividends)
    requires r in Rows(s, b) && r.op == Update
    ensures HoldsRow(Pool(s, b, dividends), r)
  {
    PoolContents(s, hashed, b, dividends);
    RowsShape(s, b);
    var local := LocalRows(b.txs, b.number);
    var l := RowShape(s, b, r);
    var source := LocalSource(local, l.key);
    LocalSourceMeans(local, l.key);
    if source.Some? {
      var creates := Only(Rows(s, b), Create);
      OnlyMembers(local, Create, source.value);
      var i :| 0 <= i < |creates| && creates[i] == source.value;
      assert HoldsRow(Pool(s, b, dividends), creates[i]);
      var j :| 0 <= j < |local| && local[j] == l;
      assert local[j].op == Update && LocalSource(local, local[j].key).Some?;
    } else {
      GlobalSourceIsAvailable(s, hashed, b.number, local, l);
    }
  }

  lemma GlobalSourceIsAvailable(
      s: Store, hashed: map<string, set<SourceKey>>, next: nat, local: seq<SRow>, l: SRow)
    requires SoundSources(s, next, hashed) && Usable(s, local, l) && LocalSource(local, l.key).None?
    requires l.srcType == D <==> l.key.Dividend?
    ensures l.key in Available(s) && Available(s)[l.key] == Source(l.amount, ConditionsOf(s, local, l))
  {
    assert l.key in s.updates ==> SoundConsumption(s, next, l.key);
    assert l.key in s.creates ==> SoundCreation(s, next, hashed, l.key);
  }
}
