/** Histories that interleave saves, reverts and trimming: the stores are those of the run that saves
    the blocks of the current chain, trimmed, as long as the blocks that were reverted revert cleanly. */
module LedgerHistory {
  import opened Outcomes
  import opened Sources
  import opened SourceSums
  import opened Money
  import opened MoneySteps
  import opened DoubleSpend
  import opened MoneyRevert
  import opened Identities
  import opened Wot
  import opened WotLinks
  import opened Ledger
  import opened LedgerRevert
  import opened Trimming
  import Heads

  /** What is recorded of a block on the chain. */
  datatype Entry = Entry(
    incoming: Heads.Incoming, head: Heads.Head, idty: IdtyBlock, marks: seq<IRow>, certs: seq<CRow>,
    block: MoneyBlock, dividends: seq<SRow>, garbage: seq<SRow>)

  /** The current chain and the stores; what was consumed before block `cut` is trimmed. */
  datatype State = State(entries: seq<Entry>, web: Web, store: Store, cut: nat)

  const START := State([], NO_WEB, EMPTY, 0)

  function HeadsOf(entries: seq<Entry>): seq<Heads.Head> {
    seq(|entries|, i requires 0 <= i < |entries| => entries[i].head)
  }

  /** The next block is accepted on the stores as they are, and saved. */
  ghost predicate Accepts(conf: Heads.Conf, hashed: map<string, set<SourceKey>>, st: State, e: Entry, st': State) {
    var n := |st.entries|;
    && st'.entries == st.entries + [e] && st'.cut == st.cut
    && Heads.IsNextHead(conf, HeadsOf(st.entries), e.incoming, e.head)
    && CountedIn(e.incoming, e.idty)
    && IdentityStepOn(st.web, n, e.idty, e.marks, e.certs, st'.web)
    && MoneyStepOn(st.store, hashed, n, e.head, st.web, e.idty, e.block, e.dividends, e.garbage, st'.store)
  }

  /** The last block is reverted. */
  ghost predicate RevertsAnyhow(st: State, u: Undo, st': State) {
    && st.entries != [] && st'.cut == st.cut
    && var n := |st.entries| - 1;
       st'.entries == st.entries[..n] && BlockReverted(st.web, st.store, n, u, st'.web, st'.store)
  }

  /** The last block, which is not older than the trimming, is reverted, and reverts cleanly. */
  ghost predicate Reverts(st: State, u: Undo, st': State) {
    && RevertsAnyhow(st, u, st') && st.cut < |st.entries|
    && var e := st.entries[|st.entries| - 1]; RevertsCleanly(st'.web, e.idty, e.certs, e.block)
  }

  /** What was consumed before block `below` is trimmed. */
  ghost predicate Trims(st: State, below: nat, st': State) {
    && below <= |st.entries|
    && st' == st.(store := Trimmed(st.store, below), cut := if st.cut <= below then below else st.cut)
  }

  ghost predicate Moves(conf: Heads.Conf, hashed: map<string, set<SourceKey>>, st: State, st': State) {
    || (exists e :: Accepts(conf, hashed, st, e, st'))
    || (exists u :: Reverts(st, u, st'))
    || (exists below: nat :: Trims(st, below, st'))
  }

  ghost predicate History(conf: Heads.Conf, hashed: map<string, set<SourceKey>>, h: seq<State>) {
    && h != [] && h[0] == START
    && forall i | 0 <= i < |h| - 1 :: Moves(conf, hashed, h[i], h[i + 1])
  }

  // ---- Runs and states ----

  ghost predicate EntryIs(l: Run, i: nat, e: Entry)
    requires Shaped(l) && i < |l.incoming|
  {
    e == Entry(l.incoming[i], l.heads[i], l.idty[i], l.marks[i], l.certs[i],
               l.trace.blocks[i], l.trace.dividends[i], l.trace.garbage[i])
  }

  ghost predicate EntriesAre(l: Run, entries: seq<Entry>)
    requires Shaped(l)
  {
    |entries| == |l.incoming| && forall i | 0 <= i < |entries| :: EntryIs(l, i, entries[i])
  }

  /** The run saves the blocks of the current chain, one after the other, and ends in these stores, up
      to what is trimmed. */
  ghost predicate Represents(l: Run, conf: Heads.Conf, hashed: map<string, set<SourceKey>>, st: State) {
    && LedgerRun(l) && l.conf == conf && l.hashed == hashed
    && EntriesAre(l, st.entries)
    && l.webs[|st.entries|] == st.web
    && st.cut <= |st.entries| && SameMoney(st.store, Trimmed(l.trace.stores[|st.entries|], st.cut))
  }

  function Extended(l: Run, e: Entry, web: Web, store: Store): Run {
    Run(l.conf, l.incoming + [e.incoming], l.heads + [e.head], l.idty + [e.idty], l.marks + [e.marks],
        l.certs + [e.certs], l.webs + [web],
        Trace(l.trace.blocks + [e.block], l.trace.dividends + [e.dividends], l.trace.garbage + [e.garbage],
              l.trace.stores + [store]),
        l.hashed)
  }

  function Cut(l: Run, n: nat): Run
    requires Shaped(l) && n <= |l.incoming|
  {
    Run(l.conf, l.incoming[..n], l.heads[..n], l.idty[..n], l.marks[..n], l.certs[..n], l.webs[..n + 1],
        Trace(l.trace.blocks[..n], l.trace.dividends[..n], l.trace.garbage[..n], l.trace.stores[..n + 1]), l.hashed)
  }

  /** The step of one run at `i` is that of another. */
  ghost predicate SameStep(l: Run, m: Run, i: nat)
    requires Shaped(l) && Shaped(m) && i < |l.incoming| && i < |m.incoming|
  {
    && l.incoming[i] == m.incoming[i] && l.heads[i] == m.heads[i] && l.idty[i] == m.idty[i]
    && l.marks[i] == m.marks[i] && l.certs[i] == m.certs[i]
    && l.webs[i] == m.webs[i] && l.webs[i + 1] == m.webs[i + 1]
    && l.trace.blocks[i] == m.trace.blocks[i] && l.trace.dividends[i] == m.trace.dividends[i]
    && l.trace.garbage[i] == m.trace.garbage[i]
    && l.trace.stores[i] == m.trace.stores[i] && l.trace.stores[i + 1] == m.trace.stores[i + 1]
    && l.hashed == m.hashed
  }

  lemma StepCarriesOver(l: Run, m: Run, i: nat)
    requires Shaped(l) && Shaped(m) && i < |l.incoming| && i < |m.incoming| && SameStep(l, m, i)
    requires IdentityStep(l, i) && MoneyStep(l, i) && Counted(l, i)
    ensures IdentityStep(m, i) && MoneyStep(m, i) && Counted(m, i)
  {}

  lemma HeadCarriesOver(conf: Heads.Conf, blocks: seq<Heads.Incoming>, heads: seq<Heads.Head>,
                        blocks': seq<Heads.Incoming>, heads': seq<Heads.Head>, i: nat)
    requires i < |blocks| && i < |heads| && i < |blocks'| && i < |heads'|
    requires blocks[i] == blocks'[i] && heads[..i + 1] == heads'[..i + 1]
    requires Heads.HeadAt(conf, blocks, heads, i)
    ensures Heads.HeadAt(conf, blocks', heads', i)
  {
    assert heads[..i] == heads[..i + 1][..i] && heads'[..i] == heads'[..i + 1][..i];
    assert heads[i] == heads[..i + 1][i] && heads'[i] == heads'[..i + 1][i];
  }

  /** A run may be cut after any block. */
  lemma CutIsRun(l: Run, n: nat)
    requires LedgerRun(l) && n <= |l.incoming|
    ensures LedgerRun(Cut(l, n))
  {
    var m := Cut(l, n);
    forall i: nat | i < n ensures Heads.HeadAt(m.conf, m.incoming, m.heads, i) {
      assert Heads.HeadAt(l.conf, l.incoming, l.heads, i);
      assert l.heads[..n][..i + 1] == l.heads[..i + 1];
      HeadCarriesOver(l.conf, l.incoming, l.heads, m.incoming, m.heads, i);
    }
    forall i: nat | i < n ensures IdentityStep(m, i) && MoneyStep(m, i) && Counted(m, i) {
      StepCarriesOver(l, m, i);
    }
  }

  /** The entry is the next step of the run. */
  ghost predicate NextStep(l: Run, e: Entry, web: Web, store: Store)
    requires Shaped(l)
  {
    var n := |l.incoming|;
    && CountedIn(e.incoming, e.idty)
    && IdentityStepOn(l.webs[n], n, e.idty, e.marks, e.certs, web)
    && MoneyStepOn(l.trace.stores[n], l.hashed, n, e.head, l.webs[n], e.idty, e.block, e.dividends, e.garbage, store)
  }

  lemma LastStepIs(l: Run, e: Entry, web: Web, store: Store)
    requires Shaped(l) && NextStep(l, e, web, store)
    ensures var m, n := Extended(l, e, web, store), |l.incoming|;
            Shaped(m) && IdentityStep(m, n) && MoneyStep(m, n) && Counted(m, n)
  {}

  lemma OldSteps(l: Run, e: Entry, web: Web, store: Store)
    requires LedgerRun(l)
    ensures var m := Extended(l, e, web, store);
            Shaped(m) && forall i: nat | i < |l.incoming| :: IdentityStep(m, i) && MoneyStep(m, i) && Counted(m, i)
  {
    var m := Extended(l, e, web, store);
    forall i: nat | i < |l.incoming| ensures IdentityStep(m, i) && MoneyStep(m, i) && Counted(m, i) {
      StepCarriesOver(l, m, i);
    }
  }

  lemma OneMoreStep(m: Run, n: nat)
    requires Shaped(m) && |m.incoming| == n + 1
    requires forall i: nat | i < n :: IdentityStep(m, i) && MoneyStep(m, i) && Counted(m, i)
    requires IdentityStep(m, n) && MoneyStep(m, n) && Counted(m, n)
    ensures forall i: nat | i < n + 1 :: IdentityStep(m, i) && MoneyStep(m, i) && Counted(m, i)
  {
    forall i: nat | i < n + 1 ensures IdentityStep(m, i) && MoneyStep(m, i) && Counted(m, i) {
      if i == n { assert IdentityStep(m, i); }
    }
  }

  /** A run may be extended by an accepted block. */
  lemma ExtensionIsRun(l: Run, e: Entry, web: Web, store: Store)
    requires LedgerRun(l) && NextStep(l, e, web, store)
    requires Heads.IsNextHead(l.conf, l.heads, e.incoming, e.head)
    ensures LedgerRun(Extended(l, e, web, store))
  {
    var m, n := Extended(l, e, web, store), |l.incoming|;
    LastStepIs(l, e, web, store);
    HeadsExtend(l.conf, l.incoming, l.heads, e.incoming, e.head);
    OldSteps(l, e, web, store);
    OneMoreStep(m, n);
  }

  lemma HeadsExtend(conf: Heads.Conf, blocks: seq<Heads.Incoming>, heads: seq<Heads.Head>,
                    b: Heads.Incoming, head: Heads.Head)
    requires Heads.Run(conf, blocks, heads) && Heads.IsNextHead(conf, heads, b, head)
    ensures Heads.Run(conf, blocks + [b], heads + [head])
  {
    var n, all := |blocks|, heads + [head];
    forall i: nat | i < n + 1 ensures Heads.HeadAt(conf, blocks + [b], all, i) {
      if i < n {
        assert Heads.HeadAt(conf, blocks, heads, i);
        assert all[..i + 1] == heads[..i + 1];
        HeadCarriesOver(conf, blocks, heads, blocks + [b], all, i);
      } else {
        assert all[..n] == heads;
      }
    }
  }

  // ---- The money side looks at balances only ----

  lemma {:induction false} ResolvedAlike(s: Store, t: Store, local: seq<SRow>, n: nat)
    requires n <= |local| && t == s.(wallets := t.wallets)
    ensures Resolved(s, local, n) == Resolved(t, local, n)
  {
    if n > 0 {
      ResolvedAlike(s, t, local, n - 1);
    }
  }

  lemma AcceptedAlike(s: Store, t: Store, hashed: map<string, set<SourceKey>>, b: MoneyBlock)
    requires t == s.(wallets := t.wallets) && FitTxs(s, hashed, b)
    ensures FitTxs(t, hashed, b) && Rows(t, b) == Rows(s, b)
  {
    var local := LocalRows(b.txs, b.number);
    ResolvedAlike(s, t, local, |local|);
    forall i | 0 <= i < |local| && local[i].op == Update ensures Usable(t, local, local[i]) {
      assert Usable(s, local, local[i]);
    }
  }

  lemma GarbagedAlike(s: Store, t: Store, entries: seq<SRow>, unitBase: nat, r: SRow)
    requires SameMoney(s, t)
    ensures Garbaged(s, entries, unitBase, r) <==> Garbaged(t, entries, unitBase, r)
  {
    assert Balance(s.wallets, r.conditions) == Balance(t.wallets, r.conditions);
  }

  lemma GarbageAlike(s: Store, t: Store, entries: seq<SRow>, b: MoneyBlock, garbage: seq<SRow>)
    requires SameMoney(s, t) && IsGarbage(s, entries, b, garbage)
    ensures IsGarbage(t, entries, b, garbage)
  {
    forall r ensures Garbaged(s, entries, b.unitBase, r) <==> Garbaged(t, entries, b.unitBase, r) {
      GarbagedAlike(s, t, entries, b.unitBase, r);
    }
    forall i | 0 <= i < |garbage| ensures IsGarbageRow(t, entries, b, garbage[i]) {
      assert IsGarbageRow(s, entries, b, garbage[i]);
    }
  }

  lemma MovedAlike(before: map<string, int>, before': map<string, int>, sindex: seq<SRow>, dividends: seq<SRow>,
                   reverse: bool, after: map<string, int>)
    requires forall c {:trigger Balance(before, c)} :: Balance(before, c) == Balance(before', c)
    requires WalletsMoved(before, sindex, dividends, reverse, after)
    ensures WalletsMoved(before', sindex, dividends, reverse, after)
  {
    forall c ensures Balance(after, c) ==
                     Balance(before', c) + Signed(reverse, Variation(sindex, c) + RowSum(dividends, Some(c)))
    {
      assert Balance(before, c) == Balance(before', c);
    }
  }

  lemma StoresAlike(s: Store, t: Store)
    requires SameMoney(s, t)
    ensures t == s.(wallets := t.wallets)
  {}

  lemma MoneyStepAlike(
      s: Store, t: Store, hashed: map<string, set<SourceKey>>, i: nat, h: Heads.Head, w: Web, idty: IdtyBlock,
      b: MoneyBlock, dividends: seq<SRow>, garbage: seq<SRow>, after: Store)
    requires SameMoney(s, t) && MoneyStepOn(s, hashed, i, h, w, idty, b, dividends, garbage, after)
    ensures MoneyStepOn(t, hashed, i, h, w, idty, b, dividends, garbage, after)
  {
    StoresAlike(s, t);
    AcceptedAlike(s, t, hashed, b);
    GarbageAlike(s, t, Rows(s, b) + dividends, b, garbage);
    MovedAlike(s.wallets, t.wallets, Rows(s, b) + garbage, dividends, false, after.wallets);
  }

  lemma RevertAlike(s: Store, t: Store, number: nat, newcomers: set<string>, u: Undo, back: Store)
    requires SameMoney(s, t) && MoneyReverted(s, number, newcomers, u, back)
    ensures MoneyReverted(t, number, newcomers, u, back)
  {
    StoresAlike(s, t);
    MovedAlike(s.wallets, t.wallets, [], u.destroyed, true, u.wallets1);
  }

  // ---- The history is that of the current chain ----

  lemma StartIsRun(conf: Heads.Conf, hashed: map<string, set<SourceKey>>) returns (l: Run)
    ensures Represents(l, conf, hashed, START)
  {
    l := Run(conf, [], [], [], [], [], [NO_WEB], Trace([], [], [], [EMPTY]), hashed);
    assert EMPTY == Trimmed(EMPTY, 0);
  }

  lemma HeadsOfRun(l: Run, entries: seq<Entry>)
    requires LedgerRun(l) && EntriesAre(l, entries)
    ensures HeadsOf(entries) == l.heads
  {
    forall i | 0 <= i < |entries| ensures HeadsOf(entries)[i] == l.heads[i] {
      assert EntryIs(l, i, entries[i]);
    }
  }

  lemma EntriesExtend(l: Run, entries: seq<Entry>, e: Entry, web: Web, store: Store)
    requires Shaped(l) && EntriesAre(l, entries)
    ensures Shaped(Extended(l, e, web, store)) && EntriesAre(Extended(l, e, web, store), entries + [e])
  {
    var m := Extended(l, e, web, store);
    forall i | 0 <= i < |entries| + 1 ensures EntryIs(m, i, (entries + [e])[i]) {
      if i < |entries| {
        assert EntryIs(l, i, entries[i]);
      }
    }
  }

  /** The stores of a run are sound before its next block, which is fit. */
  lemma NextIsFit(l: Run, e: Entry, small: Store, after: Store)
    requires LedgerRun(l) && l.conf.ud0 >= ACCOUNT_MINIMUM
    requires Heads.IsNextHead(l.conf, l.heads, e.incoming, e.head)
    requires var n := |l.incoming|;
             MoneyStepOn(small, l.hashed, n, e.head, l.webs[n], e.idty, e.block, e.dividends, e.garbage, after)
    ensures Sound(l.trace.stores[|l.incoming|], |l.incoming|, l.hashed) && Fit(small, l.hashed, e.block)
  {
    var n := |l.incoming|;
    IsMoneyRun(l);
    RunIsSound(l.trace, l.hashed, n);
    HeadsExtend(l.conf, l.incoming, l.heads, e.incoming, e.head);
    HeadDividendIsEnough(l.conf, l.incoming + [e.incoming], l.heads + [e.head], n);
    assert (l.heads + [e.head])[n] == e.head;
  }

  /** A step on trimmed stores is a step on the whole ones. */
  lemma MoneyStepOnTrimmed(
      s: Store, below: nat, hashed: map<string, set<SourceKey>>, i: nat, h: Heads.Head, w: Web, idty: IdtyBlock,
      b: MoneyBlock, dividends: seq<SRow>, garbage: seq<SRow>, after: Store)
    requires Sound(s, i, hashed) && below <= i && Fit(Trimmed(s, below), hashed, b)
    requires MoneyStepOn(Trimmed(s, below), hashed, i, h, w, idty, b, dividends, garbage, after)
    ensures var whole := Untrimmed(s, b, dividends, garbage, after.wallets);
            && MoneyStepOn(s, hashed, i, h, w, idty, b, dividends, garbage, whole)
            && after == Trimmed(whole, below)
  {
    StepOnTrimmed(s, hashed, b, below, dividends, garbage, after);
    FlushOnTrimmed(s, hashed, b, below, dividends, garbage, after);
  }

  lemma AcceptedIsRun(l: Run, conf: Heads.Conf, hashed: map<string, set<SourceKey>>, st: State, e: Entry, st': State)
    returns (m: Run)
    requires Represents(l, conf, hashed, st) && Accepts(conf, hashed, st, e, st') && conf.ud0 >= ACCOUNT_MINIMUM
    ensures Represents(m, conf, hashed, st')
  {
    var n := |st.entries|;
    var s := l.trace.stores[n];
    var small := Trimmed(s, st.cut);
    HeadsOfRun(l, st.entries);
    MoneyStepAlike(st.store, small, hashed, n, e.head, st.web, e.idty, e.block, e.dividends, e.garbage, st'.store);
    NextIsFit(l, e, small, st'.store);
    MoneyStepOnTrimmed(s, st.cut, hashed, n, e.head, st.web, e.idty, e.block, e.dividends, e.garbage, st'.store);
    var whole := Untrimmed(s, e.block, e.dividends, e.garbage, st'.store.wallets);
    m := Extended(l, e, st'.web, whole);
    ExtensionIsRun(l, e, st'.web, whole);
    EntriesExtend(l, st.entries, e, st'.web, whole);
  }

  lemma EntriesOfCut(l: Run, entries: seq<Entry>, n: nat)
    requires Shaped(l) && EntriesAre(l, entries) && n <= |entries|
    ensures Shaped(Cut(l, n)) && EntriesAre(Cut(l, n), entries[..n])
  {
    forall i | 0 <= i < n ensures EntryIs(Cut(l, n), i, entries[..n][i]) {
      assert EntryIs(l, i, entries[i]);
    }
  }

  lemma TrimAlike(s: Store, t: Store, below: nat)
    requires SameMoney(s, t)
    ensures SameMoney(Trimmed(s, below), Trimmed(t, below))
  {
    forall c ensures Balance(s.wallets, c) == Balance(t.wallets, c) {
    }
  }

  /** What the revert leaves of the money, up to what is trimmed. */
  lemma MoneyIsBack(l: Run, st: State, u: Undo, backWeb: Web, back: Store)
    requires LedgerRun(l) && l.conf.ud0 >= ACCOUNT_MINIMUM && 0 < |st.entries| == |l.incoming|
    requires st.web == l.webs[|st.entries|] && st.cut < |st.entries|
    requires SameMoney(st.store, Trimmed(l.trace.stores[|st.entries|], st.cut))
    requires BlockReverted(st.web, st.store, |st.entries| - 1, u, backWeb, back)
    ensures var n := |st.entries| - 1;
            var newcomers := ToSet(Creations(OfBlock(st.web.log, n)));
            var whole := RevertedWhole(l.trace.stores[n + 1], n, newcomers, u, back.wallets);
            BlockReverted(st.web, l.trace.stores[n + 1], n, u, backWeb, whole) && back == Trimmed(whole, st.cut)
  {
    var n := |st.entries| - 1;
    var newcomers := ToSet(Creations(OfBlock(st.web.log, n)));
    IsMoneyRun(l);
    RunIsSound(l.trace, l.hashed, n + 1);
    RevertAlike(st.store, Trimmed(l.trace.stores[n + 1], st.cut), n, newcomers, u, back);
    RevertOnTrimmed(l.trace.stores[n + 1], l.hashed, n + 1, st.cut, n, newcomers, u, back);
  }

  lemma RevertedIsRun(l: Run, conf: Heads.Conf, hashed: map<string, set<SourceKey>>, st: State, u: Undo, st': State)
    requires Represents(l, conf, hashed, st) && Reverts(st, u, st') && conf.ud0 >= ACCOUNT_MINIMUM
    ensures Represents(Cut(l, |st.entries| - 1), conf, hashed, st')
  {
    var n := |st.entries| - 1;
    var newcomers := ToSet(Creations(OfBlock(st.web.log, n)));
    var whole := RevertedWhole(l.trace.stores[n + 1], n, newcomers, u, st'.store.wallets);
    assert EntryIs(l, n, st.entries[n]);
    MoneyIsBack(l, st, u, st'.web, st'.store);
    RevertUndoesBlock(l, n, u, st'.web, whole);
    CleanBefore(st'.web, l.webs[n], st.entries[n]);
    TrimAlike(whole, l.trace.stores[n], st.cut);
    CutIsRun(l, n);
    EntriesOfCut(l, st.entries, n);
  }

  lemma TrimmedIsRun(l: Run, conf: Heads.Conf, hashed: map<string, set<SourceKey>>, st: State, below: nat, st': State)
    requires Represents(l, conf, hashed, st) && Trims(st, below, st')
    ensures Represents(l, conf, hashed, st')
  {
    var s := l.trace.stores[|st.entries|];
    TrimAlike(st.store, Trimmed(s, st.cut), below);
    TrimmedTwice(s, st.cut, below);
  }

  /** The condition reads the certification index only. */
  lemma CleanBefore(back: Web, before: Web, e: Entry)
    requires back == before.(links := back.links) && RevertsCleanly(back, e.idty, e.certs, e.block)
    ensures RevertsCleanly(before, e.idty, e.certs, e.block)
  {
    forall i | 0 <= i < |e.certs| ensures !StaysReplayed(before, e.certs, i) {
      assert !StaysReplayed(back, e.certs, i);
    }
  }

  /** In every state of a history, however many blocks were saved and reverted and whatever was trimmed,
      the stores are those of the run that saves the blocks of the current chain, trimmed: the same
      identities, sources, dividends and balances. */
  lemma {:induction false} HistoryIsForgotten(
      conf: Heads.Conf, hashed: map<string, set<SourceKey>>, h: seq<State>, i: nat) returns (l: Run)
    requires History(conf, hashed, h) && i < |h| && conf.ud0 >= ACCOUNT_MINIMUM
    ensures Represents(l, conf, hashed, h[i])
    decreases i
  {
    if i == 0 {
      l := StartIsRun(conf, hashed);
    } else {
      var j := i - 1;
      var m := HistoryIsForgotten(conf, hashed, h, j);
      assert Moves(conf, hashed, h[j], h[j + 1]);
      l := MoveIsRun(m, conf, hashed, h[j], h[i]);
    }
  }

  lemma MoveIsRun(m: Run, conf: Heads.Conf, hashed: map<string, set<SourceKey>>, st: State, st': State) returns (l: Run)
    requires Represents(m, conf, hashed, st) && Moves(conf, hashed, st, st') && conf.ud0 >= ACCOUNT_MINIMUM
    ensures Represents(l, conf, hashed, st')
  {
    if e :| Accepts(conf, hashed, st, e, st') {
      l := AcceptedIsRun(m, conf, hashed, st, e, st');
    } else if u :| Reverts(st, u, st') {
      RevertedIsRun(m, conf, hashed, st, u, st');
      l := Cut(m, |st.entries| - 1);
    } else {
      var below: nat :| Trims(st, below, st');
      TrimmedIsRun(m, conf, hashed, st, below, st');
      l := m;
    }
  }

  lemma TrimmedAgrees(s: Store, hashed: map<string, set<SourceKey>>, next: nat, below: nat)
    requires Sound(s, next, hashed)
    ensures WalletsAgree(Trimmed(s, below)) && Supply(Trimmed(s, below)) == Supply(s)
  {
    AvailableWhenTrimmed(s, hashed, next, below);
    forall c ensures Balance(s.wallets, c) == Sum(Available(Trimmed(s, below)), Some(c)) {
      assert Balance(s.wallets, c) == Sum(Available(s), Some(c));
    }
  }

  lemma AgreeAlike(s: Store, t: Store)
    requires SameMoney(t, s) && WalletsAgree(s)
    ensures WalletsAgree(t) && Supply(t) == Supply(s)
  {
    StoresAlike(t, s);
    assert Available(t) == Available(s);
    forall c ensures Balance(t.wallets, c) == Sum(Available(t), Some(c)) {
      assert Available(t) == Available(s);
      assert Balance(t.wallets, c) == Balance(s.wallets, c);
    }
  }

  /** So what runs keep holds in every state of a history: wallets agree with the sources, and the
      links, nodes and flags with the certifications and the members. */
  lemma HistoryIsSound(conf: Heads.Conf, hashed: map<string, set<SourceKey>>, h: seq<State>, i: nat)
    requires History(conf, hashed, h) && i < |h| && conf.ud0 >= ACCOUNT_MINIMUM
    ensures WalletsAgree(h[i].store)
    ensures SoundWeb(h[i].web, |h[i].entries|) && SoundLinks(h[i].web)
  {
    var n := |h[i].entries|;
    var l := HistoryIsForgotten(conf, hashed, h, i);
    IsMoneyRun(l);
    RunIsSound(l.trace, l.hashed, n);
    WebIsSound(l, n);
    LinksAreSound(l, n);
    TrimmedAgrees(l.trace.stores[n], l.hashed, n, h[i].cut);
    AgreeAlike(Trimmed(l.trace.stores[n], h[i].cut), h[i].store);
  }

  /** The account of the money in every state of a history, over the blocks of the current chain. */
  lemma HistoryIsAccountedFor(conf: Heads.Conf, hashed: map<string, set<SourceKey>>, h: seq<State>, i: nat)
    returns (l: Run)
    requires History(conf, hashed, h) && i < |h| && conf.ud0 >= ACCOUNT_MINIMUM
    ensures Represents(l, conf, hashed, h[i])
    ensures var n := |h[i].entries|;
            && Supply(h[i].store) + GarbagedUpTo(l, n) == MassBefore(l, n) + UncountedUpTo(l, n)
            && (Supply(h[i].store) + GarbagedUpTo(l, n) == MassBefore(l, n) <==> forall k | 0 <= k < n :: Regular(l, k))
  {
    var n := |h[i].entries|;
    l := HistoryIsForgotten(conf, hashed, h, i);
    IsMoneyRun(l);
    RunIsSound(l.trace, l.hashed, n);
    TrimmedAgrees(l.trace.stores[n], l.hashed, n, h[i].cut);
    AgreeAlike(Trimmed(l.trace.stores[n], h[i].cut), h[i].store);
    MoneyIsAccountedFor(l, n);
    MoneyIsConserved(l, n);
  }
}
