/** Histories in which blocks are saved and reverted, cleanly or not. Sources, dividends, indexes, nodes
    and flags are those of the current chain all the same, no source is spent twice, and a wallet is
    never below its sources: what a revert leaves behind is too much. */
module UncleanHistory {
  import opened Outcomes
  import opened Sources
  import opened SourceSums
  import opened Money
  import opened MoneySteps
  import opened MoneyEffect
  import opened MoneyRuns
  import opened DoubleSpend
  import opened MoneyRevert
  import opened Identities
  import opened Wot
  import opened WotLinks
  import opened Ledger
  import opened LedgerRevert
  import opened LedgerHistory
  import Heads

  ghost predicate MovesAnyhow(conf: Heads.Conf, hashed: map<string, set<SourceKey>>, st: State, st': State) {
    || (exists e :: Accepts(conf, hashed, st, e, st'))
    || (exists u :: RevertsAnyhow(st, u, st'))
  }

  ghost predicate AnyHistory(conf: Heads.Conf, hashed: map<string, set<SourceKey>>, h: seq<State>) {
    && h != [] && h[0] == START
    && forall i | 0 <= i < |h| - 1 :: MovesAnyhow(conf, hashed, h[i], h[i + 1])
  }

  // ---- The stores as they should be ----

  /** The stores before each block of a chain and after the last, with the links and the wallets that
      the sources and certifications call for. */
  datatype Track = Track(webs: seq<Web>, stores: seq<Store>)

  ghost predicate Good(w: Web, s: Store, i: nat, hashed: map<string, set<SourceKey>>) {
    SoundWeb(w, i) && SoundLinks(w) && OwnersIn(s, w.flags.Keys) && Sound(s, i, hashed)
  }

  ghost predicate EntryStep(
      hashed: map<string, set<SourceKey>>, n: nat, e: Entry, w: Web, s: Store, w': Web, s': Store)
  {
    && IdentityStepOn(w, n, e.idty, e.marks, e.certs, w')
    && e.block.number == n && e.block.producers == ProducersOf(w, e.idty)
    && Applied(s, hashed, e.block, e.dividends, e.garbage, s')
  }

  ghost predicate Tracks(t: Track, hashed: map<string, set<SourceKey>>, entries: seq<Entry>) {
    && |t.webs| == |entries| + 1 && |t.stores| == |entries| + 1 && t.stores[0] == EMPTY
    && AllGood(t, hashed) && AllEntries(t, hashed, entries)
  }

  ghost predicate AllGood(t: Track, hashed: map<string, set<SourceKey>>) {
    |t.webs| == |t.stores| && forall i | 0 <= i < |t.webs| :: Good(t.webs[i], t.stores[i], i, hashed)
  }

  ghost predicate AllEntries(t: Track, hashed: map<string, set<SourceKey>>, entries: seq<Entry>) {
    && |t.webs| == |entries| + 1 && |t.stores| == |entries| + 1
    && forall i | 0 <= i < |entries| :: EntryAt(t, hashed, entries, i)
  }

  ghost predicate EntryAt(t: Track, hashed: map<string, set<SourceKey>>, entries: seq<Entry>, i: nat)
    requires i < |entries| && i + 1 < |t.webs| && i + 1 < |t.stores|
  {
    EntryStep(hashed, i, entries[i], t.webs[i], t.stores[i], t.webs[i + 1], t.stores[i + 1])
  }

  lemma EntryCarriesOver(
      t: Track, m: Track, hashed: map<string, set<SourceKey>>, entries: seq<Entry>, entries': seq<Entry>, i: nat)
    requires i < |entries| && i + 1 < |t.webs| && i + 1 < |t.stores|
    requires i < |entries'| && i + 1 < |m.webs| && i + 1 < |m.stores|
    requires entries[i] == entries'[i] && t.webs[i] == m.webs[i] && t.stores[i] == m.stores[i]
    requires t.webs[i + 1] == m.webs[i + 1] && t.stores[i + 1] == m.stores[i + 1]
    requires EntryAt(t, hashed, entries, i)
    ensures EntryAt(m, hashed, entries', i)
  {}

  /** The same sources and dividends, and no wallet below. */
  ghost predicate Covers(s: Store, exact: Store) {
    && s == exact.(wallets := s.wallets)
    && forall c {:trigger Balance(s.wallets, c)} :: Balance(s.wallets, c) >= Balance(exact.wallets, c)
  }

  function IncomingsOf(entries: seq<Entry>): seq<Heads.Incoming> {
    seq(|entries|, i requires 0 <= i < |entries| => entries[i].incoming)
  }

  ghost predicate Follows(t: Track, conf: Heads.Conf, hashed: map<string, set<SourceKey>>, st: State) {
    var n := |st.entries|;
    && Heads.Run(conf, IncomingsOf(st.entries), HeadsOf(st.entries))
    && Tracks(t, hashed, st.entries)
    && st.web == t.webs[n].(links := st.web.links) && Covers(st.store, t.stores[n])
  }

  // ---- Wallets, moved aside ----

  function Shifted(w: map<string, int>, from: map<string, int>, to: map<string, int>): map<string, int> {
    map c | c in w.Keys + from.Keys + to.Keys :: Balance(w, c) - Balance(from, c) + Balance(to, c)
  }

  lemma ShiftedBalance(w: map<string, int>, from: map<string, int>, to: map<string, int>, c: string)
    ensures Balance(Shifted(w, from, to), c) == Balance(w, c) - Balance(from, c) + Balance(to, c)
  {}

  lemma ShiftedMoves(
      before: map<string, int>, sindex: seq<SRow>, dividends: seq<SRow>, reverse: bool, after: map<string, int>,
      from: map<string, int>, to: map<string, int>)
    requires WalletsMoved(before, sindex, dividends, reverse, after)
    ensures WalletsMoved(Shifted(before, from, to), sindex, dividends, reverse, Shifted(after, from, to))
  {
    forall c
      ensures Balance(Shifted(after, from, to), c) ==
              Balance(Shifted(before, from, to), c)
              + Signed(reverse, Variation(sindex, c) + RowSum(dividends, Some(c)))
    {
      ShiftedBalance(before, from, to, c);
      ShiftedBalance(after, from, to, c);
      assert Balance(after, c) ==
             Balance(before, c) + Signed(reverse, Variation(sindex, c) + RowSum(dividends, Some(c)));
    }
  }

  /** Wallets that move from where they are move likewise from where they should be. */
  lemma MovesLikewise(
      before: map<string, int>, sindex: seq<SRow>, dividends: seq<SRow>, reverse: bool, after: map<string, int>,
      exact: map<string, int>)
    requires WalletsMoved(before, sindex, dividends, reverse, after)
    ensures WalletsMoved(exact, sindex, dividends, reverse, Shifted(after, before, exact))
  {
    ShiftedMoves(before, sindex, dividends, reverse, after, before, exact);
    MovedAlike(Shifted(before, before, exact), exact, sindex, dividends, reverse, Shifted(after, before, exact));
  }

  // ---- Saving a block ----

  lemma WebStepLikewise(
      w: Web, exact: Web, i: nat, b: IdtyBlock, marks: seq<IRow>, certs: seq<CRow>, after: Web)
    returns (exactAfter: Web)
    requires w == exact.(links := w.links) && IdentityStepOn(w, i, b, marks, certs, after)
    ensures after == exactAfter.(links := after.links) && IdentityStepOn(exact, i, b, marks, certs, exactAfter)
  {
    exactAfter := after.(links := Linked(exact.links, after.ids, certs, false));
    assert MembershipsSaved(exact.mindex, b, exactAfter.mindex);
  }

  lemma GarbageLikewise(s: Store, exact: Store, entries: seq<SRow>, b: MoneyBlock, garbage: seq<SRow>)
    requires Covers(s, exact) && SomeGarbage(s, entries, b, garbage)
    ensures SomeGarbage(exact, entries, b, garbage)
  {
    forall i | 0 <= i < |garbage| ensures IsGarbageRow(exact, entries, b, garbage[i]) {
      assert IsGarbageRow(s, entries, b, garbage[i]);
      var r :| Garbaged(s, entries, b.unitBase, r) && garbage[i] == GarbageRow(r, b.number);
      assert Balance(s.wallets, r.conditions) >= Balance(exact.wallets, r.conditions);
      assert Garbaged(exact, entries, b.unitBase, r);
    }
  }

  /** What a wallet is too high makes the garbage rule take less, never more. */
  lemma MoneyStepLikewise(
      s: Store, exact: Store, hashed: map<string, set<SourceKey>>, b: MoneyBlock, dividends: seq<SRow>,
      garbage: seq<SRow>, after: Store) returns (exactAfter: Store)
    requires Covers(s, exact) && FitTxs(s, hashed, b) && Step(s, b, dividends, garbage, after)
    ensures Covers(after, exactAfter)
    ensures FitTxs(exact, hashed, b) && PartStep(exact, b, dividends, garbage, exactAfter)
  {
    AcceptedAlike(s, exact, hashed, b);
    GarbageLikewise(s, exact, Rows(s, b) + dividends, b, garbage);
    MovesLikewise(s.wallets, Rows(s, b) + garbage, dividends, false, after.wallets, exact.wallets);
    exactAfter := after.(wallets := Shifted(after.wallets, s.wallets, exact.wallets));
    forall c ensures Balance(after.wallets, c) >= Balance(exactAfter.wallets, c) {
      assert Balance(s.wallets, c) >= Balance(exact.wallets, c);
    }
  }

  lemma OwnersStayIn(
      hashed: map<string, set<SourceKey>>, n: nat, e: Entry, w: Web, s: Store, w': Web, s': Store)
    requires EntryStep(hashed, n, e, w, s, w', s') && OwnersIn(s, w.flags.Keys)
    ensures OwnersIn(s', w'.flags.Keys)
  {
    ProducersHaveEntries(w, e.idty, e.marks, e.certs, w');
    DividendsAfterStep(s, e.block, e.dividends, e.garbage, s');
    OwnersStay(s, e.block, s', w.flags.Keys, w'.flags.Keys);
  }

  lemma StaysGood(hashed: map<string, set<SourceKey>>, n: nat, e: Entry, w: Web, s: Store, w': Web, s': Store)
    requires EntryStep(hashed, n, e, w, s, w', s') && Good(w, s, n, hashed)
    ensures Good(w', s', n + 1, hashed)
  {
    StaysSoundWeb(w, n, e.idty, e.marks, e.certs, w');
    OwnersStayIn(hashed, n, e, w, s, w', s');
    StaysSound(s, hashed, e.block, e.dividends, e.garbage, s');
  }

  lemma GoodExtends(t: Track, hashed: map<string, set<SourceKey>>, w': Web, s': Store)
    requires AllGood(t, hashed) && Good(w', s', |t.webs|, hashed)
    ensures AllGood(Track(t.webs + [w'], t.stores + [s']), hashed)
  {
    var m := Track(t.webs + [w'], t.stores + [s']);
    forall i | 0 <= i < |m.webs| ensures Good(m.webs[i], m.stores[i], i, hashed) {
      assert i < |t.webs| ==> Good(t.webs[i], t.stores[i], i, hashed);
    }
  }

  lemma EntryIsAt(
      t: Track, hashed: map<string, set<SourceKey>>, entries: seq<Entry>, i: nat, e: Entry, w: Web, s: Store,
      w': Web, s': Store)
    requires i < |entries| && i + 1 < |t.webs| && i + 1 < |t.stores|
    requires entries[i] == e && t.webs[i] == w && t.stores[i] == s && t.webs[i + 1] == w' && t.stores[i + 1] == s'
    requires EntryStep(hashed, i, e, w, s, w', s')
    ensures EntryAt(t, hashed, entries, i)
  {}

  lemma EntriesExtendBy(
      t: Track, hashed: map<string, set<SourceKey>>, entries: seq<Entry>, e: Entry, w': Web, s': Store)
    requires AllEntries(t, hashed, entries)
    requires var n := |entries|; EntryStep(hashed, n, e, t.webs[n], t.stores[n], w', s')
    ensures AllEntries(Track(t.webs + [w'], t.stores + [s']), hashed, entries + [e])
  {
    var n, all, m := |entries|, entries + [e], Track(t.webs + [w'], t.stores + [s']);
    forall i | 0 <= i < |all| ensures EntryAt(m, hashed, all, i) {
      if i < n {
        EntryCarriesOver(t, m, hashed, entries, all, i);
      } else {
        EntryIsAt(m, hashed, all, i, e, t.webs[n], t.stores[n], w', s');
      }
    }
  }

  lemma TrackExtends(t: Track, hashed: map<string, set<SourceKey>>, entries: seq<Entry>, e: Entry, w': Web, s': Store)
    requires Tracks(t, hashed, entries)
    requires var n := |entries|; EntryStep(hashed, n, e, t.webs[n], t.stores[n], w', s')
    ensures Tracks(Track(t.webs + [w'], t.stores + [s']), hashed, entries + [e])
  {
    var n := |entries|;
    assert Good(t.webs[n], t.stores[n], n, hashed);
    StaysGood(hashed, n, e, t.webs[n], t.stores[n], w', s');
    GoodExtends(t, hashed, w', s');
    EntriesExtendBy(t, hashed, entries, e, w', s');
  }

  lemma HeadsOfMore(conf: Heads.Conf, entries: seq<Entry>, e: Entry)
    requires Heads.Run(conf, IncomingsOf(entries), HeadsOf(entries))
    requires Heads.IsNextHead(conf, HeadsOf(entries), e.incoming, e.head) && conf.ud0 >= ACCOUNT_MINIMUM
    ensures Heads.Run(conf, IncomingsOf(entries + [e]), HeadsOf(entries + [e]))
    ensures e.head.dividend >= ACCOUNT_MINIMUM
    ensures e.head.newDividend.Some? ==> e.head.newDividend.value == e.head.dividend
  {
    HeadsExtend(conf, IncomingsOf(entries), HeadsOf(entries), e.incoming, e.head);
    assert IncomingsOf(entries + [e]) == IncomingsOf(entries) + [e.incoming];
    assert HeadsOf(entries + [e]) == HeadsOf(entries) + [e.head];
    HeadDividendIsEnough(conf, IncomingsOf(entries + [e]), HeadsOf(entries + [e]), |entries|);
  }

  lemma SavedFollows(
      t: Track, conf: Heads.Conf, hashed: map<string, set<SourceKey>>, st: State, e: Entry, st': State)
    returns (m: Track)
    requires Follows(t, conf, hashed, st) && Accepts(conf, hashed, st, e, st') && conf.ud0 >= ACCOUNT_MINIMUM
    ensures Follows(m, conf, hashed, st')
  {
    var n := |st.entries|;
    var w, s := t.webs[n], t.stores[n];
    assert Good(w, s, n, hashed);
    HeadsOfMore(conf, st.entries, e);
    var w' := WebStepLikewise(st.web, w, n, e.idty, e.marks, e.certs, st'.web);
    var s' := MoneyStepLikewise(st.store, s, hashed, e.block, e.dividends, e.garbage, st'.store);
    TrackExtends(t, hashed, st.entries, e, w', s');
    m := Track(t.webs + [w'], t.stores + [s']);
  }

  // ---- Reverting a block ----

  lemma WebRevertLikewise(w: Web, exact: Web, number: nat, back: Web) returns (exactBack: Web)
    requires w == exact.(links := w.links) && Reverted(w, number, back)
    ensures Reverted(exact, number, exactBack) && back == exactBack.(links := back.links)
  {
    exactBack := back.(links := Linked(exact.links, exact.ids, WrittenBy(exact.cindex, number), true));
  }

  lemma WebIsBack(w: Web, i: nat, e: Entry, exact: Web, now: Web, back: Web)
    requires SoundWeb(w, i) && SoundLinks(w) && IdentityStepOn(w, i, e.idty, e.marks, e.certs, exact)
    requires now == exact.(links := now.links) && Reverted(now, i, back)
    ensures back == w.(links := back.links) && Creations(OfBlock(now.log, i)) == e.idty.identities
  {
    var exactBack := WebRevertLikewise(now, exact, i, back);
    WebStepIsUndone(w, i, e.idty, e.marks, e.certs, exact, exactBack);
  }

  lemma AreNewThen(w: Web, s: Store, i: nat, e: Entry, after: Web)
    requires SoundWeb(w, i) && OwnersIn(s, w.flags.Keys)
    requires IdentityStepOn(w, i, e.idty, e.marks, e.certs, after)
    ensures AreNew(s, ToSet(e.idty.identities))
  {
    assert forall p | p in ToSet(e.idty.identities) :: p !in w.ids.Keys;
    assert forall k | k in s.uds.Keys + s.spent.Keys && k.Dividend? :: k.pub in w.flags.Keys;
  }

  lemma MoneyRevertLikewise(s: Store, exact: Store, number: nat, newcomers: set<string>, u: Undo, back: Store)
    returns (v: Undo, exactBack: Store)
    requires Covers(s, exact) && MoneyReverted(s, number, newcomers, u, back)
    ensures MoneyReverted(exact, number, newcomers, v, exactBack)
    ensures Covers(back, exactBack)
  {
    var from, to := s.wallets, exact.wallets;
    v := u.(wallets1 := Shifted(u.wallets1, from, to), wallets2 := Shifted(u.wallets2, from, to));
    exactBack := back.(wallets := Shifted(back.wallets, from, to));
    MovesLikewise(s.wallets, [], u.destroyed, true, u.wallets1, exact.wallets);
    ShiftedMoves(u.wallets1, [], u.recovered, false, u.wallets2, from, to);
    ShiftedMoves(u.wallets2, u.moves, [], true, back.wallets, from, to);
    forall c ensures Balance(back.wallets, c) >= Balance(exactBack.wallets, c) {
      assert Balance(s.wallets, c) >= Balance(exact.wallets, c);
    }
  }

  /** A revert brings the sources and dividends back, and leaves no wallet below what it was. */
  lemma MoneyIsBackAnyhow(
      s: Store, hashed: map<string, set<SourceKey>>, e: Entry, exact: Store, now: Store, newcomers: set<string>,
      u: Undo, back: Store)
    requires Applied(s, hashed, e.block, e.dividends, e.garbage, exact) && AreNew(s, newcomers)
    requires Covers(now, exact) && MoneyReverted(now, e.block.number, newcomers, u, back)
    ensures Covers(back, s)
  {
    var v, exactBack := MoneyRevertLikewise(now, exact, e.block.number, newcomers, u, back);
    RevertUndoesMoney(s, hashed, e.block, e.dividends, e.garbage, exact, newcomers, v, exactBack);
    forall c ensures Balance(back.wallets, c) >= Balance(s.wallets, c) {
      assert Balance(back.wallets, c) >= Balance(exactBack.wallets, c);
    }
  }

  lemma TrackCut(t: Track, hashed: map<string, set<SourceKey>>, entries: seq<Entry>, n: nat)
    requires Tracks(t, hashed, entries) && n <= |entries|
    ensures Tracks(Track(t.webs[..n + 1], t.stores[..n + 1]), hashed, entries[..n])
  {
    var m := Track(t.webs[..n + 1], t.stores[..n + 1]);
    forall i | 0 <= i < n ensures EntryAt(m, hashed, entries[..n], i) {
      EntryCarriesOver(t, m, hashed, entries, entries[..n], i);
    }
    forall i | 0 <= i < |m.webs| ensures Good(m.webs[i], m.stores[i], i, hashed) {
      assert Good(t.webs[i], t.stores[i], i, hashed);
    }
  }

  lemma HeadsOfLess(conf: Heads.Conf, entries: seq<Entry>, n: nat)
    requires Heads.Run(conf, IncomingsOf(entries), HeadsOf(entries)) && n <= |entries|
    ensures Heads.Run(conf, IncomingsOf(entries[..n]), HeadsOf(entries[..n]))
  {
    var blocks, heads := IncomingsOf(entries), HeadsOf(entries);
    forall i: nat | i < n ensures Heads.HeadAt(conf, IncomingsOf(entries[..n]), HeadsOf(entries[..n]), i) {
      assert Heads.HeadAt(conf, blocks, heads, i);
      assert HeadsOf(entries[..n])[..i + 1] == heads[..i + 1];
      HeadCarriesOver(conf, blocks, heads, IncomingsOf(entries[..n]), HeadsOf(entries[..n]), i);
    }
  }

  lemma RevertedFollows(t: Track, conf: Heads.Conf, hashed: map<string, set<SourceKey>>, st: State, u: Undo, st': State)
    requires Follows(t, conf, hashed, st) && RevertsAnyhow(st, u, st')
    ensures var n := |st.entries| - 1;
            Follows(Track(t.webs[..n + 1], t.stores[..n + 1]), conf, hashed, st')
  {
    var n := |st.entries| - 1;
    var e, w, s := st.entries[n], t.webs[n], t.stores[n];
    assert Good(w, s, n, hashed) && EntryAt(t, hashed, st.entries, n);
    WebIsBack(w, n, e, t.webs[n + 1], st.web, st'.web);
    AreNewThen(w, s, n, e, t.webs[n + 1]);
    MoneyIsBackAnyhow(s, hashed, e, t.stores[n + 1], st.store, ToSet(e.idty.identities), u, st'.store);
    TrackCut(t, hashed, st.entries, n);
    HeadsOfLess(conf, st.entries, n);
  }

  lemma SomeSaveFollows(t: Track, conf: Heads.Conf, hashed: map<string, set<SourceKey>>, st: State, st': State)
    returns (m: Track)
    requires Follows(t, conf, hashed, st) && conf.ud0 >= ACCOUNT_MINIMUM
    requires exists e :: Accepts(conf, hashed, st, e, st')
    ensures Follows(m, conf, hashed, st')
  {
    var e :| Accepts(conf, hashed, st, e, st');
    m := SavedFollows(t, conf, hashed, st, e, st');
  }

  lemma SomeRevertFollows(t: Track, conf: Heads.Conf, hashed: map<string, set<SourceKey>>, st: State, st': State)
    returns (m: Track)
    requires Follows(t, conf, hashed, st) && exists u :: RevertsAnyhow(st, u, st')
    ensures Follows(m, conf, hashed, st')
  {
    var u :| RevertsAnyhow(st, u, st');
    RevertedFollows(t, conf, hashed, st, u, st');
    var n := |st.entries| - 1;
    m := Track(t.webs[..n + 1], t.stores[..n + 1]);
  }

  lemma MovedFollows(t: Track, conf: Heads.Conf, hashed: map<string, set<SourceKey>>, st: State, st': State)
    returns (m: Track)
    requires Follows(t, conf, hashed, st) && MovesAnyhow(conf, hashed, st, st') && conf.ud0 >= ACCOUNT_MINIMUM
    ensures Follows(m, conf, hashed, st')
  {
    if exists e :: Accepts(conf, hashed, st, e, st') {
      m := SomeSaveFollows(t, conf, hashed, st, st');
    } else {
      m := SomeRevertFollows(t, conf, hashed, st, st');
    }
  }

  // ---- Every state of every history ----

  lemma StartFollows(conf: Heads.Conf, hashed: map<string, set<SourceKey>>)
    ensures Follows(Track([NO_WEB], [EMPTY]), conf, hashed, START)
  {
    EmptyWebIsSound();
    EmptyIsSound(hashed);
  }

  /** Whatever was saved and reverted, the stores are those of the current chain, up to links and to
      wallets that are too high. */
  lemma {:induction false} HistoryFollows(conf: Heads.Conf, hashed: map<string, set<SourceKey>>, h: seq<State>, i: nat)
    returns (t: Track)
    requires AnyHistory(conf, hashed, h) && i < |h| && conf.ud0 >= ACCOUNT_MINIMUM
    ensures Follows(t, conf, hashed, h[i])
    decreases i
  {
    if i == 0 {
      StartFollows(conf, hashed);
      t := Track([NO_WEB], [EMPTY]);
    } else {
      var j := i - 1;
      var before := HistoryFollows(conf, hashed, h, j);
      assert MovesAnyhow(conf, hashed, h[j], h[j + 1]);
      t := MovedFollows(before, conf, hashed, h[j], h[i]);
    }
  }

  // ---- What the current chain creates and consumes ----

  /** The sources that a block names as consumed, by its transactions or by the garbage rule. */
  ghost function Taken(e: Entry): set<SourceKey> {
    Keys(Only(LocalRows(e.block.txs, e.block.number), Update)) + Keys(e.garbage)
  }

  ghost function Made(e: Entry): set<SourceKey> {
    Keys(Only(LocalRows(e.block.txs, e.block.number), Create)) + Keys(e.dividends)
  }

  lemma TakenIsConsumed(s: Store, hashed: map<string, set<SourceKey>>, e: Entry, after: Store)
    requires Applied(s, hashed, e.block, e.dividends, e.garbage, after)
    ensures EverConsumed(after) == EverConsumed(s) + Taken(e) && Taken(e) !! EverConsumed(s)
    ensures EverCreated(after) == EverCreated(s) + Made(e) && Made(e) !! EverCreated(s)
  {
    RowsShape(s, e.block);
    KeysOfParts(Only(Rows(s, e.block), Update), e.garbage);
    Moved(s, hashed, e.block, e.dividends, e.garbage, after);
  }

  ghost function TakenBy(entries: seq<Entry>): seq<set<SourceKey>> {
    seq(|entries|, i requires 0 <= i < |entries| => Taken(entries[i]))
  }

  ghost function MadeBy(entries: seq<Entry>): seq<set<SourceKey>> {
    seq(|entries|, i requires 0 <= i < |entries| => Made(entries[i]))
  }

  lemma TakenAt(t: Track, hashed: map<string, set<SourceKey>>, entries: seq<Entry>, i: nat)
    requires Tracks(t, hashed, entries) && i < |entries|
    ensures EverConsumed(t.stores[i + 1]) == EverConsumed(t.stores[i]) + Taken(entries[i])
    ensures EverCreated(t.stores[i + 1]) == EverCreated(t.stores[i]) + Made(entries[i])
    ensures Taken(entries[i]) !! EverConsumed(t.stores[i]) && Made(entries[i]) !! EverCreated(t.stores[i])
  {
    assert EntryAt(t, hashed, entries, i);
    TakenIsConsumed(t.stores[i], hashed, entries[i], t.stores[i + 1]);
  }

  lemma ConsumedAccumulates(t: Track, hashed: map<string, set<SourceKey>>, entries: seq<Entry>)
    returns (consumed: seq<set<SourceKey>>)
    requires Tracks(t, hashed, entries)
    ensures Accumulates(consumed, TakenBy(entries)) && consumed[|entries|] == EverConsumed(t.stores[|entries|])
  {
    consumed := seq(|t.stores|, i requires 0 <= i < |t.stores| => EverConsumed(t.stores[i]));
    forall i | 0 <= i < |entries| ensures AddsAt(consumed, TakenBy(entries), i) {
      TakenAt(t, hashed, entries, i);
    }
  }

  lemma CreatedAccumulates(t: Track, hashed: map<string, set<SourceKey>>, entries: seq<Entry>)
    returns (created: seq<set<SourceKey>>)
    requires Tracks(t, hashed, entries)
    ensures Accumulates(created, MadeBy(entries)) && created[|entries|] == EverCreated(t.stores[|entries|])
  {
    created := seq(|t.stores|, i requires 0 <= i < |t.stores| => EverCreated(t.stores[i]));
    forall i | 0 <= i < |entries| ensures AddsAt(created, MadeBy(entries), i) {
      TakenAt(t, hashed, entries, i);
    }
  }

  /** In every state of every history no two blocks of the current chain consume or create the same
      source. */
  lemma NeverSpentTwice(conf: Heads.Conf, hashed: map<string, set<SourceKey>>, h: seq<State>, i: nat, a: nat, b: nat)
    requires AnyHistory(conf, hashed, h) && i < |h| && conf.ud0 >= ACCOUNT_MINIMUM
    requires a < b < |h[i].entries|
    ensures Taken(h[i].entries[a]) !! Taken(h[i].entries[b]) && Made(h[i].entries[a]) !! Made(h[i].entries[b])
  {
    var t := HistoryFollows(conf, hashed, h, i);
    var consumed := ConsumedAccumulates(t, hashed, h[i].entries);
    var created := CreatedAccumulates(t, hashed, h[i].entries);
    AddedApart(consumed, TakenBy(h[i].entries), a, b);
    AddedApart(created, MadeBy(h[i].entries), a, b);
  }

  lemma TakenOrNot(consumed: seq<set<SourceKey>>, entries: seq<Entry>, k: SourceKey)
    requires Accumulates(consumed, TakenBy(entries))
    ensures k in consumed[|entries|] <==> exists e :: e in entries && k in Taken(e)
  {
    if k in consumed[|entries|] {
      var a := AddedSomewhere(consumed, TakenBy(entries), |entries|, k);
      assert entries[a] in entries && TakenBy(entries)[a] == Taken(entries[a]);
    } else {
      forall e | e in entries ensures k !in Taken(e) {
        var a :| 0 <= a < |entries| && entries[a] == e;
        AddedApart(consumed, TakenBy(entries), a, |entries|);
        assert TakenBy(entries)[a] == Taken(e);
      }
    }
  }

  /** The stores hold as consumed exactly what the blocks of the current chain consume. */
  lemma ConsumedByCurrentChain(
      conf: Heads.Conf, hashed: map<string, set<SourceKey>>, h: seq<State>, i: nat, k: SourceKey)
    requires AnyHistory(conf, hashed, h) && i < |h| && conf.ud0 >= ACCOUNT_MINIMUM
    ensures k in EverConsumed(h[i].store) <==> exists e :: e in h[i].entries && k in Taken(e)
  {
    var entries := h[i].entries;
    var t := HistoryFollows(conf, hashed, h, i);
    var consumed := ConsumedAccumulates(t, hashed, entries);
    TakenOrNot(consumed, entries, k);
  }

  /** The next block that is accepted, in any state of any history, consumes nothing that a block of the
      current chain consumes. */
  lemma NextSpendsNothingTwice(
      conf: Heads.Conf, hashed: map<string, set<SourceKey>>, h: seq<State>, i: nat, e: Entry, st: State)
    requires AnyHistory(conf, hashed, h) && i < |h| && conf.ud0 >= ACCOUNT_MINIMUM
    requires Accepts(conf, hashed, h[i], e, st)
    ensures Taken(e) !! EverConsumed(h[i].store)
  {
    var n := |h[i].entries|;
    var t := HistoryFollows(conf, hashed, h, i);
    var m := SavedFollows(t, conf, hashed, h[i], e, st);
    var s := t.stores[n];
    HeadsOfMore(conf, h[i].entries, e);
    var after := MoneyStepLikewise(h[i].store, s, hashed, e.block, e.dividends, e.garbage, st.store);
    assert Good(t.webs[n], s, n, hashed);
    TakenIsConsumed(s, hashed, e, after);
  }

  lemma CoveredIsNotShort(s: Store, exact: Store, account: string)
    requires Covers(s, exact) && WalletsAgree(exact)
    ensures Balance(s.wallets, account) >= Sum(Available(s), Some(account))
  {
    assert Available(s) == Available(exact);
    assert Balance(s.wallets, account) >= Balance(exact.wallets, account);
    assert Balance(exact.wallets, account) == Sum(Available(exact), Some(account));
  }

  lemma LinksApart(w: Web, v: Web, n: nat)
    requires SoundWeb(w, n) && v == w.(links := v.links)
    ensures SoundWeb(v, n)
  {
    forall p | p in v.ids ensures NodeIs(v, p) {
      assert NodeIs(w, p);
    }
    forall p | p in v.flags ensures FlagIs(v, p) {
      assert FlagIs(w, p);
    }
  }

  /** In every state of every history wallets are never below the sources, and nodes, numbers and flags
      are those of the members. */
  lemma WalletsAreNeverShort(
      conf: Heads.Conf, hashed: map<string, set<SourceKey>>, h: seq<State>, i: nat, account: string)
    requires AnyHistory(conf, hashed, h) && i < |h| && conf.ud0 >= ACCOUNT_MINIMUM
    ensures Balance(h[i].store.wallets, account) >= Sum(Available(h[i].store), Some(account))
    ensures SoundWeb(h[i].web, |h[i].entries|)
  {
    var n, st := |h[i].entries|, h[i];
    var t := HistoryFollows(conf, hashed, h, i);
    var exact := t.stores[n];
    assert Good(t.webs[n], exact, n, hashed);
    CoveredIsNotShort(st.store, exact, account);
    LinksApart(t.webs[n], st.web, n);
  }
}
