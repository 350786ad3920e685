/** Reverting a block of a run of the whole ledger: identities and money together. */
module LedgerRevert {
  import opened Sources
  import opened Money
  import opened MoneyEffect
  import opened MoneyRuns
  import opened DoubleSpend
  import opened MoneyRevert
  import opened Identities
  import opened Membership
  import opened Wot
  import opened WotRevert
  import opened WotLinks
  import opened Ledger

  // ---- Who owns dividends ----

  ghost predicate OwnersIn(s: Store, pubs: set<string>) {
    forall k | k in s.uds.Keys + s.spent.Keys && k.Dividend? :: k.pub in pubs
  }

  lemma ProducersHaveEntries(w: Web, b: IdtyBlock, marks: seq<IRow>, certs: seq<CRow>, after: Web)
    requires Saved(w, b, marks, certs, after)
    ensures ProducersOf(w, b) <= after.flags.Keys && w.flags.Keys <= after.flags.Keys
  {
    var created := Flagged(w.flags, Pubs(LocalIRows(b)), true);
    FlaggedAt(w.flags, Pubs(LocalIRows(b)), true);
    FlaggedAt(created, b.joiners, true);
    FlaggedAt(Flagged(created, b.joiners, true), b.excluded, false);
  }

  lemma DividendsAfterStep(s: Store, b: MoneyBlock, dividends: seq<SRow>, garbage: seq<SRow>, after: Store)
    requires PartStep(s, b, dividends, garbage, after)
    ensures after.uds.Keys + after.spent.Keys <= s.uds.Keys + s.spent.Keys + Produced(b)
  {
    WithUdsContents(s.uds, dividends);
  }

  /** Only keys with a dividend entry, kept from their first membership on, own dividends. */
  lemma {:induction false} OwnersHaveEntries(l: Run, i: nat)
    requires LedgerRun(l) && i <= |l.incoming|
    ensures OwnersIn(l.trace.stores[i], l.webs[i].flags.Keys)
    decreases i
  {
    if i > 0 {
      var j := i - 1;
      OwnersHaveEntries(l, j);
      assert IdentityStep(l, j) && MoneyStep(l, j);
      ProducersHaveEntries(l.webs[j], l.idty[j], l.marks[j], l.certs[j], l.webs[i]);
      var b := l.trace.blocks[j];
      DividendsAfterStep(l.trace.stores[j], b, l.trace.dividends[j], l.trace.garbage[j], l.trace.stores[i]);
      OwnersStay(l.trace.stores[j], b, l.trace.stores[i], l.webs[j].flags.Keys, l.webs[i].flags.Keys);
    }
  }

  lemma OwnersStay(s: Store, b: MoneyBlock, after: Store, pubs: set<string>, pubs': set<string>)
    requires OwnersIn(s, pubs) && pubs <= pubs' && b.producers <= pubs'
    requires after.uds.Keys + after.spent.Keys <= s.uds.Keys + s.spent.Keys + Produced(b)
    ensures OwnersIn(after, pubs')
  {
    forall k | k in after.uds.Keys + after.spent.Keys && k.Dividend? ensures k.pub in pubs' {
      assert k in s.uds.Keys + s.spent.Keys || k in Produced(b);
    }
  }

  /** The newcomers of a block never had a dividend before it. */
  lemma NewcomersAreNew(l: Run, i: nat)
    requires LedgerRun(l) && i < |l.incoming|
    ensures AreNew(l.trace.stores[i], ToSet(l.idty[i].identities))
  {
    OwnersHaveEntries(l, i);
    WebIsSound(l, i);
    assert IdentityStep(l, i);
    var w, s := l.webs[i], l.trace.stores[i];
    assert forall p | p in ToSet(l.idty[i].identities) :: p !in w.ids.Keys;
    assert forall k | k in s.uds.Keys + s.spent.Keys && k.Dividend? :: k.pub in w.flags.Keys;
    assert w.flags.Keys == w.ids.Keys;
  }

  /** A dividend paid by a block goes to each newcomer of the block. */
  lemma NewcomersArePaid(l: Run, i: nat)
    requires LedgerRun(l) && i < |l.incoming|
    ensures ToSet(l.idty[i].identities) <= l.trace.blocks[i].producers
    ensures l.trace.blocks[i].producers !! ToSet(l.idty[i].identities) <==> l.idty[i].identities == []
  {
    WebIsSound(l, i);
    assert IdentityStep(l, i) && MoneyStep(l, i);
    var w, b, marks := l.webs[i], l.idty[i], l.marks[i];
    ProducersAre(w, b, marks, l.trace.blocks[i].producers);
    IdentitiesJoin(w.log, b);
    MembersAfter(w.log, b, marks);
    if b.identities != [] {
      assert b.identities[0] in ToSet(b.identities);
    }
  }

  // ---- The round trip ----

  /** `revertBlock`: the newcomers are read off the rows of the block. */
  ghost predicate BlockReverted(w: Web, s: Store, number: nat, u: Undo, backWeb: Web, back: Store) {
    && Reverted(w, number, backWeb)
    && MoneyReverted(s, number, ToSet(Creations(OfBlock(w.log, number))), u, back)
  }

  /** The same sources, dividends and balances. */
  ghost predicate SameMoney(s: Store, t: Store) {
    && s.creates == t.creates && s.updates == t.updates && s.uds == t.uds && s.spent == t.spent
    && forall c {:trigger Balance(s.wallets, c)} :: Balance(s.wallets, c) == Balance(t.wallets, c)
  }

  /** A block whose revert leaves nothing behind: it pays no dividend or has no newcomer, and it
      replays no certification but those that expire in it. */
  ghost predicate RevertsCleanly(w: Web, idty: IdtyBlock, certs: seq<CRow>, b: MoneyBlock) {
    (b.dividend.None? || idty.identities == []) && NoReplayStays(w, certs)
  }

  lemma BlockAt(l: Run, i: nat)
    requires LedgerRun(l) && i < |l.incoming| && l.conf.ud0 >= ACCOUNT_MINIMUM
    ensures l.idty[i].number == i && l.trace.blocks[i].number == i
    ensures Applied(l.trace.stores[i], l.hashed, l.trace.blocks[i], l.trace.dividends[i], l.trace.garbage[i],
                    l.trace.stores[i + 1])
  {
    assert IdentityStep(l, i);
    IsMoneyRun(l);
    AppliedAt(l.trace, l.hashed, i);
  }

  lemma WebStepIsUndone(w: Web, i: nat, b: IdtyBlock, marks: seq<IRow>, certs: seq<CRow>, after: Web, back: Web)
    requires SoundWeb(w, i) && SoundLinks(w) && IdentityStepOn(w, i, b, marks, certs, after)
    requires Reverted(after, i, back)
    ensures Creations(OfBlock(after.log, i)) == b.identities
    ensures back == w.(links := back.links)
    ensures back == w <==> NoReplayStays(w, certs)
  {
    StaysSoundWeb(w, i, b, marks, certs, after);
    RevertedRows(w, b, marks, certs, after);
    WebIsRestoredIff(w, b, marks, certs, after, back);
  }

  lemma WebRoundTrip(l: Run, i: nat, backWeb: Web)
    requires LedgerRun(l) && i < |l.incoming|
    requires Reverted(l.webs[i + 1], i, backWeb)
    ensures Creations(OfBlock(l.webs[i + 1].log, i)) == l.idty[i].identities
    ensures backWeb == l.webs[i].(links := backWeb.links)
    ensures backWeb == l.webs[i] <==> NoReplayStays(l.webs[i], l.certs[i])
  {
    WebIsSound(l, i);
    LinksAreSound(l, i);
    assert IdentityStep(l, i);
    WebStepIsUndone(l.webs[i], i, l.idty[i], l.marks[i], l.certs[i], l.webs[i + 1], backWeb);
  }

  lemma MoneyRoundTrip(l: Run, i: nat, u: Undo, back: Store)
    requires LedgerRun(l) && i < |l.incoming| && l.conf.ud0 >= ACCOUNT_MINIMUM
    requires MoneyReverted(l.trace.stores[i + 1], i, ToSet(l.idty[i].identities), u, back)
    ensures back == l.trace.stores[i].(wallets := back.wallets)
    ensures SameMoney(back, l.trace.stores[i]) <==> l.trace.blocks[i].dividend.None? || l.idty[i].identities == []
  {
    var s, b, newcomers := l.trace.stores[i], l.trace.blocks[i], ToSet(l.idty[i].identities);
    BlockAt(l, i);
    NewcomersAreNew(l, i);
    NewcomersArePaid(l, i);
    var dividends, garbage, after := l.trace.dividends[i], l.trace.garbage[i], l.trace.stores[i + 1];
    RevertUndoesMoney(s, l.hashed, b, dividends, garbage, after, newcomers, u, back);
    WalletsAreRestoredIff(s, l.hashed, b, dividends, garbage, after, newcomers, u, back);
  }

  /** Applying and reverting a block of any run restores the indexes, the nodes, the flags, the sources
      and the dividends; it restores the whole ledger if and only if the block reverts cleanly. */
  lemma RevertUndoesBlock(l: Run, i: nat, u: Undo, backWeb: Web, back: Store)
    requires LedgerRun(l) && i < |l.incoming| && l.conf.ud0 >= ACCOUNT_MINIMUM
    requires BlockReverted(l.webs[i + 1], l.trace.stores[i + 1], i, u, backWeb, back)
    ensures backWeb == l.webs[i].(links := backWeb.links)
    ensures back == l.trace.stores[i].(wallets := back.wallets)
    ensures backWeb == l.webs[i] && SameMoney(back, l.trace.stores[i]) <==>
            RevertsCleanly(l.webs[i], l.idty[i], l.certs[i], l.trace.blocks[i])
  {
    WebRoundTrip(l, i, backWeb);
    MoneyRoundTrip(l, i, u, back);
  }
}
