/** A run whose supply exceeds the mass: two members join, and the block that pays the first
    dividend excludes one of them. The excluded member is paid too, but not counted. */
module LedgerExample {
  import opened Amounts
  import opened Outcomes
  import opened Sources
  import opened SourceSums
  import opened TxDepth
  import opened Money
  import opened DoubleSpend
  import opened Identities
  import opened Membership
  import opened Wot
  import opened Ledger
  import R = Reduction
  import Heads
  import HeadRuns

  const CONF := Heads.Conf(1, 10, 1, 100, 1000, 0, 1000, 100, 0.0)
  const IN0 := Heads.Incoming("A", 0, 0, 2, 0, 0, 0)
  const IN1 := Heads.Incoming("A", 0, 0, 0, 1, 0, 0)
  const H0 := Heads.Head(0, "A", 0, 0, 0, 1, 0, 10, 0, 0, 0, 0, 2, 0, 1000, 0, 100, None, 0, 0)
  const H1 := Heads.Head(1, "A", 0, 0, 1, 1, 5, 10, 0, 0, 0, 0, 1, 100, 1000, 0, 100, Some(100), 100, 0)

  const ID0 := IdtyBlock(0, ["A", "B"], ["A", "B"], [], [], [], [])
  const ID1 := IdtyBlock(1, [], [], [], [], ["B"], ["B"])
  const NEW_A := NewcomerRow(ID0, "A")
  const NEW_B := NewcomerRow(ID0, "B")
  const OUT_B := ExcludedRow(ID1, "B")
  const JOINS := [Dated(MRow(Create, "A", false), 0), Dated(MRow(Create, "B", false), 0)]
  const REVOKES := [Dated(MRow(Update, "B", false), 1)]
  const NODES := map["A" := 0, "B" := 1]
  const WEB1 := Web([NEW_A, NEW_B], JOINS, [], [true, true], NODES, {}, map["A" := true, "B" := true])
  const WEB2 := Web([NEW_A, NEW_B, OUT_B], JOINS + REVOKES, [], [true, false], NODES, {},
                    map["A" := true, "B" := false])

  const UD := BasedAmount(100, 0)
  const UD_A := DividendRow("A", UD, 1)
  const UD_B := DividendRow("B", UD, 1)
  const MB0 := MoneyBlock(0, [], None, {"A", "B"}, 0)
  const MB1 := MoneyBlock(1, [], Some(UD), {"A", "B"}, 0)
  const PAID := Store(map[], map[], map[UD_A.key := UD, UD_B.key := UD], map[], map[Sig("A") := 100, Sig("B") := 100])

  const LEDGER := Run(CONF, [IN0, IN1], [H0, H1], [ID0, ID1], [[], []], [[], []], [NO_WEB, WEB1, WEB2],
                      Trace([MB0, MB1], [[], [UD_A, UD_B]], [[], []], [EMPTY, EMPTY, PAID]), map[])

  // ---- Heads ----

  lemma FirstHead()
    ensures Heads.IsNextHead(CONF, [], IN0, H0)
  {
    assert Pow10(4) == 10000 by { assert Pow10(1) == 10 && Pow10(2) == 100 && Pow10(3) == 1000; }
  }

  lemma SecondChain()
    ensures Heads.Admissible(CONF, [H0], IN1) && Heads.ChainRules(CONF, [H0], IN1, H1)
  {
    assert [H0][..0] == [];
    assert Heads.Issuers([H0]) == {"A"};
    assert Heads.TotalTime([H0]) == 0;
    assert Heads.MedianTime(CONF, [H0], 0) == 0;
  }

  lemma SecondDividend()
    ensures Heads.ValidConf(CONF) && Heads.DividendRules(CONF, H0, H1)
  {
    assert Pow10(4) == 10000 by { assert Pow10(1) == 10 && Pow10(2) == 100 && Pow10(3) == 1000; }
    assert Heads.BaseDividend(CONF, H0, 1000, 1) == 100;
  }

  lemma SecondMoney()
    ensures Heads.MoneyRules(CONF, [H0], H1)
  {
    SecondDividend();
    assert Pow10(0) == 1;
    assert Heads.Last([H0]) == H0;
  }

  lemma SecondWork()
    ensures Heads.ValidConf(CONF) && Heads.WorkRules(CONF, [H0], IN1, H1)
  {
    assert Heads.DiffNumber(CONF, [H0]) == 10;
  }

  lemma SecondHead()
    ensures Heads.IsNextHead(CONF, [H0], IN1, H1)
  {
    SecondChain();
    SecondMoney();
    SecondWork();
  }

  lemma TwoHeads(conf: Heads.Conf, b0: Heads.Incoming, h0: Heads.Head, b1: Heads.Incoming, h1: Heads.Head)
    requires Heads.IsNextHead(conf, [], b0, h0) && Heads.IsNextHead(conf, [h0], b1, h1)
    ensures Heads.Run(conf, [b0, b1], [h0, h1])
  {
    var blocks, heads := [b0, b1], [h0, h1];
    assert heads[..0] == [] && heads[..1] == [h0];
    forall i | 0 <= i < 2 ensures Heads.HeadAt(conf, blocks, heads, i) {
      assert i == 0 || i == 1;
    }
  }

  lemma HeadsRun()
    ensures Heads.Run(CONF, [IN0, IN1], [H0, H1])
  {
    FirstHead();
    SecondHead();
    TwoHeads(CONF, IN0, H0, IN1, H1);
  }

  // ---- Identities ----

  lemma Matched(b: IdtyBlock, n: nat, rows: seq<IRow>, ms: seq<MRow>, pub: string)
    requires 0 < n <= |b.joiners| && b.joiners[n - 1] == pub
    requires AfterJoiners(b, n - 1) == (rows, ms) && Has(rows, pub)
    ensures AfterJoiners(b, n) == (rows, ms + [MRow(Create, pub, false)])
  {
    AfterJoinersStep(b, n);
  }

  lemma Rows0()
    ensures LocalIRows(ID0) == [NEW_A, NEW_B]
    ensures LocalMRows(ID0) == [MRow(Create, "A", false), MRow(Create, "B", false)]
  {
    assert NewcomerRows(ID0, 1) == [NEW_A];
    assert NewcomerRows(ID0, 2) == [NEW_A, NEW_B];
    var rows := [NEW_A, NEW_B];
    assert NEW_A in rows && NEW_B in rows;
    assert Has(rows, "A") && Has(rows, "B");
    assert AfterJoiners(ID0, 0) == (rows, []);
    Matched(ID0, 1, rows, [], "A");
    assert [] + [MRow(Create, "A", false)] == [MRow(Create, "A", false)];
    Matched(ID0, 2, rows, [MRow(Create, "A", false)], "B");
    assert [MRow(Create, "A", false)] + [MRow(Create, "B", false)] ==
           [MRow(Create, "A", false), MRow(Create, "B", false)];
    assert OtherRows([]) == [];
  }

  lemma Rows1()
    ensures LocalIRows(ID1) == [OUT_B] && LocalMRows(ID1) == [MRow(Update, "B", false)]
  {
    assert AfterJoiners(ID1, 0) == ([], []);
    assert ExcludedRows(ID1, 1) == [OUT_B];
    assert OtherRows([]) == [];
  }

  lemma {:induction false} NotMarked(log: seq<IRow>, p: string)
    requires forall r | r in log :: r.kick == Some(false)
    ensures !IsMarked(log, p)
    ensures var fields := R.Reduced(RecordsOf(log, p)).fields;
            "kick" in fields ==> fields["kick"] == Some(false)
  {
    if log != [] {
      var front, r := log[..|log| - 1], log[|log| - 1];
      NotMarked(front, p);
      if r.pub == p {
        var records := RecordsOf(front, p);
        assert (records + [AsRecord(r)])[..|records|] == records;
      }
    }
  }

  /** Block #1 excludes B, whom it revokes. */
  lemma ExclusionsAreRuled()
    ensures ExclusionRules([], ID0) && ExclusionRules([NEW_A, NEW_B], ID1)
  {
    forall p ensures !IsMarked([], p) && !IsMarked([NEW_A, NEW_B], p) {
      NotMarked([], p);
      NotMarked([NEW_A, NEW_B], p);
    }
  }

  lemma Rules0()
    ensures IdtyRules([], ID0) && ExclusionRules([], ID0)
  {
    Rows0();
    ExclusionsAreRuled();
    assert ID0.joiners + ID0.actives + ID0.leavers + ID0.excluded == ["A", "B"];
  }

  lemma Saved0()
    ensures Saved(NO_WEB, ID0, [], [], WEB1)
  {
    Rows0();
    InRows();
    Two(map[], NO_WEB.flags);
    Two(map[], WEB1.flags);
    assert Flagged(WEB1.flags, ["A", "B"], true) == WEB1.flags;
    assert Flagged(WEB1.flags, [], false) == WEB1.flags;
    Nodes0();
    assert [] + [NEW_A, NEW_B] + [] == [NEW_A, NEW_B];
    NothingMore(NO_WEB.mindex, ID0, WEB1.mindex);
  }

  lemma NothingMore(before: seq<Dated<MRow>>, b: IdtyBlock, after: seq<Dated<MRow>>)
    requires after == before + Stamped(LocalMRows(b), b.number)
    ensures MembershipsSaved(before, b, after)
  {
    assert LocalMRows(b) + [] == LocalMRows(b);
  }

  lemma InRows()
    ensures Creations([NEW_A, NEW_B]) == ["A", "B"] && Pubs([NEW_A, NEW_B]) == ["A", "B"]
    ensures WithNodes([], ["A", "B"]) == [true, true]
  {
    var rows := [NEW_A, NEW_B];
    assert rows[..1] == [NEW_A] && [NEW_A][..0] == [];
    assert Creations([NEW_A]) == ["A"];
  }

  lemma Nodes0()
    ensures Enabled([true, true], WEB1.ids, ["A", "B"], true) == [true, true]
    ensures Enabled([true, true], WEB1.ids, [], false) == [true, true]
  {
    assert ["A", "B"][..1] == ["A"] && ["A"][..0] == [];
    assert Enabled([true, true], WEB1.ids, ["A"], true) == [true, true];
  }

  lemma Step0(i: nat)
    requires i == 0
    ensures IdentityStep(LEDGER, i)
  {
    Rows0();
    Rules0();
    Saved0();
  }

  lemma Counted0(i: nat)
    requires i == 0
    ensures Counted(LEDGER, i)
  {
    Rows0();
    Counts0();
  }

  lemma Counts0()
    ensures CountWith([NEW_A, NEW_B], true) == 2 && CountWith([NEW_A, NEW_B], false) == 0
  {
    var rows := [NEW_A, NEW_B];
    assert rows[..1] == [NEW_A] && [NEW_A][..0] == [];
    assert CountWith([NEW_A], true) == 1 && CountWith([NEW_A], false) == 0;
  }

  lemma Two(ids: map<string, nat>, flags: map<string, bool>)
    ensures WithIds(ids, ["A", "B"], 0) == ids["A" := 0]["B" := 1]
    ensures Flagged(flags, ["A", "B"], true) == flags["A" := true]["B" := true]
  {
    assert ["A", "B"][..1] == ["A"] && ["A"][..0] == [];
    assert WithIds(ids, ["A"], 0) == ids["A" := 0];
    assert Flagged(flags, ["A"], true) == flags["A" := true];
  }

  lemma Counted1(i: nat)
    requires i == 1
    ensures Counted(LEDGER, i)
  {
    Rows1();
    OutRows();
  }

  lemma Step1(i: nat)
    requires i == 1
    ensures IdentityStep(LEDGER, i)
  {
    Rows1();
    var log := [NEW_A, NEW_B];
    assert Member(log, "B") == Some(true);
    assert [OUT_B][..0] == [] && ["B"][..0] == [];
    assert ID1.joiners + ID1.actives + ID1.leavers + ID1.excluded == ["B"];
    assert IdtyRules(log, ID1);
    ExclusionsAreRuled();
    OutRows();
    Saved1();
  }

  lemma OutRows()
    ensures Creations([OUT_B]) == [] && Pubs([OUT_B]) == ["B"]
    ensures CountWith([OUT_B], false) == 1 && CountWith([OUT_B], true) == 0
  {
    assert [OUT_B][..0] == [];
    assert Creations([]) == [];
    assert CountWith([], false) == 0 && CountWith([], true) == 0;
  }

  lemma Saved1()
    ensures Saved(WEB1, ID1, [], [], WEB2)
  {
    Rows1();
    OutRows();
    assert ["B"][..0] == [];
    assert WithNodes([true, true], []) == [true, true];
    assert Enabled([true, true], WEB2.ids, ["B"], false) == [true, false];
    assert Flagged(WEB1.flags, ["B"], true) == WEB1.flags;
    assert Flagged(WEB1.flags, ["B"], false) == WEB2.flags;
    assert WEB1.log + [OUT_B] + [] == WEB2.log;
    NothingMore(WEB1.mindex, ID1, WEB2.mindex);
  }

  // ---- Money ----

  lemma NoTransactions(s: Store, b: MoneyBlock)
    requires b.txs == []
    ensures LocalRows(b.txs, b.number) == [] && Rows(s, b) == [] && Accepted(s, b)
    ensures HashesIdentify(map[], b.txs) && ChainedInputsMatch(LocalRows(b.txs, b.number))
  {
    assert Ids([]) == [] && MaxDepthOf([], []) == 0;
  }

  lemma Money0()
    ensures MoneyStep(LEDGER, 0)
  {
    NoTransactions(EMPTY, MB0);
    Rows0();
    InRows();
    Two(map[], NO_WEB.flags);
    assert ProducersOf(NO_WEB, ID0) == {"A", "B"};
    IdleStep();
  }

  lemma IdleStep()
    ensures Step(EMPTY, MB0, [], [], EMPTY)
  {
    NoTransactions(EMPTY, MB0);
    NothingFlushed(map[]);
    assert IsDividend(MB0, []);
    NothingGarbaged(EMPTY, [] + [], MB0);
    NothingMoves(EMPTY.wallets);
    assert Rows(EMPTY, MB0) + [] == [] + [];
  }

  lemma NothingMoves(wallets: map<string, int>)
    ensures WalletsMoved(wallets, [] + [], [], false, wallets)
  {
    forall c
      ensures Balance(wallets, c) ==
              Balance(wallets, c) + Signed(false, Variation([] + [], c) + RowSum([], Some(c)))
    {
      assert Variation([], c) == 0;
    }
  }

  lemma TwoDividends()
    ensures Only([UD_A, UD_B], Create) == [UD_A, UD_B] && Only([UD_A, UD_B], Update) == []
    ensures Keys([UD_A, UD_B]) == {UD_A.key, UD_B.key} && DistinctKeys([UD_A, UD_B])
    ensures WithUds(map[], [UD_A, UD_B]) == PAID.uds
  {
    var rows := [UD_A, UD_B];
    assert rows[..1] == [UD_A] && [UD_A][..0] == [];
    assert rows[0] == UD_A && rows[1] == UD_B;
    assert WithUds(map[], [UD_A]) == map[UD_A.key := UD];
    assert Only([UD_A], Create) == [UD_A] && Only([UD_A], Update) == [];
  }

  lemma SigsDiffer()
    ensures Sig("A") != Sig("B")
  {
    assert Sig("A")[4] == 'A' && Sig("B")[4] == 'B';
  }

  lemma DividendSums(c: string)
    ensures RowSum([UD_A, UD_B], Some(c)) == if c == Sig("A") || c == Sig("B") then 100 else 0
  {
    var rows := [UD_A, UD_B];
    assert rows[..1] == [UD_A] && [UD_A][..0] == [];
    SigsDiffer();
    assert Value(UD) == 100;
    assert RowSum([UD_A], Some(c)) == if c == Sig("A") then 100 else 0;
  }

  lemma PaidDividend()
    ensures IsDividend(MB1, [UD_A, UD_B])
  {
    TwoDividends();
    assert IsDividendRow(MB1, UD_A) && IsDividendRow(MB1, UD_B);
    assert Produced(MB1) == {UD_A.key, UD_B.key};
  }

  lemma NothingGarbaged(s: Store, entries: seq<SRow>, b: MoneyBlock)
    requires forall r | r in entries :: !Poor(s, entries, b.unitBase, r.conditions)
    ensures IsGarbage(s, entries, b, [])
  {}

  lemma NotPoor(c: string)
    requires c == Sig("A") || c == Sig("B")
    ensures !Poor(EMPTY, [UD_A, UD_B], 0, c)
  {
    TwoDividends();
    DividendSums(c);
    assert RowSum([], Some(c)) == 0;
  }

  lemma NobodyIsPoor()
    ensures IsGarbage(EMPTY, [] + [UD_A, UD_B], MB1, [])
  {
    assert [] + [UD_A, UD_B] == [UD_A, UD_B];
    forall r | r in [UD_A, UD_B] ensures !Poor(EMPTY, [UD_A, UD_B], 0, r.conditions) {
      NotPoor(r.conditions);
    }
    NothingGarbaged(EMPTY, [UD_A, UD_B], MB1);
  }

  lemma WalletsPaid()
    ensures WalletsMoved(map[], [] + [], [UD_A, UD_B], false, PAID.wallets)
  {
    SigsDiffer();
    var none: map<string, int> := map[];
    forall c
      ensures Balance(PAID.wallets, c) ==
              Balance(none, c) + Signed(false, Variation([] + [], c) + RowSum([UD_A, UD_B], Some(c)))
    {
      assert Variation([], c) == 0;
      DividendSums(c);
    }
  }

  lemma NothingFlushed(m: map<SourceKey, SRow>)
    ensures OfType([], T) == [] && OfType([], D) == [] && Keys([]) == {}
    ensures PutRows(m, Only(OfType([], T), Create)) == m && PutRows(m, Only(OfType([], T), Update)) == m
  {
    assert Only([], Create) == [] && Only([], Update) == [];
  }

  lemma PaidStep()
    ensures Step(EMPTY, MB1, [UD_A, UD_B], [], PAID)
  {
    NoTransactions(EMPTY, MB1);
    PaidDividend();
    NobodyIsPoor();
    TwoDividends();
    WalletsPaid();
    NothingFlushed(map[]);
    assert Rows(EMPTY, MB1) + [] == [] + [];
  }

  lemma Money1()
    ensures MoneyStep(LEDGER, 1)
  {
    NoTransactions(EMPTY, MB1);
    Rows1();
    assert Pubs([OUT_B]) == ["B"] && ["B"][..0] == [];
    assert Flagged(WEB1.flags, ["B"], true) == WEB1.flags;
    assert ProducersOf(WEB1, ID1) == {"A", "B"};
    PaidStep();
  }

  lemma IdentityAt(i: nat)
    requires i < 2
    ensures IdentityStep(LEDGER, i)
  {
    if i == 0 {
      Step0(i);
    } else {
      Step1(i);
    }
  }

  lemma CountedAt(i: nat)
    requires i < 2
    ensures Counted(LEDGER, i)
  {
    if i == 0 {
      Counted0(i);
    } else {
      Counted1(i);
    }
  }

  lemma MoneyAt(i: nat)
    requires i < 2
    ensures MoneyStep(LEDGER, i)
  {
    if i == 0 {
      Money0();
    } else {
      Money1();
    }
  }

  lemma IsRun()
    ensures LedgerRun(LEDGER)
  {
    HeadsRun();
    forall i: nat | i < 2 ensures IdentityStep(LEDGER, i) && MoneyStep(LEDGER, i) && Counted(LEDGER, i) {
      IdentityAt(i);
      CountedAt(i);
      MoneyAt(i);
    }
  }

  /** The supply and the mass part on this run. */
  lemma SupplyMayExceedMass()
    ensures LedgerRun(LEDGER) && CONF.ud0 >= ACCOUNT_MINIMUM
    ensures Supply(LEDGER.trace.stores[2]) + GarbagedUpTo(LEDGER, 2) != LEDGER.heads[1].mass
  {
    IsRun();
    assert HeadRuns.UdStep([H0, H1], 1);
    assert !Regular(LEDGER, 1);
    MoneyIsConserved(LEDGER, 2);
  }
}
