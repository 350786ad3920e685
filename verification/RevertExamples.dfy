/** Two accepted blocks whose revert leaves something behind: one that pays its newcomer a dividend,
    and one that replays a certification. */
module RevertExamples {
  import opened Amounts
  import opened Outcomes
  import opened Sources
  import opened SourceSums
  import opened Money
  import opened DoubleSpend
  import opened MoneyRevert
  import opened Identities
  import opened Membership
  import opened Wot
  import opened WotRevert
  import opened WotLinks
  import opened Ledger
  import opened LedgerRevert
  import X = LedgerExample
  import Heads

  // ---- A run: A founds the chain, B joins in block #1, which pays the first dividend ----

  const IN0 := Heads.Incoming("A", 0, 0, 1, 0, 0, 0)
  const IN1 := Heads.Incoming("A", 0, 0, 1, 0, 0, 0)
  const H0 := Heads.Head(0, "A", 0, 0, 0, 1, 0, 10, 0, 0, 0, 0, 1, 0, 1000, 0, 100, None, 0, 0)
  const H1 := Heads.Head(1, "A", 0, 0, 1, 1, 5, 10, 0, 0, 0, 0, 2, 100, 1000, 0, 100, Some(100), 200, 0)

  const ID0 := IdtyBlock(0, ["A"], ["A"], [], [], [], [])
  const ID1 := IdtyBlock(1, ["B"], ["B"], [], [], [], [])
  const NEW_A := NewcomerRow(ID0, "A")
  const NEW_B := NewcomerRow(ID1, "B")
  const JOIN_A := Dated(MRow(Create, "A", false), 0)
  const JOIN_B := Dated(MRow(Create, "B", false), 1)
  const WEB1 := Web([NEW_A], [JOIN_A], [], [true], map["A" := 0], {}, map["A" := true])
  const WEB2 := Web([NEW_A, NEW_B], [JOIN_A, JOIN_B], [], [true, true], map["A" := 0, "B" := 1], {},
                    map["A" := true, "B" := true])
  const MB0 := MoneyBlock(0, [], None, {"A"}, 0)

  const JOINING := Run(X.CONF, [IN0, IN1], [H0, H1], [ID0, ID1], [[], []], [[], []], [NO_WEB, WEB1, WEB2],
                       Trace([MB0, X.MB1], [[], [X.UD_A, X.UD_B]], [[], []], [EMPTY, EMPTY, X.PAID]), map[])

  lemma FirstHead()
    ensures Heads.IsNextHead(X.CONF, [], IN0, H0)
  {
    assert Pow10(4) == 10000 by { assert Pow10(1) == 10 && Pow10(2) == 100 && Pow10(3) == 1000; }
  }

  lemma SecondChain()
    ensures Heads.Admissible(X.CONF, [H0], IN1) && Heads.ChainRules(X.CONF, [H0], IN1, H1)
  {
    assert [H0][..0] == [];
    assert Heads.Issuers([H0]) == {"A"};
    assert Heads.TotalTime([H0]) == 0;
    assert Heads.MedianTime(X.CONF, [H0], 0) == 0;
  }

  lemma SecondDividend()
    ensures Heads.ValidConf(X.CONF) && Heads.DividendRules(X.CONF, H0, H1)
  {
    assert Pow10(4) == 10000 by { assert Pow10(1) == 10 && Pow10(2) == 100 && Pow10(3) == 1000; }
    assert Heads.BaseDividend(X.CONF, H0, 1000, 2) == 100;
  }

  lemma SecondHead()
    ensures Heads.IsNextHead(X.CONF, [H0], IN1, H1)
  {
    SecondChain();
    SecondDividend();
    assert Pow10(0) == 1;
    assert Heads.Last([H0]) == H0;
    assert Heads.DiffNumber(X.CONF, [H0]) == 10;
  }

  // ---- Its identities ----

  lemma OneNewcomer(b: IdtyBlock, p: string)
    requires b.identities == b.joiners == [p] && b.actives == b.leavers == b.revoked == b.excluded == []
    ensures LocalIRows(b) == [NewcomerRow(b, p)] && LocalMRows(b) == [MRow(Create, p, false)]
  {
    var rows := [NewcomerRow(b, p)];
    assert NewcomerRows(b, 1) == rows;
    assert rows[0] in rows && Has(rows, p);
    assert AfterJoiners(b, 0) == (rows, []);
    X.Matched(b, 1, rows, [], p);
    assert [] + [MRow(Create, p, false)] == [MRow(Create, p, false)];
    assert OtherRows([]) == [];
  }

  lemma NewcomerIsRuled(log: seq<IRow>, b: IdtyBlock, p: string)
    requires b.identities == b.joiners == [p] && b.actives == b.leavers == b.revoked == b.excluded == []
    requires !Has(log, p) && forall r | r in log :: r.kick == Some(false)
    ensures IdtyRules(log, b) && ExclusionRules(log, b)
  {
    OneNewcomer(b, p);
    assert b.joiners + b.actives + b.leavers + b.excluded == [p];
    forall q ensures !IsMarked(log, q) {
      X.NotMarked(log, q);
    }
  }

  lemma OneRow(b: IdtyBlock, p: string)
    ensures Creations([NewcomerRow(b, p)]) == [p] && Pubs([NewcomerRow(b, p)]) == [p]
    ensures CountWith([NewcomerRow(b, p)], true) == 1 && CountWith([NewcomerRow(b, p)], false) == 0
  {
    assert [NewcomerRow(b, p)][..0] == [];
    assert Creations([]) == [];
  }

  lemma OneKey(p: string, flags: map<string, bool>, ids: map<string, nat>, n: nat)
    ensures Flagged(flags, [p], true) == flags[p := true]
    ensures WithIds(ids, [p], n) == ids[p := n]
  {
    assert [p][..0] == [];
    assert Flagged(flags, [], true) == flags && WithIds(ids, [], n) == ids;
  }

  function WithNewcomer(w: Web, b: IdtyBlock, p: string): Web {
    Web(w.log + [NewcomerRow(b, p)], w.mindex + [Dated(MRow(Create, p, false), b.number)], w.cindex,
        w.nodes + [true], w.ids[p := |w.nodes|], w.links, w.flags[p := true])
  }

  /** What a block with one newcomer and no certification does to the stores. */
  lemma NewcomerIsSaved(w: Web, b: IdtyBlock, p: string)
    requires b.identities == b.joiners == [p] && b.actives == b.leavers == b.revoked == b.excluded == []
    requires p !in w.ids
    ensures Saved(w, b, [], [], WithNewcomer(w, b, p))
  {
    var after := WithNewcomer(w, b, p);
    OneNewcomer(b, p);
    OneRow(b, p);
    OneKey(p, w.flags, w.ids, |w.nodes|);
    OneKey(p, after.flags, w.ids, 0);
    assert after.flags == w.flags[p := true][p := true];
    assert Flagged(after.flags, [], false) == after.flags;
    assert WithNodes(w.nodes, [p]) == w.nodes + [true];
    assert [p][..0] == [];
    assert Enabled(w.nodes + [true], after.ids, [p], true) == w.nodes + [true];
    assert Stamped([MRow(Create, p, false)], b.number) == [Dated(MRow(Create, p, false), b.number)];
    X.NothingMore(w.mindex, b, after.mindex);
    assert after.log == w.log + [NewcomerRow(b, p)] + [];
    assert after.cindex == w.cindex + Stamped([], b.number);
  }

  lemma Step0(i: nat)
    requires i == 0
    ensures IdentityStep(JOINING, i)
  {
    NewcomerIsRuled([], ID0, "A");
    NewcomerIsSaved(NO_WEB, ID0, "A");
    assert [] + [NEW_A] == [NEW_A] && [] + [JOIN_A] == [JOIN_A] && [] + [true] == [true];
  }

  lemma NamesDiffer()
    ensures "A" != "B"
  {
    assert "A"[0] != "B"[0];
  }

  lemma SecondWeb()
    ensures WithNewcomer(WEB1, ID1, "B") == WEB2
  {
    assert [NEW_A] + [NEW_B] == [NEW_A, NEW_B] && [JOIN_A] + [JOIN_B] == [JOIN_A, JOIN_B];
    assert [true] + [true] == [true, true];
  }

  lemma SecondIsSaved()
    ensures Saved(WEB1, ID1, [], [], WEB2)
  {
    NamesDiffer();
    SecondWeb();
    NewcomerIsSaved(WEB1, ID1, "B");
  }

  lemma Step1(i: nat)
    requires i == 1
    ensures IdentityStep(JOINING, i)
  {
    NamesDiffer();
    NewcomerIsRuled([NEW_A], ID1, "B");
    SecondIsSaved();
  }

  lemma CountedAt(i: nat)
    requires i < 2
    ensures Counted(JOINING, i)
  {
    var b, p := if i == 0 then ID0 else ID1, if i == 0 then "A" else "B";
    OneNewcomer(b, p);
    OneRow(b, p);
  }

  lemma IdleStep()
    ensures Step(EMPTY, MB0, [], [], EMPTY)
  {
    X.NoTransactions(EMPTY, MB0);
    X.NothingFlushed(map[]);
    X.NothingGarbaged(EMPTY, [] + [], MB0);
    X.NothingMoves(EMPTY.wallets);
    assert IsDividend(MB0, []);
    assert Rows(EMPTY, MB0) + [] == [] + [];
  }

  lemma FirstProducer()
    ensures ProducersOf(NO_WEB, ID0) == {"A"}
  {
    OneNewcomer(ID0, "A");
    OneRow(ID0, "A");
    OneKey("A", NO_WEB.flags, map[], 0);
  }

  lemma Money0(i: nat)
    requires i == 0
    ensures MoneyStep(JOINING, i)
  {
    X.NoTransactions(EMPTY, MB0);
    FirstProducer();
    IdleStep();
  }

  lemma Money1(i: nat)
    requires i == 1
    ensures MoneyStep(JOINING, i)
  {
    X.NoTransactions(EMPTY, X.MB1);
    OneNewcomer(ID1, "B");
    OneRow(ID1, "B");
    OneKey("B", WEB1.flags, map[], 0);
    assert ProducersOf(WEB1, ID1) == {"A", "B"};
    X.PaidStep();
  }

  lemma IdentityAt(i: nat)
    requires i < 2
    ensures IdentityStep(JOINING, i)
  {
    if i == 0 {
      Step0(i);
    } else {
      Step1(i);
    }
  }

  lemma MoneyAt(i: nat)
    requires i < 2
    ensures MoneyStep(JOINING, i)
  {
    if i == 0 {
      Money0(i);
    } else {
      Money1(i);
    }
  }

  lemma HeadsRun()
    ensures Heads.Run(X.CONF, [IN0, IN1], [H0, H1])
  {
    FirstHead();
    SecondHead();
    X.TwoHeads(X.CONF, IN0, H0, IN1, H1);
  }

  lemma JoiningIsRun()
    ensures LedgerRun(JOINING)
  {
    HeadsRun();
    forall i: nat | i < 2 ensures IdentityStep(JOINING, i) && MoneyStep(JOINING, i) && Counted(JOINING, i) {
      IdentityAt(i);
      MoneyAt(i);
      CountedAt(i);
    }
  }

  // ---- Reverting block #1 ----

  const LEFT := map[Sig("A") := 0, Sig("B") := 100]
  const UNDO := Undo([X.UD_A], [], [], LEFT, LEFT)
  const BACK := Store(map[], map[], map[], map[], LEFT)

  lemma RevertExists(w: Web, number: nat) returns (back: Web)
    ensures Reverted(w, number, back)
  {
    var rows := OfBlock(w.log, number);
    var newcomers := Creations(rows);
    var lowered := Enabled(w.nodes, w.ids, Moves(rows, true), false);
    back := Web(
      WithoutBlock(w.log, number), Kept(w.mindex, number), Kept(w.cindex, number),
      Enabled(Popped(lowered, |newcomers|), w.ids, Moves(rows, false), true),
      w.ids - ToSet(newcomers), Linked(w.links, w.ids, WrittenBy(w.cindex, number), true),
      Flagged(Flagged(w.flags, Moves(rows, true), false) - ToSet(newcomers), Moves(rows, false), true));
  }

  lemma JoinIsUndone()
    ensures Reverted(WEB2, 1, WEB1) && ToSet(Creations(OfBlock(WEB2.log, 1))) == {"B"}
  {
    JoiningIsRun();
    var back := RevertExists(WEB2, 1);
    WebRoundTrip(JOINING, 1, back);
    assert NoReplayStays(WEB1, []);
    assert ToSet(["B"]) == {"B"};
  }

  lemma OnlyOneIsDestroyed()
    ensures var uds := X.PAID.uds - OfOwners(X.PAID.uds.Keys, {"B"});
            UdRows(ProducedOn(uds, 1), uds, [X.UD_A]) && uds - ProducedOn(uds, 1) == map[]
  {
    NamesDiffer();
    var uds := X.PAID.uds - OfOwners(X.PAID.uds.Keys, {"B"});
    assert uds == map[X.UD_A.key := X.UD];
    assert ProducedOn(uds, 1) == {X.UD_A.key};
    assert [X.UD_A][0] == X.UD_A && Keys([X.UD_A]) == {X.UD_A.key};
    assert UdRow(uds, X.UD_A);
  }

  lemma NothingElse()
    ensures UdRows({}, map[], []) && RecordRows(map[], 1, Only([], Create)) && RecordRows(map[], 1, Only([], Update))
  {
    assert Only([], Create) == [] && Only([], Update) == [] && Keys([]) == {};
  }

  lemma NoWalletMoves(wallets: map<string, int>, reverse: bool)
    ensures WalletsMoved(wallets, [], [], reverse, wallets)
  {
    forall c
      ensures Balance(wallets, c) == Balance(wallets, c) + Signed(reverse, Variation([], c) + RowSum([], Some(c)))
    {
      assert Variation([], c) == 0;
    }
  }

  lemma WalletOfAMoves()
    ensures WalletsMoved(X.PAID.wallets, [], [X.UD_A], true, LEFT)
  {
    X.SigsDiffer();
    assert [X.UD_A][..0] == [] && Value(X.UD) == 100;
    forall c
      ensures Balance(LEFT, c) ==
              Balance(X.PAID.wallets, c) + Signed(true, Variation([], c) + RowSum([X.UD_A], Some(c)))
    {
      assert Variation([], c) == 0;
      assert RowSum([X.UD_A], Some(c)) == if c == Sig("A") then 100 else 0;
    }
  }

  lemma PaymentIsUndone()
    ensures MoneyReverted(X.PAID, 1, {"B"}, UNDO, BACK)
  {
    OnlyOneIsDestroyed();
    NothingElse();
    WalletOfAMoves();
    NoWalletMoves(LEFT, false);
    NoWalletMoves(LEFT, true);
    assert WithUds(map[], []) == map[];
  }

  /** Block #1 is accepted and reverted: the dividends are gone, the wallet of the newcomer keeps its
      100. */
  lemma NewcomerKeepsDividend()
    ensures LedgerRun(JOINING)
    ensures BlockReverted(WEB2, X.PAID, 1, UNDO, WEB1, BACK)
    ensures BACK.uds == EMPTY.uds && Balance(BACK.wallets, Sig("B")) == 100 && Balance(EMPTY.wallets, Sig("B")) == 0
  {
    JoiningIsRun();
    JoinIsUndone();
    PaymentIsUndone();
  }

  // ---- A certification that is replayed ----

  const CERT := CRow(Create, "A", "B", 50)
  const AGAIN := CRow(Create, "A", "B", 150)
  const LINKED := X.WEB1.(cindex := [Dated(CERT, 0)], links := {(0, 1)})
  const TWICE := LINKED.(cindex := [Dated(CERT, 0), Dated(AGAIN, 2)])
  const UNLINKED := LINKED.(links := {})

  function Idle(number: nat): IdtyBlock {
    IdtyBlock(number, [], [], [], [], [], [])
  }

  /** The certifications are written apart from the rest. */
  lemma WithCerts(w: Web, b: IdtyBlock, marks: seq<IRow>, after: Web, certs: seq<CRow>)
    requires Saved(w, b, marks, [], after)
    ensures Saved(w, b, marks, certs,
                  after.(cindex := w.cindex + Stamped(certs, b.number),
                         links := Linked(w.links, after.ids, certs, false)))
  {}

  lemma IdleRows(number: nat)
    ensures LocalIRows(Idle(number)) == [] && LocalMRows(Idle(number)) == []
  {
    assert AfterJoiners(Idle(number), 0) == ([], []) && ExcludedRows(Idle(number), 0) == [];
    assert OtherRows([]) == [];
  }

  lemma IdleIsSaved(w: Web, number: nat)
    ensures Saved(w, Idle(number), [], [], w)
  {
    IdleRows(number);
    assert Creations([]) == [] && Pubs([]) == [];
    assert WithNodes(w.nodes, []) == w.nodes;
    assert Flagged(w.flags, [], true) == w.flags && Flagged(w.flags, [], false) == w.flags;
    assert w.log + [] + [] == w.log && w.cindex + Stamped([], number) == w.cindex;
    assert w.mindex + Stamped([], number) == w.mindex;
    X.NothingMore(w.mindex, Idle(number), w.mindex);
  }

  lemma IdleIsRuled(number: nat)
    ensures IdtyRules(LINKED.log, Idle(number)) && ExclusionRules(LINKED.log, Idle(number))
  {
    IdleRows(number);
    forall q ensures !IsMarked(LINKED.log, q) {
      X.NotMarked(LINKED.log, q);
    }
  }

  lemma OneCert(log: seq<Dated<CRow>>, links: set<(nat, nat)>, ids: map<string, nat>, c: CRow, number: nat)
    requires c.op == Create
    ensures Linked(links, ids, [c], false) == links + {LinkOf(ids, c)}
    ensures Linked(links, ids, [c], true) == links - {LinkOf(ids, c)}
    ensures log + Stamped([c], number) == log + [Dated(c, number)]
  {
    assert [c][..0] == [];
  }

  lemma FirstCertification()
    ensures IdentityStepOn(NO_WEB, 0, X.ID0, [], [CERT], LINKED)
  {
    X.Rules0();
    X.Saved0();
    WithCerts(NO_WEB, X.ID0, [], X.WEB1, [CERT]);
    OneCert([], {}, X.NODES, CERT, 0);
    assert [] + [Dated(CERT, 0)] == [Dated(CERT, 0)];
    assert LinkOf(X.NODES, CERT) == (0, 1);
    X.Rows0();
  }

  lemma IdleStepOn(number: nat, certs: seq<CRow>, after: Web)
    requires Saved(LINKED, Idle(number), [], certs, after) && CertRules(LINKED, certs, after.ids)
    ensures IdentityStepOn(LINKED, number, Idle(number), [], certs, after)
  {
    IdleIsRuled(number);
  }

  lemma IdleBlock()
    ensures IdentityStepOn(LINKED, 1, Idle(1), [], [], LINKED)
  {
    IdleIsSaved(LINKED, 1);
    IdleStepOn(1, [], LINKED);
  }

  lemma CertIsLive()
    ensures IsLive(LINKED.cindex, "A", "B")
  {
    assert LINKED.cindex[0].row == CERT;
  }

  lemma SecondIsWritten()
    ensures Saved(LINKED, Idle(2), [], [AGAIN], TWICE)
  {
    IdleIsSaved(LINKED, 2);
    WithCerts(LINKED, Idle(2), [], LINKED, [AGAIN]);
    OneCert(LINKED.cindex, LINKED.links, X.NODES, AGAIN, 2);
    assert LINKED.cindex + [Dated(AGAIN, 2)] == TWICE.cindex;
    assert LinkOf(X.NODES, AGAIN) == (0, 1);
  }

  lemma SecondCertification()
    ensures IdentityStepOn(LINKED, 2, Idle(2), [], [AGAIN], TWICE)
  {
    SecondIsWritten();
    IdleStepOn(2, [AGAIN], TWICE);
  }

  lemma ReplayIsAllowed()
    ensures ReplayRule(LINKED, [AGAIN], 100)
  {
    CertIsLive();
  }

  lemma ReplayIsUndone()
    ensures Reverted(TWICE, 2, UNLINKED)
  {
    var log := X.WEB1.log;
    assert [Dated(CERT, 0), Dated(AGAIN, 2)][..1] == [Dated(CERT, 0)] && [Dated(CERT, 0)][..0] == [];
    assert Kept([Dated(CERT, 0)], 2) == [Dated(CERT, 0)] && WrittenBy([Dated(CERT, 0)], 2) == [];
    assert WrittenBy(TWICE.cindex, 2) == [AGAIN] && Kept(TWICE.cindex, 2) == LINKED.cindex;
    OneCert([], TWICE.links, X.NODES, AGAIN, 2);
    OlderRows(log, 2);
    OlderIsKept(X.JOINS, 2);
    assert Creations([]) == [] && Moves([], true) == [] && Moves([], false) == [];
    assert ToSet([]) == {};
  }

  /** A certifies B in block #0. When the certification may be replayed, block #2 replays it and is
      reverted: the certification of block #0 is still valid, its link is gone. */
  lemma ReplayedLinkIsLost()
    ensures IdentityStepOn(NO_WEB, 0, X.ID0, [], [CERT], LINKED)
    ensures IdentityStepOn(LINKED, 1, Idle(1), [], [], LINKED)
    ensures IdentityStepOn(LINKED, 2, Idle(2), [], [AGAIN], TWICE) && ReplayRule(LINKED, [AGAIN], 100)
    ensures Reverted(TWICE, 2, UNLINKED)
    ensures IsLive(UNLINKED.cindex, "A", "B") && UNLINKED.links == {} && LINKED.links == {(0, 1)}
  {
    FirstCertification();
    IdleBlock();
    SecondCertification();
    ReplayIsAllowed();
    ReplayIsUndone();
    CertIsLive();
  }
}
