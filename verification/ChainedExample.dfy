/** A block whose second transaction spends an output of the first one and states more than it is
    worth: the block passes, there is more money after it than before, and the next block spends the
    same output again. */
module ChainedExample {
  import opened Amounts
  import opened Outcomes
  import opened Sources
  import opened SourceSums
  import opened TxDepth
  import opened Money
  import opened MoneySteps
  import opened MoneyEffect
  import opened DoubleSpend
  import opened MoneyDal
  import opened AnyInputs
  import opened SpentAgain
  import opened SpentAgainRuns

  const THOUSAND := BasedAmount(1000, 0)
  const MORE := BasedAmount(1100, 0)
  const D1 := Dividend("A", 1)
  const D2 := Dividend("A", 2)
  const D3 := Dividend("A", 3)
  const O1 := Output("T1", 0)
  const O2 := Output("T2", 0)
  const O3 := Output("T3", 0)

  const TX1 := Tx("T1", [Input(D1, THOUSAND)], [TxOutput(THOUSAND, Sig("A"))])
  const TX2 := Tx("T2", [Input(O1, MORE)], [TxOutput(MORE, Sig("B"))])
  const TX3 := Tx("T3", [Input(O1, THOUSAND)], [TxOutput(THOUSAND, Sig("B"))])
  const BLOCK := MoneyBlock(4, [TX1, TX2], None, {"A"}, 0)
  const AGAIN := MoneyBlock(5, [TX3], None, {"A"}, 0)
  const HASHED := map["T1" := {D1}, "T2" := {O1}]
  const DOCS := map["T1" := TX1, "T2" := TX2, "T3" := TX3]

  const IN1 := SRow(Update, D, D1, "T1", THOUSAND, "", 4)
  const OUT1 := SRow(Create, T, O1, "T1", THOUSAND, Sig("A"), 4)
  const IN2 := SRow(Update, T, O1, "T2", MORE, "", 4)
  const OUT2 := SRow(Create, T, O2, "T2", MORE, Sig("B"), 4)
  const LOCAL := [IN1, OUT1, IN2, OUT2]
  const SPENT1 := IN1.(conditions := Sig("A"))
  const SPENT2 := IN2.(conditions := Sig("A"))
  const ROWS := [SPENT1, OUT1, SPENT2, OUT2]

  const IN3 := SRow(Update, T, O1, "T3", THOUSAND, "", 5)
  const OUT3 := SRow(Create, T, O3, "T3", THOUSAND, Sig("B"), 5)
  const SPENT3 := IN3.(conditions := Sig("A"))

  /** A owns three dividends of 1000, one of which the block spends; or just that one. */
  const RICH := Store(map[], map[], map[D1 := THOUSAND, D2 := THOUSAND, D3 := THOUSAND], map[], map[Sig("A") := 3000])
  const POOR := Store(map[], map[], map[D1 := THOUSAND], map[], map[Sig("A") := 1000])
  const AFTER := Store(map[O1 := OUT1, O2 := OUT2], map[O1 := SPENT2], map[D2 := THOUSAND, D3 := THOUSAND],
                       map[D1 := SpentUd(THOUSAND, 4)], map[Sig("A") := 1900, Sig("B") := 1100])
  const LAST := Store(map[O1 := OUT1, O2 := OUT2, O3 := OUT3], map[O1 := SPENT3], map[D2 := THOUSAND, D3 := THOUSAND],
                      map[D1 := SpentUd(THOUSAND, 4)], map[Sig("A") := 900, Sig("B") := 2100])

  lemma SigsDiffer()
    ensures Sig("A") != Sig("B") && Sig("A") != "" && Sig("B") != ""
  {
    assert Sig("A")[4] == 'A' && Sig("B")[4] == 'B';
  }

  lemma Values()
    ensures Value(THOUSAND) == 1000 && Value(MORE) == 1100
  {
    assert Pow10(0) == 1;
  }

  // ---- Three dividends ----

  const PAID0 := EMPTY
  const PAID1 := Store(map[], map[], map[D1 := THOUSAND], map[], map[Sig("A") := 1000])
  const PAID2 := Store(map[], map[], map[D1 := THOUSAND, D2 := THOUSAND], map[], map[Sig("A") := 2000])
  const FIRST := MoneyBlock(0, [], None, {"A"}, 0)

  function Payday(number: nat): MoneyBlock {
    MoneyBlock(number, [], Some(THOUSAND), {"A"}, 0)
  }

  function Grant(number: nat): SRow {
    DividendRow("A", THOUSAND, number)
  }

  /** Block #0 does nothing; blocks #1 to #3 pay A. */
  const DIVIDENDS := Trace([FIRST, Payday(1), Payday(2), Payday(3)], [[], [Grant(1)], [Grant(2)], [Grant(3)]],
                           [[], [], [], []], [EMPTY, PAID0, PAID1, PAID2, RICH])

  lemma NoTransactions(s: Store, b: MoneyBlock, hashed: map<string, set<SourceKey>>)
    requires b.txs == []
    ensures Rows(s, b) == [] && FitTxs(s, hashed, b)
  {
    assert LocalRows([], b.number) == [];
    assert Ids([]) == [] && MaxDepthOf([], []) == 0;
  }

  lemma OnlyRow(r: SRow, c: string)
    requires r.op == Create
    ensures Only([r], Create) == [r] && Only([r], Update) == [] && DistinctKeys([r]) && Keys([r]) == {r.key}
    ensures RowSum([r], Some(c)) == if r.conditions == c then Value(r.amount) else 0
    ensures forall m: map<SourceKey, BasedAmount> :: WithUds(m, [r]) == m[r.key := r.amount]
  {
    assert [r][..0] == [] && [r][0] == r;
  }

  /** A block without transactions that pays `r` to one member. */
  ghost predicate Pays(b: MoneyBlock, r: SRow) {
    && b.txs == [] && b.dividend.Some? && r.key.Dividend? && b.producers == {r.key.pub}
    && r == DividendRow(r.key.pub, b.dividend.value, b.number)
  }

  function WhenPaid(s: Store, r: SRow): Store {
    s.(uds := s.uds[r.key := r.amount],
       wallets := s.wallets[r.conditions := Balance(s.wallets, r.conditions) + Value(r.amount)])
  }

  lemma PaymentIsFlushed(s: Store, b: MoneyBlock, r: SRow)
    requires Pays(b, r)
    ensures Flushed(s, b, [r], [], WhenPaid(s, r))
  {
    NoTransactions(s, b, map[]);
    OnlyRow(r, "");
    var none: seq<SRow> := [];
    assert none + none == none && Keys(none) == {};
    assert PutRows(s.creates, none) == s.creates && PutRows(s.updates, none) == s.updates;
  }

  lemma PaymentMovesWallets(s: Store, b: MoneyBlock, r: SRow)
    requires Pays(b, r)
    ensures WalletsMoved(s.wallets, Rows(s, b) + [], [r], false, WhenPaid(s, r).wallets)
  {
    NoTransactions(s, b, map[]);
    var none: seq<SRow> := [];
    assert none + none == none;
    forall c
      ensures Balance(WhenPaid(s, r).wallets, c) ==
              Balance(s.wallets, c) + Signed(false, Variation(none, c) + RowSum([r], Some(c)))
    {
      OnlyRow(r, c);
    }
  }

  lemma PaymentIsEnough(s: Store, b: MoneyBlock, r: SRow)
    requires Pays(b, r) && Balance(s.wallets, r.conditions) >= 0
    requires Value(r.amount) >= ACCOUNT_MINIMUM * Pow10(b.unitBase)
    ensures IsDividend(b, [r]) && IsGarbage(s, Rows(s, b) + [r], b, []) && NoneOverdrawn(s, Rows(s, b) + [r])
  {
    NoTransactions(s, b, map[]);
    OnlyRow(r, r.conditions);
    assert Rows(s, b) + [r] == [r];
    assert IsDividendRow(b, r);
    assert Produced(b) == {r.key};
    assert Variation([r], r.conditions) == Value(r.amount);
    assert forall e | e in [r] :: e.conditions == r.conditions;
  }

  lemma PaymentIsSaved(s: Store, b: MoneyBlock, r: SRow)
    requires Pays(b, r) && Balance(s.wallets, r.conditions) >= 0
    requires Value(r.amount) >= ACCOUNT_MINIMUM * Pow10(b.unitBase)
    ensures Step(s, b, [r], [], WhenPaid(s, r)) && NoneOverdrawn(s, Rows(s, b) + [r])
  {
    PaymentIsEnough(s, b, r);
    PaymentIsFlushed(s, b, r);
    PaymentMovesWallets(s, b, r);
  }

  lemma NothingIsFlushed(s: Store, b: MoneyBlock)
    requires Rows(s, b) == []
    ensures Flushed(s, b, [], [], s)
  {
    var none: seq<SRow> := [];
    assert none + none == none && Keys(none) == {} && WithUds(s.uds, none) == s.uds;
  }

  lemma NothingMovesWallets(wallets: map<string, int>, none: seq<SRow>)
    requires none == []
    ensures WalletsMoved(wallets, none, none, false, wallets)
  {
    forall c
      ensures Balance(wallets, c) == Balance(wallets, c) + Signed(false, Variation(none, c) + RowSum(none, Some(c)))
    {
      assert RowSum(none, Some(c)) == 0;
    }
  }

  lemma NothingIsSaved(s: Store, b: MoneyBlock)
    requires b.txs == [] && b.dividend.None?
    ensures Step(s, b, [], [], s) && NoneOverdrawn(s, Rows(s, b) + [])
  {
    var none: seq<SRow> := [];
    NoTransactions(s, b, map[]);
    NothingIsFlushed(s, b);
    NothingMovesWallets(s.wallets, none);
    assert none + none == none && Keys(none) == {};
  }

  lemma DividendsFollow()
    ensures WhenPaid(PAID0, Grant(1)) == PAID1 && WhenPaid(PAID1, Grant(2)) == PAID2
    ensures WhenPaid(PAID2, Grant(3)) == RICH
  {
    Values();
  }

  lemma PaydayIsSaved(s: Store, number: nat)
    requires Balance(s.wallets, Sig("A")) >= 0
    ensures Fit(s, HASHED, Payday(number)) && NoneOverdrawn(s, Rows(s, Payday(number)) + [Grant(number)])
    ensures Step(s, Payday(number), [Grant(number)], [], WhenPaid(s, Grant(number)))
  {
    Values();
    NoTransactions(s, Payday(number), HASHED);
    PaymentIsSaved(s, Payday(number), Grant(number));
  }

  lemma FirstIsSaved(t: Trace, i: nat)
    requires t == DIVIDENDS && i == 0
    ensures RunStep(t, HASHED, i) && NoneOverdrawn(t.stores[i], Rows(t.stores[i], t.blocks[i]) + t.dividends[i])
  {
    NoTransactions(EMPTY, FIRST, HASHED);
    NothingIsSaved(EMPTY, FIRST);
  }

  lemma DividendAt(t: Trace, i: nat)
    requires t == DIVIDENDS && i < 4
    ensures RunStep(t, HASHED, i) && NoneOverdrawn(t.stores[i], Rows(t.stores[i], t.blocks[i]) + t.dividends[i])
  {
    if i == 0 {
      FirstIsSaved(t, i);
    } else {
      DividendsFollow();
      PaydayIsSaved(t.stores[i], i);
    }
  }

  lemma DividendsAreSaved(t: Trace)
    requires t == DIVIDENDS
    ensures MoneyRun(t, HASHED)
  {
    forall i | 0 <= i < 4 ensures RunStep(t, HASHED, i) {
      DividendAt(t, i);
    }
  }

  /** A run of plain blocks leads to the store that the block is applied to. */
  lemma RichIsReached()
    ensures MoneyRun(DIVIDENDS, HASHED) && DIVIDENDS.stores[4] == RICH
    ensures Sound(RICH, 4, HASHED)
  {
    DividendsAreSaved(DIVIDENDS);
    RunIsSound(DIVIDENDS, HASHED, 4);
  }

  // ---- The rows ----

  lemma LocalIs()
    ensures LocalRows(BLOCK.txs, 4) == LOCAL
  {
    assert [TX1, TX2][..1] == [TX1] && [TX1][..0] == [];
    assert InputRows(TX1, 1, 4) == [IN1] && OutputRows(TX1, 1, 4) == [OUT1];
    assert InputRows(TX2, 1, 4) == [IN2] && OutputRows(TX2, 1, 4) == [OUT2];
    assert LocalRows([TX1], 4) == [IN1, OUT1];
  }

  lemma OnlyWithLast(rows: seq<SRow>, r: SRow, op: Op)
    ensures Only(rows + [r], op) == Only(rows, op) + if r.op == op then [r] else []
  {
    assert (rows + [r])[..|rows|] == rows;
  }

  lemma OfTypeWithLast(rows: seq<SRow>, r: SRow, t: SrcType)
    ensures OfType(rows + [r], t) == OfType(rows, t) + if r.srcType == t then [r] else []
  {
    assert (rows + [r])[..|rows|] == rows;
  }

  /** The rows of a block like this one, by operation and by type. */
  lemma ByOperation(a: SRow, b: SRow, c: SRow, d: SRow, op: Op)
    requires a.op == c.op == Update && b.op == d.op == Create
    ensures Only([a, b, c, d], op) == if op == Update then [a, c] else [b, d]
  {
    OnlyWithLast([], a, op);
    OnlyWithLast([a], b, op);
    OnlyWithLast([a, b], c, op);
    OnlyWithLast([a, b, c], d, op);
    assert [] + [a] == [a] && [a] + [b] == [a, b] && [a, b] + [c] == [a, b, c] && [a, b, c] + [d] == [a, b, c, d];
  }

  lemma ThreeByOperation(b: SRow, c: SRow, d: SRow, op: Op)
    requires c.op == Update && b.op == d.op == Create
    ensures Only([b, c, d], op) == if op == Update then [c] else [b, d]
  {
    OnlyWithLast([], b, op);
    OnlyWithLast([b], c, op);
    OnlyWithLast([b, c], d, op);
    assert [] + [b] == [b] && [b] + [c] == [b, c] && [b, c] + [d] == [b, c, d];
  }

  lemma ByType(a: SRow, b: SRow, c: SRow, d: SRow, t: SrcType)
    requires a.srcType == D && b.srcType == c.srcType == d.srcType == T
    ensures OfType([a, b, c, d], t) == if t == T then [b, c, d] else [a]
  {
    OfTypeWithLast([], a, t);
    OfTypeWithLast([a], b, t);
    OfTypeWithLast([a, b], c, t);
    OfTypeWithLast([a, b, c], d, t);
    assert [] + [a] == [a] && [a] + [b] == [a, b] && [a, b] + [c] == [a, b, c] && [a, b, c] + [d] == [a, b, c, d];
  }

  lemma OutputIsFound()
    ensures LocalSource(LOCAL, O1) == Some(OUT1) && LocalSource(LOCAL, D1) == None
    ensures FindOutput(LOCAL, O1) == Some(OUT1) && FindOutput(LOCAL, D1) == None
  {
    SigsDiffer();
    assert LOCAL[1..] == [OUT1, IN2, OUT2] && [OUT1, IN2, OUT2][1..] == [IN2, OUT2];
    assert [IN2, OUT2][1..] == [OUT2] && [OUT2][1..] == [];
    assert LocalSource([OUT2], D1) == None && FindOutput([OUT2], D1) == None;
    assert LocalSource([IN2, OUT2], D1) == None && FindOutput([IN2, OUT2], D1) == None;
    assert LocalSource([OUT1, IN2, OUT2], D1) == None && FindOutput([OUT1, IN2, OUT2], D1) == None;
  }

  lemma RowsAre(s: Store)
    requires s == RICH || s == POOR
    ensures Rows(s, BLOCK) == ROWS
  {
    LocalIs();
    OutputIsFound();
    assert Resolved(s, LOCAL, 1) == [SPENT1];
    assert Resolved(s, LOCAL, 2) == [SPENT1, OUT1];
    assert Resolved(s, LOCAL, 3) == [SPENT1, OUT1, SPENT2];
  }

  // ---- The block is accepted ----

  lemma OneHop()
    ensures MaxDepthOf(LOCAL, Ids(LOCAL)) <= MAX_DEPTH
  {
    MaxDepthIsLongestChain(LOCAL, 2);
    forall a, b | Spends(LOCAL, a, b) ensures a == "T2" && b == "T1" {
      SpendIs(a, b);
    }
    if path: seq<string> :| |path| == 3 && Chain(LOCAL, path) {
      TwoHops(path);
    }
  }

  lemma TwoHops(path: seq<string>)
    requires |path| == 3 && forall a, b | Spends(LOCAL, a, b) :: a == "T2" && b == "T1"
    ensures !Chain(LOCAL, path)
  {
    assert Hop(LOCAL, path, 0) ==> path[1] == "T1";
    assert Hop(LOCAL, path, 1) ==> path[1] == "T2";
  }

  lemma SpendIs(a: string, b: string)
    requires Spends(LOCAL, a, b)
    ensures a == "T2" && b == "T1"
  {
    OutputIsFound();
    assert LOCAL[..3] == [IN1, OUT1, IN2] && [IN1, OUT1, IN2][..2] == [IN1, OUT1];
    assert [IN1, OUT1][..1] == [IN1] && [IN1][..0] == [];
    assert Consumed(LOCAL, [IN1], a) == [];
    assert Consumed(LOCAL, [IN1, OUT1], a) == [];
    assert Consumed(LOCAL, [IN1, OUT1, IN2], a) == if a == "T2" then ["T1"] else [];
  }

  lemma AreUsable(s: Store)
    requires s == RICH || s == POOR
    ensures AllUsable(s, LOCAL)
  {
    OutputIsFound();
    SigsDiffer();
    assert Usable(s, LOCAL, IN1) && Usable(s, LOCAL, IN2);
    assert LOCAL[0] == IN1 && LOCAL[1] == OUT1 && LOCAL[2] == IN2 && LOCAL[3] == OUT2;
    forall i | 0 <= i < |LOCAL| && LOCAL[i].op == Update ensures Usable(s, LOCAL, LOCAL[i]) {
      assert LOCAL[i] == IN1 || LOCAL[i] == IN2;
    }
  }

  lemma KeysAreDistinct()
    ensures DistinctKeys(Only(LOCAL, Update)) && DistinctKeys(Only(LOCAL, Create))
  {
    ByOperation(IN1, OUT1, IN2, OUT2, Update);
    ByOperation(IN1, OUT1, IN2, OUT2, Create);
  }

  lemma IsAccepted(s: Store)
    requires s == RICH || s == POOR
    ensures Accepted(s, BLOCK)
  {
    LocalIs();
    KeysAreDistinct();
    OneHop();
    SigsDiffer();
    OneForOne(TX1, THOUSAND);
    OneForOne(TX2, MORE);
    AreUsable(s);
  }

  lemma IsHashed()
    ensures HashesIdentify(HASHED, BLOCK.txs)
  {
    assert TX1.inputs[0].key == D1 && TX2.inputs[0].key == O1;
    assert InputKeys(TX1) == {D1} && InputKeys(TX2) == {O1};
  }

  // ---- The stores before and after ----

  lemma TwoSources(k: SourceKey, a: Source, l: SourceKey, b: Source, account: Option<string>)
    requires k != l
    ensures Sum(map[k := a, l := b], account) == Weight(a, account) + Weight(b, account)
  {
    var none: map<SourceKey, Source> := map[];
    SumWith(none, k, a, account);
    SumWith(none[k := a], l, b, account);
    assert map[k := a, l := b] == none[k := a][l := b];
  }

  lemma OneMore(m: map<SourceKey, Source>, k: SourceKey, l: SourceKey, a: Source, n: SourceKey, b: Source,
                account: Option<string>)
    requires m == map[k := a, l := a] && n !in m && k != l
    ensures Sum(m[n := b], account) == 2 * Weight(a, account) + Weight(b, account)
  {
    TwoSources(k, a, l, a, account);
    SumWith(m, n, b, account);
  }

  /** What is worth a dividend of 1000 or an output of B. */
  function InAccount(account: Option<string>, pub: string, amount: nat): nat {
    if account.None? || account.value == Sig(pub) then amount else 0
  }

  lemma WorthBefore(account: Option<string>)
    ensures Sum(Available(RICH), account) == InAccount(account, "A", 3000)
  {
    var ud := Source(THOUSAND, Sig("A"));
    var two := map[D1 := ud, D2 := ud];
    Values();
    OneMore(two, D1, D2, ud, D3, ud, account);
    assert Available(RICH) == two[D3 := ud];
  }

  /** The available sources when one of two outputs is consumed and two dividends are left. */
  lemma AvailableIs(o: SourceKey, a: SRow, p: SourceKey, b: SRow, u: SRow, k: SourceKey, l: SourceKey, ud: BasedAmount,
                    spent: map<SourceKey, SpentUd>, wallets: map<string, int>)
    requires o != p && o != k && p != k && k != l && o != l && p != l
    ensures Available(Store(map[o := a, p := b], map[o := u], map[k := ud, l := ud], spent, wallets)) ==
            map[k := Source(ud, Owner(k)), l := Source(ud, Owner(l))][p := SourceOf(b)]
  {}

  /** One more output. */
  lemma AvailableWith(s: Store, t: Store, q: SourceKey, c: SRow)
    requires t.creates == s.creates[q := c] && t.updates.Keys == s.updates.Keys && t.uds == s.uds
    requires q !in s.creates && q !in s.updates && q !in s.uds
    ensures Available(t) == Available(s)[q := SourceOf(c)]
  {}

  lemma WorthWith(s: Store, t: Store, q: SourceKey, c: SRow, account: Option<string>)
    requires t.creates == s.creates[q := c] && t.updates.Keys == s.updates.Keys && t.uds == s.uds
    requires q !in s.creates && q !in s.updates && q !in s.uds
    ensures Sum(Available(t), account) == Sum(Available(s), account) + Weight(SourceOf(c), account)
  {
    AvailableWith(s, t, q, c);
    SumWith(Available(s), q, SourceOf(c), account);
  }

  lemma WorthAfterwards(account: Option<string>)
    ensures Sum(Available(AFTER), account) == InAccount(account, "A", 2000) + InAccount(account, "B", 1100)
  {
    var ud := Source(THOUSAND, Sig("A"));
    Values();
    AvailableIs(O1, OUT1, O2, OUT2, SPENT2, D2, D3, THOUSAND, AFTER.spent, AFTER.wallets);
    OneMore(map[D2 := ud, D3 := ud], D2, D3, ud, O2, SourceOf(OUT2), account);
  }

  lemma WorthAtLast(account: Option<string>)
    ensures Sum(Available(LAST), account) == InAccount(account, "A", 2000) + InAccount(account, "B", 2100)
  {
    Values();
    WorthAfterwards(account);
    WorthWith(AFTER, LAST, O3, OUT3, account);
  }

  lemma VariationIs(c: string)
    ensures Variation(ROWS, c) == if c == Sig("A") then -1100 else if c == Sig("B") then 1100 else 0
  {
    SigsDiffer();
    Values();
    ByOperation(SPENT1, OUT1, SPENT2, OUT2, Create);
    ByOperation(SPENT1, OUT1, SPENT2, OUT2, Update);
    TwoSums(OUT1, OUT2, c);
    TwoSums(SPENT1, SPENT2, c);
    assert Variation(ROWS, c) == RowSum([OUT1, OUT2], Some(c)) - RowSum([SPENT1, SPENT2], Some(c));
  }

  lemma TwoSums(a: SRow, b: SRow, c: string)
    ensures RowSum([a, b], Some(c)) == Weight(SourceOf(a), Some(c)) + Weight(SourceOf(b), Some(c))
  {
    assert [a, b][..1] == [a] && [a][..0] == [];
    assert RowSum([a], Some(c)) == Weight(SourceOf(a), Some(c));
  }

  lemma NothingIsGarbage()
    ensures IsGarbage(RICH, ROWS + [], BLOCK, [])
    ensures forall c | c == Sig("A") || c == Sig("B") :: !Overdrawn(RICH, ROWS, c)
  {
    SigsDiffer();
    VariationIs(Sig("A"));
    VariationIs(Sig("B"));
    assert ROWS + [] == ROWS;
    assert Pow10(0) == 1;
    assert forall r | r in ROWS :: r.conditions == Sig("A") || r.conditions == Sig("B");
  }

  lemma RowsFlushed(op: Op)
    ensures Only(OfType(ROWS, T), op) == if op == Create then [OUT1, OUT2] else [SPENT2]
  {
    ByType(SPENT1, OUT1, SPENT2, OUT2, T);
    ThreeByOperation(OUT1, SPENT2, OUT2, op);
  }

  lemma DividendsFlushed()
    ensures Keys(OfType(ROWS, D)) == {D1}
  {
    ByType(SPENT1, OUT1, SPENT2, OUT2, D);
    assert [SPENT1][0].key == D1;
  }

  lemma RecordsPut()
    ensures PutRows(map[], [OUT1, OUT2]) == AFTER.creates && PutRows(map[], [SPENT2]) == AFTER.updates
  {
    var none: map<SourceKey, SRow> := map[];
    assert [OUT1, OUT2][..1] == [OUT1] && [OUT1][..0] == [] && [SPENT2][..0] == [];
    assert PutRows(none, [OUT1]) == none[O1 := OUT1];
  }

  lemma SpentIs(k: SourceKey, amount: BasedAmount, left: map<SourceKey, BasedAmount>, sindex: seq<SRow>, number: nat)
    requires k !in left && Keys(OfType(sindex, D)) == {k}
    ensures FlushedUds(left[k := amount], sindex) == left
    ensures FlushedSpent(left[k := amount], map[], sindex, number) == map[k := SpentUd(amount, number)]
  {}

  lemma FlushedIs(s: Store, b: MoneyBlock, rows: seq<SRow>, after: Store)
    requires Rows(s, b) == rows
    requires after.creates == PutRows(s.creates, Only(OfType(rows, T), Create))
    requires after.updates == PutRows(s.updates, Only(OfType(rows, T), Update))
    requires after.uds == FlushedUds(s.uds, rows) && after.spent == FlushedSpent(s.uds, s.spent, rows, b.number)
    ensures Flushed(s, b, [], [], after)
  {
    assert rows + [] == rows;
    assert WithUds(s.uds, []) == s.uds;
  }

  lemma RecordsAfter()
    ensures Flushed(RICH, BLOCK, [], [], AFTER)
  {
    RowsAre(RICH);
    RowsFlushed(Create);
    RowsFlushed(Update);
    RecordsPut();
    SpentAfter();
    FlushedIs(RICH, BLOCK, ROWS, AFTER);
  }

  lemma SpentAfter()
    ensures AFTER.uds == FlushedUds(RICH.uds, ROWS) && AFTER.spent == FlushedSpent(RICH.uds, map[], ROWS, 4)
  {
    DividendsFlushed();
    SpentIs(D1, THOUSAND, AFTER.uds, ROWS, 4);
    assert RICH.uds == AFTER.uds[D1 := THOUSAND];
  }

  lemma WalletsAfter()
    ensures WalletsMoved(RICH.wallets, ROWS + [], [], false, AFTER.wallets)
  {
    SigsDiffer();
    assert ROWS + [] == ROWS;
    forall c
      ensures Balance(AFTER.wallets, c) ==
              Balance(RICH.wallets, c) + Signed(false, Variation(ROWS + [], c) + RowSum([], Some(c)))
    {
      VariationIs(c);
    }
  }

  lemma BlockIsApplied()
    ensures Step(RICH, BLOCK, [], [], AFTER)
  {
    RowsAre(RICH);
    NothingIsGarbage();
    RecordsAfter();
    WalletsAfter();
    assert IsDividend(BLOCK, []);
  }

  /** The block is accepted on sound stores, the garbage rule finds no negative balance, and it is
      applied. */
  lemma ChainedInputPasses()
    ensures Sound(RICH, 4, HASHED) && Accepted(RICH, BLOCK) && HashesIdentify(HASHED, BLOCK.txs)
    ensures Step(RICH, BLOCK, [], [], AFTER)
  {
    RichIsReached();
    IsAccepted(RICH);
    IsHashed();
    BlockIsApplied();
  }

  /** The supply grows from 3000 to 3100: 100 came from nowhere. The wallet of A, who still owns two
      dividends of 1000, says 1900. */
  lemma ChainedInputCreatesMoney()
    ensures !ChainedInputsMatch(LOCAL)
    ensures Supply(RICH) == 3000 && Supply(AFTER) == 3100
    ensures Balance(AFTER.wallets, Sig("A")) == 1900 && Sum(Available(AFTER), Some(Sig("A"))) == 2000
    ensures !Overdrawn(RICH, ROWS, Sig("A")) && !Overdrawn(RICH, ROWS, Sig("B"))
  {
    WorthBefore(None);
    WorthAfterwards(None);
    WorthAfterwards(Some(Sig("A")));
    SigsDiffer();
    NothingIsGarbage();
    OutputIsFound();
    assert LOCAL[2] == IN2;
  }

  /** When the account holds no other money, the garbage rule throws NEGATIVE_BALANCE. */
  lemma ChainedInputIsCaught()
    ensures Accepted(POOR, BLOCK) && Overdrawn(POOR, Rows(POOR, BLOCK), Sig("A"))
  {
    IsAccepted(POOR);
    RowsAre(POOR);
    VariationIs(Sig("A"));
  }

  // ---- The same output, spent again ----

  lemma ThirdIs()
    ensures var local := LocalRows(AGAIN.txs, 5);
            OneOfEach(local) && local[0] == IN3 && local[1] == OUT3 && ChainedInputsMatch(local)
    ensures LocalSource(LocalRows(AGAIN.txs, 5), O1) == None
    ensures MaxDepthOf(LocalRows(AGAIN.txs, 5), Ids(LocalRows(AGAIN.txs, 5))) <= MAX_DEPTH
  {
    TwoRows(TX3, 5);
    var local := LocalRows(AGAIN.txs, 5);
    assert "T1"[1] == '1' && "T3"[1] == '3';
    NoLocalSource(local, O1);
    NothingIsChained(local);
  }

  lemma ThirdIsAccepted()
    ensures Accepted(AFTER, AGAIN) && OneOfEach(Rows(AFTER, AGAIN))
    ensures Rows(AFTER, AGAIN)[0] == SPENT3 && Rows(AFTER, AGAIN)[1] == OUT3
  {
    ThirdIs();
    SigsDiffer();
    var local := LocalRows(AGAIN.txs, 5);
    assert Usable(AFTER, local, IN3);
    OneForOne(TX3, THOUSAND);
    OneIsAccepted(AFTER, AGAIN, TX3, local);
    RespentRows(AFTER, AGAIN, local);
  }

  lemma PutOne(m: map<SourceKey, SRow>, r: SRow)
    ensures PutRows(m, [r]) == m[r.key := r]
  {
    assert [r][..0] == [];
  }

  lemma AllTransactions(rows: seq<SRow>)
    requires OneOfEach(rows) && rows[0].srcType == T && rows[1].srcType == T
    ensures OfType(rows, T) == rows && OfType(rows, D) == []
  {
    AllOfType(rows, T);
    NoneOfType(rows, D);
  }

  /** The store when a transaction has taken one output and made another. */
  lemma SwapIsFlushed(s: Store, b: MoneyBlock, rows: seq<SRow>, after: Store)
    requires Rows(s, b) == rows && OneOfEach(rows) && rows[0].srcType == T && rows[1].srcType == T
    requires after.creates == s.creates[rows[1].key := rows[1]] && after.updates == s.updates[rows[0].key := rows[0]]
    requires after.uds == s.uds && after.spent == s.spent
    ensures Flushed(s, b, [], [], after)
  {
    AllTransactions(rows);
    OnlyOne(rows);
    PutOne(s.creates, rows[1]);
    PutOne(s.updates, rows[0]);
    NoDividendSpent(s, rows, b.number);
    FlushedIs(s, b, rows, after);
  }

  lemma NoDividendSpent(s: Store, rows: seq<SRow>, number: nat)
    requires OfType(rows, D) == []
    ensures FlushedUds(s.uds, rows) == s.uds && FlushedSpent(s.uds, s.spent, rows, number) == s.spent
  {
    assert Keys(OfType(rows, D)) == {};
  }

  lemma ThirdIsFlushed()
    ensures Flushed(AFTER, AGAIN, [], [], LAST)
  {
    ThirdIsAccepted();
    ThirdRecords();
    SwapIsFlushed(AFTER, AGAIN, Rows(AFTER, AGAIN), LAST);
  }

  lemma ThirdRecords()
    ensures LAST.creates == AFTER.creates[O3 := OUT3] && LAST.updates == AFTER.updates[O1 := SPENT3]
  {}

  lemma SwapVariation(rows: seq<SRow>, c: string)
    requires OneOfEach(rows)
    ensures Variation(rows, c) == Weight(SourceOf(rows[1]), Some(c)) - Weight(SourceOf(rows[0]), Some(c))
  {
    OnlyOne(rows);
    assert [rows[0]][..0] == [] && [rows[1]][..0] == [];
  }

  lemma ThirdVariation(rows: seq<SRow>, c: string)
    requires OneOfEach(rows) && rows[0] == SPENT3 && rows[1] == OUT3
    ensures Variation(rows, c) == if c == Sig("A") then -1000 else if c == Sig("B") then 1000 else 0
  {
    SigsDiffer();
    Values();
    SwapVariation(rows, c);
  }

  lemma ThirdMovesWallets(rows: seq<SRow>)
    requires OneOfEach(rows) && rows[0] == SPENT3 && rows[1] == OUT3
    ensures WalletsMoved(AFTER.wallets, rows, [], false, LAST.wallets)
  {
    SigsDiffer();
    forall c
      ensures Balance(LAST.wallets, c) ==
              Balance(AFTER.wallets, c) + Signed(false, Variation(rows, c) + RowSum([], Some(c)))
    {
      ThirdVariation(rows, c);
    }
  }

  lemma ThirdIsNotGarbage(rows: seq<SRow>)
    requires OneOfEach(rows) && rows[0] == SPENT3 && rows[1] == OUT3
    ensures IsGarbage(AFTER, rows, AGAIN, []) && NoneOverdrawn(AFTER, rows)
  {
    SigsDiffer();
    ThirdVariation(rows, Sig("A"));
    ThirdVariation(rows, Sig("B"));
    assert Pow10(0) == 1;
    assert forall r | r in rows :: r.conditions == Sig("A") || r.conditions == Sig("B");
  }

  lemma ThirdIsSaved()
    ensures Step(AFTER, AGAIN, [], [], LAST) && NoneOverdrawn(AFTER, Rows(AFTER, AGAIN) + [])
  {
    var rows := Rows(AFTER, AGAIN);
    ThirdIsAccepted();
    ThirdIsFlushed();
    ThirdMovesWallets(rows);
    ThirdIsNotGarbage(rows);
    assert rows + [] == rows;
    assert IsDividend(AGAIN, []);
  }

  /** The whole run: a block that does nothing, three dividends, the chained input, and the block that
      spends the output again. */
  const WHOLE := Trace([FIRST, Payday(1), Payday(2), Payday(3), BLOCK, AGAIN],
                       [[], [Grant(1)], [Grant(2)], [Grant(3)], [], []],
                       [[], [], [], [], [], []], [EMPTY, PAID0, PAID1, PAID2, RICH, AFTER, LAST])

  lemma DocsAre()
    ensures Documented(DOCS, BLOCK.txs) && Documented(DOCS, AGAIN.txs)
  {
    assert "T1"[1] == '1' && "T2"[1] == '2' && "T3"[1] == '3';
  }

  lemma TwoAccounts(s: Store, rows: seq<SRow>)
    requires forall r | r in rows :: r.conditions == Sig("A") || r.conditions == Sig("B")
    requires !Overdrawn(s, rows, Sig("A")) && !Overdrawn(s, rows, Sig("B"))
    ensures NoneOverdrawn(s, rows)
  {}

  lemma BlockOverdrawsNobody()
    ensures NoneOverdrawn(RICH, Rows(RICH, BLOCK) + [])
  {
    RowsAre(RICH);
    assert ROWS + [] == ROWS;
    SigsDiffer();
    VariationIs(Sig("A"));
    VariationIs(Sig("B"));
    TwoAccounts(RICH, ROWS);
  }

  /** What block `i` of a trace does. */
  ghost predicate StepIs(
      t: Trace, i: nat, s: Store, b: MoneyBlock, dividends: seq<SRow>, garbage: seq<SRow>, after: Store)
  {
    && WellFormed(t) && i < |t.blocks| && t.stores[i] == s && t.blocks[i] == b && t.stores[i + 1] == after
    && t.dividends[i] == dividends && t.garbage[i] == garbage
  }

  lemma SavedAs(
      t: Trace, docs: map<string, Tx>, i: nat, s: Store, b: MoneyBlock, dividends: seq<SRow>, garbage: seq<SRow>,
      after: Store)
    requires StepIs(t, i, s, b, dividends, garbage, after) && b.number == i
    requires Documented(docs, b.txs) && Accepted(s, b) && NoneOverdrawn(s, Rows(s, b) + dividends)
    requires Step(s, b, dividends, garbage, after)
    ensures SavedRunStep(t, docs, i)
  {}

  lemma BlockIsSaved(t: Trace, i: nat, s: Store, b: MoneyBlock, after: Store)
    requires s == RICH && b == BLOCK && after == AFTER && i == 4 && StepIs(t, i, s, b, [], [], after)
    ensures SavedRunStep(t, DOCS, i)
  {
    DocsAre();
    IsAccepted(RICH);
    BlockIsApplied();
    BlockOverdrawsNobody();
    SavedAs(t, DOCS, i, s, b, [], [], after);
  }

  lemma AgainIsSaved(t: Trace, i: nat, s: Store, b: MoneyBlock, after: Store)
    requires s == AFTER && b == AGAIN && after == LAST && i == 5 && StepIs(t, i, s, b, [], [], after)
    ensures SavedRunStep(t, DOCS, i)
  {
    DocsAre();
    ThirdIsAccepted();
    ThirdIsSaved();
    SavedAs(t, DOCS, i, s, b, [], [], after);
  }

  lemma LastBlocks(t: Trace, i: nat)
    requires t == WHOLE && 4 <= i < 6
    ensures if i == 4 then StepIs(t, i, RICH, BLOCK, [], [], AFTER) else StepIs(t, i, AFTER, AGAIN, [], [], LAST)
  {}

  lemma FirstBlocks(t: Trace, u: Trace, i: nat)
    requires t == WHOLE && u == DIVIDENDS && i < 4
    ensures WellFormed(u) && |u.blocks| == 4 && u.blocks[i].txs == []
    ensures StepIs(t, i, u.stores[i], u.blocks[i], u.dividends[i], u.garbage[i], u.stores[i + 1])
  {}

  lemma DividendIsSaved(t: Trace, u: Trace, i: nat)
    requires WellFormed(u) && |u.blocks| == 4 && i < 4 && u.blocks[i].txs == []
    requires StepIs(t, i, u.stores[i], u.blocks[i], u.dividends[i], u.garbage[i], u.stores[i + 1])
    requires RunStep(u, HASHED, i) && NoneOverdrawn(u.stores[i], Rows(u.stores[i], u.blocks[i]) + u.dividends[i])
    ensures SavedRunStep(t, DOCS, i)
  {}

  lemma SavedAt(t: Trace, u: Trace, i: nat)
    requires t == WHOLE && u == DIVIDENDS && i < 6
    ensures SavedRunStep(t, DOCS, i)
  {
    if i < 4 {
      FirstBlocks(t, u, i);
      DividendAt(u, i);
      DividendIsSaved(t, u, i);
    } else {
      LastBlocks(t, i);
      if i == 4 {
        BlockIsSaved(t, i, t.stores[i], t.blocks[i], t.stores[i + 1]);
      } else {
        AgainIsSaved(t, i, t.stores[i], t.blocks[i], t.stores[i + 1]);
      }
    }
  }

  lemma ConsumedTwice()
    ensures O1 in ConsumedAt(WHOLE, 4) && O1 in ConsumedAt(WHOLE, 5)
  {
    RowsAre(RICH);
    ByOperation(SPENT1, OUT1, SPENT2, OUT2, Update);
    var first := Only(ROWS, Update) + [];
    assert first[1].key == O1;
    ThirdIsAccepted();
    OnlyOne(Rows(AFTER, AGAIN));
    var second := Only(Rows(AFTER, AGAIN), Update) + [];
    assert second[0].key == O1;
  }

  lemma MoneyAtLast()
    ensures Supply(LAST) == 4100 && Balance(LAST.wallets, Sig("A")) == 900
    ensures Sum(Available(LAST), Some(Sig("A"))) == 2000 && Sum(Available(LAST), Some(Sig("B"))) == 2100
  {
    SigsDiffer();
    WorthAtLast(None);
    WorthAtLast(Some(Sig("A")));
    WorthAtLast(Some(Sig("B")));
  }

  lemma WholeIsSaved(t: Trace)
    requires t == WHOLE
    ensures SavedRun(t, DOCS)
  {
    forall i | 0 <= i < 6 ensures SavedRunStep(t, DOCS, i) {
      SavedAt(t, DIVIDENDS, i);
    }
  }

  /** A run of six blocks that the code saves, without an exception of the garbage rule, consumes the
      output twice. The second time the input states its amount. The supply is 4100, of which 3000 were
      paid; B owns 2100, and A two dividends, while the wallet of A says 900. */
  lemma OutputIsSpentTwice()
    ensures SavedRun(WHOLE, DOCS) && O1 in ConsumedAt(WHOLE, 4) && O1 in ConsumedAt(WHOLE, 5)
    ensures ExposedAt(AFTER, O1) && !ExposedAt(LAST, O1)
    ensures ChainedInputsMatch(LocalRows(AGAIN.txs, 5))
    ensures Supply(LAST) == 4100 && Balance(LAST.wallets, Sig("A")) == 900
    ensures Sum(Available(LAST), Some(Sig("A"))) == 2000 && Sum(Available(LAST), Some(Sig("B"))) == 2100
  {
    WholeIsSaved(WHOLE);
    ThirdIs();
    ConsumedTwice();
    MoneyAtLast();
  }
}
