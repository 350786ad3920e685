/** When a source that was consumed can be consumed again: the global lookup of an input compares the
    amount of the consumption record, not only its name. */
module SpentAgain {
  import opened Amounts
  import opened Outcomes
  import opened Sources
  import opened SourceSums
  import opened TxDepth
  import opened Money
  import opened LocalSources
  import opened MoneySteps
  import opened MoneyConservation
  import opened MoneyEffect
  import opened MoneyRuns
  import opened DoubleSpend
  import opened MoneyRevert
  import opened AnyInputs

  /** A consumed source that is still taken for available: an output whose consumption record states
      another amount, or a dividend that the garbage rule consumed in the index of transactions. */
  predicate ExposedAt(s: Store, k: SourceKey) {
    && k in s.updates
    && if k.Dividend? then k in s.uds else k in s.creates && s.updates[k].amount != s.creates[k].amount
  }

  /** A block that may come next consumes `k`. */
  ghost predicate Takes(s: Store, docs: map<string, Tx>, b: MoneyBlock, k: SourceKey) {
    Accepted(s, b) && Documented(docs, b.txs) && k in Keys(Inputs(s, b))
  }

  ghost predicate Extends(docs: map<string, Tx>, more: map<string, Tx>) {
    forall h | h in docs :: h in more && more[h] == docs[h]
  }

  ghost predicate CanBeSpent(s: Store, next: nat, docs: map<string, Tx>, k: SourceKey) {
    exists b: MoneyBlock, more :: b.number == next && Extends(docs, more) && Takes(s, more, b, k)
  }

  // ---- Only exposed sources are consumed again ----

  lemma SpentAgainIsExposed(s: Store, docs: map<string, Tx>, b: MoneyBlock, k: SourceKey)
    requires Consistent(s, b.number, docs) && Takes(s, docs, b, k) && k in EverConsumed(s)
    ensures ExposedAt(s, k)
  {
    var r := MemberOfKey(Inputs(s, b), k);
    InputTakes(s, docs, b, r);
    assert k in s.updates ==> ConsistentUpdate(s, b.number, k);
  }

  lemma MoreDocsAreConsistent(s: Store, next: nat, docs: map<string, Tx>, more: map<string, Tx>)
    requires Consistent(s, next, docs) && Extends(docs, more)
    ensures Consistent(s, next, more)
  {
    forall k | k in s.creates ensures ConsistentCreation(s, more, k) {
      assert ConsistentCreation(s, docs, k);
    }
  }

  // ---- Every exposed source can be ----

  function OfferedAmount(s: Store, k: SourceKey): BasedAmount
    requires ExposedAt(s, k)
  {
    if k.Dividend? then s.uds[k] else s.creates[k].amount
  }

  function OwnerOf(s: Store, k: SourceKey): string
    requires ExposedAt(s, k)
  {
    if k.Dividend? then Owner(k) else s.creates[k].conditions
  }

  /** A transaction that gives a source back to its owner. */
  function GivingBack(s: Store, k: SourceKey, hash: string): Tx
    requires ExposedAt(s, k)
  {
    Tx(hash, [Input(k, OfferedAmount(s, k))], [TxOutput(OfferedAmount(s, k), OwnerOf(s, k))])
  }

  function Respending(s: Store, k: SourceKey, hash: string, next: nat, unitBase: nat): MoneyBlock
    requires ExposedAt(s, k)
  {
    MoneyBlock(next, [GivingBack(s, k, hash)], None, {}, unitBase)
  }

  /** The rows of that block. */
  function TakenRow(s: Store, k: SourceKey, hash: string, next: nat): SRow
    requires ExposedAt(s, k)
  {
    InputRow(GivingBack(s, k, hash), 0, next).(conditions := OwnerOf(s, k))
  }

  function GivenRow(s: Store, k: SourceKey, hash: string, next: nat): SRow
    requires ExposedAt(s, k)
  {
    OutputRow(GivingBack(s, k, hash), 0, next)
  }

  lemma {:induction false} BoundedLength(hashes: set<string>) returns (n: nat)
    ensures forall h | h in hashes :: |h| <= n
  {
    n := 0;
    if hashes != {} {
      var h :| h in hashes;
      n := BoundedLength(hashes - {h});
      n := if |h| > n then |h| else n;
    }
  }

  lemma FreshHash(docs: map<string, Tx>) returns (hash: string)
    ensures hash !in docs
  {
    var n := BoundedLength(docs.Keys);
    hash := seq(n + 1, i => 'x');
  }

  /** One input and one output of the same amount. */
  lemma OneForOne(tx: Tx, amount: BasedAmount)
    requires |tx.inputs| == |tx.outputs| == 1
    requires tx.inputs[0].amount == tx.outputs[0].amount == amount && tx.outputs[0].conditions != ""
    ensures TxRules(tx)
  {
    assert tx.inputs[..0] == [] && tx.outputs[..0] == [];
    assert InputAmounts([]) == [] && OutputAmounts([]) == [];
    assert InputAmounts(tx.inputs) == [amount] && OutputAmounts(tx.outputs) == [amount];
  }

  /** Two rows: a consumption and a creation. */
  ghost predicate OneOfEach(rows: seq<SRow>) {
    |rows| == 2 && rows[0].op == Update && rows[1].op == Create
  }

  lemma OnlyOne(rows: seq<SRow>)
    requires OneOfEach(rows)
    ensures Only(rows, Update) == [rows[0]] && Only(rows, Create) == [rows[1]]
  {
    var xs, ys := rows[..1], rows[1..];
    assert rows == xs + ys;
    OnlyOfParts(xs, ys, Update);
    OnlyOfParts(xs, ys, Create);
    OnlyUpdates(xs);
    OnlyCreates(ys);
  }

  /** The rows of a transaction with one input and one output. */
  lemma TwoRows(tx: Tx, number: nat)
    requires |tx.inputs| == |tx.outputs| == 1
    ensures var local := LocalRows([tx], number);
            OneOfEach(local) && local[0] == InputRow(tx, 0, number) && local[1] == OutputRow(tx, 0, number)
  {
    assert [tx][..0] == [];
    var ins, outs := [InputRow(tx, 0, number)], [OutputRow(tx, 0, number)];
    assert InputRows(tx, 0, number) == [] && OutputRows(tx, 0, number) == [];
    assert LocalRows([tx], number) == [] + InputRows(tx, 1, number) + OutputRows(tx, 1, number);
  }

  lemma NoLocalSource(local: seq<SRow>, key: SourceKey)
    requires OneOfEach(local) && local[1].key != key
    ensures LocalSource(local, key) == None && FindOutput(local, key) == None
  {
    LocalSourceMeans(local, key);
    FindOutputMeans(local, key);
  }

  /** Nothing is chained when the input names no output of the block. */
  lemma NothingIsChained(local: seq<SRow>)
    requires OneOfEach(local) && local[1].key != local[0].key
    ensures MaxDepthOf(local, Ids(local)) <= MAX_DEPTH
  {
    NoLocalSource(local, local[0].key);
    MaxDepthIsLongestChain(local, 1);
    forall tx ensures Consumed(local, local, tx) == [] {
      assert local[..1][..0] == [] && Consumed(local, local[..1], tx) == [];
    }
    forall path: seq<string> | |path| == 2 ensures !Chain(local, path) {
      assert !Hop(local, path, 0);
    }
  }

  lemma ExposedIsOnOffer(s: Store, next: nat, docs: map<string, Tx>, k: SourceKey, r: SRow)
    requires Consistent(s, next, docs) && ExposedAt(s, k) && r.key == k && r.amount == OfferedAmount(s, k)
    ensures OnOffer(s, k, r) && OwnerOf(s, k) != ""
    ensures k.Output? ==> k.txHash in docs
  {
    assert k in s.creates ==> ConsistentCreation(s, docs, k);
    assert k.Dividend? ==> Owner(k)[0] == 'S';
  }

  lemma OneIsAccepted(s: Store, b: MoneyBlock, tx: Tx, local: seq<SRow>)
    requires b.txs == [tx] && TxRules(tx) && LocalRows(b.txs, b.number) == local && OneOfEach(local)
    requires Usable(s, local, local[0]) && MaxDepthOf(local, Ids(local)) <= MAX_DEPTH
    ensures Accepted(s, b)
  {
    OneIsDistinct(local);
    OneIsUsable(s, local);
  }

  lemma OneIsDistinct(local: seq<SRow>)
    requires OneOfEach(local)
    ensures DistinctKeys(Only(local, Update)) && DistinctKeys(Only(local, Create))
  {
    OnlyOne(local);
  }

  lemma OneIsUsable(s: Store, local: seq<SRow>)
    requires OneOfEach(local) && Usable(s, local, local[0])
    ensures AllUsable(s, local)
  {}

  lemma RespentRows(s: Store, b: MoneyBlock, local: seq<SRow>)
    requires LocalRows(b.txs, b.number) == local && OneOfEach(local)
    ensures OneOfEach(Rows(s, b)) && Rows(s, b)[0] == ResolvedRow(s, local, local[0]) && Rows(s, b)[1] == local[1]
  {
    ResolvedAt(s, local, 2);
  }

  lemma RespendingIsUsable(s: Store, next: nat, docs: map<string, Tx>, k: SourceKey, local: seq<SRow>)
    requires Consistent(s, next, docs) && ExposedAt(s, k) && OneOfEach(local)
    requires local[0].key == k && local[0].amount == OfferedAmount(s, k) && (local[0].srcType == D <==> k.Dividend?)
    requires local[1].key.Output? && local[1].key.txHash !in docs
    ensures local[1].key != k && Usable(s, local, local[0]) && OwnerOf(s, k) != ""
    ensures ConditionsOf(s, local, local[0]) == OwnerOf(s, k)
  {
    ExposedIsOnOffer(s, next, docs, k, local[0]);
    NoLocalSource(local, k);
    UsableIff(s, next, docs, local, local[0]);
  }

  lemma RespendingIsAccepted(s: Store, next: nat, docs: map<string, Tx>, k: SourceKey, hash: string, unitBase: nat)
    requires Consistent(s, next, docs) && ExposedAt(s, k) && hash !in docs
    ensures var b := Respending(s, k, hash, next, unitBase);
            && Accepted(s, b) && Documented(docs[hash := GivingBack(s, k, hash)], b.txs)
            && OneOfEach(Rows(s, b))
            && Rows(s, b)[0] == TakenRow(s, k, hash, next) && Rows(s, b)[1] == GivenRow(s, k, hash, next)
  {
    var tx := GivingBack(s, k, hash);
    var b := Respending(s, k, hash, next, unitBase);
    var local := LocalRows([tx], next);
    TwoRows(tx, next);
    RespendingIsUsable(s, next, docs, k, local);
    NothingIsChained(local);
    OneForOne(tx, OfferedAmount(s, k));
    OneIsAccepted(s, b, tx, local);
    RespentRows(s, b, local);
  }

  lemma RespendingSpends(s: Store, next: nat, docs: map<string, Tx>, k: SourceKey, hash: string, unitBase: nat)
    requires Consistent(s, next, docs) && ExposedAt(s, k) && hash !in docs
    ensures Extends(docs, docs[hash := GivingBack(s, k, hash)])
    ensures var b := Respending(s, k, hash, next, unitBase);
            b.number == next && Takes(s, docs[hash := GivingBack(s, k, hash)], b, k)
  {
    RespendingIsAccepted(s, next, docs, k, hash, unitBase);
    InputIsConsumed(s, Respending(s, k, hash, next, unitBase));
  }

  lemma InputIsConsumed(s: Store, b: MoneyBlock)
    requires OneOfEach(Rows(s, b))
    ensures Rows(s, b)[0].key in Keys(Inputs(s, b))
  {
    OnlyOne(Rows(s, b));
    assert Inputs(s, b)[0].key == Rows(s, b)[0].key;
  }

  /** A consumed source can be consumed again exactly when it is exposed. */
  lemma SpentAgainIff(s: Store, next: nat, docs: map<string, Tx>, k: SourceKey)
    requires Consistent(s, next, docs) && k in EverConsumed(s)
    ensures CanBeSpent(s, next, docs, k) <==> ExposedAt(s, k)
  {
    if CanBeSpent(s, next, docs, k) {
      var b: MoneyBlock, more :| b.number == next && Extends(docs, more) && Takes(s, more, b, k);
      MoreDocsAreConsistent(s, next, docs, more);
      SpentAgainIsExposed(s, more, b, k);
    }
    if ExposedAt(s, k) {
      var hash := FreshHash(docs);
      RespendingSpends(s, next, docs, k, hash, 0);
    }
  }

  /** The stores after a block that pays nothing and moves no wallet. */
  lemma JustFlushed(s: Store, b: MoneyBlock) returns (after: Store)
    ensures Flushed(s, b, [], [], after) && after.wallets == s.wallets
  {
    var rows := Rows(s, b);
    after := Store(PutRows(s.creates, Only(OfType(rows, T), Create)), PutRows(s.updates, Only(OfType(rows, T), Update)),
                   FlushedUds(s.uds, rows), FlushedSpent(s.uds, s.spent, rows, b.number), s.wallets);
    assert rows + [] == rows && WithUds(s.uds, []) == s.uds;
  }

  lemma NothingMoves(rows: seq<SRow>, account: string)
    requires OneOfEach(rows) && SourceOf(rows[0]) == SourceOf(rows[1])
    ensures Variation(rows, account) == 0
  {
    OnlyOne(rows);
    assert [rows[0]][..0] == [] && [rows[1]][..0] == [];
  }

  lemma NotPoor(s: Store, b: MoneyBlock, entries: seq<SRow>)
    requires OneOfEach(entries) && SourceOf(entries[0]) == SourceOf(entries[1])
    requires Balance(s.wallets, entries[0].conditions) >= ACCOUNT_MINIMUM * Pow10(b.unitBase)
    ensures forall e | e in entries :: !Poor(s, entries, b.unitBase, e.conditions)
    ensures IsGarbage(s, entries, b, [])
  {
    NothingMoves(entries, entries[0].conditions);
    assert forall e | e in entries :: e.conditions == entries[0].conditions;
  }

  lemma NothingMoved(wallets: map<string, int>, rows: seq<SRow>)
    requires OneOfEach(rows) && SourceOf(rows[0]) == SourceOf(rows[1])
    ensures WalletsMoved(wallets, rows, [], false, wallets)
  {
    forall c
      ensures Balance(wallets, c) == Balance(wallets, c) + Signed(false, Variation(rows, c) + RowSum([], Some(c)))
    {
      NothingMoves(rows, c);
    }
  }

  /** A block that gives one source back to an account that is not poor is saved, and nothing is garbaged. */
  lemma OneIsSaved(s: Store, b: MoneyBlock) returns (after: Store)
    requires b.dividend.None? && OneOfEach(Rows(s, b)) && SourceOf(Rows(s, b)[0]) == SourceOf(Rows(s, b)[1])
    requires Balance(s.wallets, Rows(s, b)[0].conditions) >= ACCOUNT_MINIMUM * Pow10(b.unitBase)
    ensures Step(s, b, [], [], after)
    ensures forall e | e in Rows(s, b) :: !Poor(s, Rows(s, b), b.unitBase, e.conditions)
  {
    after := JustFlushed(s, b);
    NotPoor(s, b, Rows(s, b));
    NothingMoved(s.wallets, Rows(s, b));
    assert Rows(s, b) + [] == Rows(s, b);
  }

  /** If moreover the wallet of its owner is not below the account minimum, an exposed source can be
      consumed again by a block that is saved, and about which the garbage rule has nothing to say. */
  lemma RespendingIsSaved(s: Store, next: nat, docs: map<string, Tx>, k: SourceKey, hash: string, unitBase: nat)
    returns (after: Store)
    requires Consistent(s, next, docs) && ExposedAt(s, k) && hash !in docs
    requires Balance(s.wallets, OwnerOf(s, k)) >= ACCOUNT_MINIMUM * Pow10(unitBase)
    ensures var b := Respending(s, k, hash, next, unitBase);
            && Takes(s, docs[hash := GivingBack(s, k, hash)], b, k) && Step(s, b, [], [], after)
            && forall e | e in Rows(s, b) :: !Poor(s, Rows(s, b), unitBase, e.conditions)
  {
    RespendingIsAccepted(s, next, docs, k, hash, unitBase);
    RespendingSpends(s, next, docs, k, hash, unitBase);
    after := OneIsSaved(s, Respending(s, k, hash, next, unitBase));
  }

  // ---- What exposes a source ----

  /** A chained input that names `k` states another amount than the local output. */
  ghost predicate Misstated(local: seq<SRow>, k: SourceKey) {
    exists r :: r in local && Misstates(local, r) && r.key == k
  }

  predicate Misstates(local: seq<SRow>, r: SRow) {
    r.op == Update && LocalSource(local, r.key).Some? && LocalSource(local, r.key).value.amount != r.amount
  }

  lemma MismatchMisstates(local: seq<SRow>)
    ensures ChainedInputsMatch(local) <==> forall k :: !Misstated(local, k)
  {
    if i :| 0 <= i < |local| && local[i].op == Update && LocalSource(local, local[i].key).Some?
            && LocalSource(local, local[i].key).value.amount != local[i].amount {
      assert Misstates(local, local[i]);
      assert Misstated(local, local[i].key);
    }
    if k :| Misstated(local, k) {
      var r :| r in local && Misstates(local, r) && r.key == k;
      var i :| 0 <= i < |local| && local[i] == r;
      assert LocalSource(local, local[i].key).value.amount != local[i].amount;
    }
  }

  /** A block leaves `k` exposed by itself: by a chained input, or by garbaging a dividend. */
  ghost predicate Exposes(b: MoneyBlock, garbage: seq<SRow>, k: SourceKey) {
    Misstated(LocalRows(b.txs, b.number), k) || (k.Dividend? && k in Keys(garbage))
  }

  lemma MisstatedIsInput(s: Store, docs: map<string, Tx>, b: MoneyBlock, k: SourceKey) returns (r: SRow)
    requires Consistent(s, b.number, docs) && Accepted(s, b) && Documented(docs, b.txs)
    requires Misstated(LocalRows(b.txs, b.number), k)
    ensures r in Inputs(s, b) && r.key == k && k.Output? && k !in s.creates
    ensures var source := LocalSource(LocalRows(b.txs, b.number), k);
            source.Some? && source.value in Only(Rows(s, b), Create) && source.value.amount != r.amount
  {
    var local := LocalRows(b.txs, b.number);
    var l :| l in local && Misstates(local, l) && l.key == k;
    r := ResolvedRow(s, local, l);
    ResolvedIsRow(s, b, l);
    OnlyMembers(Rows(s, b), Update, r);
    InputTakes(s, docs, b, r);
  }

  lemma InputMisstates(s: Store, b: MoneyBlock, r: SRow)
    requires Accepted(s, b) && r in Inputs(s, b)
    requires var source := LocalSource(LocalRows(b.txs, b.number), r.key);
             source.Some? && source.value.amount != r.amount
    ensures Misstated(LocalRows(b.txs, b.number), r.key)
  {
    var local := LocalRows(b.txs, b.number);
    OnlyMembers(Rows(s, b), Update, r);
    var l := RowShape(s, b, r);
    assert Misstates(local, l);
  }

  lemma CreatedRow(s: Store, b: MoneyBlock, after: Store, r: SRow)
    requires CreatesAfter(s, b, after) && r in Only(Rows(s, b), Create)
    ensures r.key in after.creates && after.creates[r.key] == r
  {
    var cs := Only(Rows(s, b), Create);
    var i :| 0 <= i < |cs| && cs[i] == r;
    assert Written(after.creates, cs[i]);
  }

  /** What a transaction consumes is exposed afterwards exactly when its input misstates it. */
  lemma ExposedInput(
      s: Store, docs: map<string, Tx>, b: MoneyBlock, dividends: seq<SRow>, garbage: seq<SRow>, after: Store,
      r: SRow)
    requires Sourced(s, docs, b, dividends, garbage, after) && SourcesAfter(s, b, dividends, garbage, after)
    requires r in Inputs(s, b)
    ensures ExposedAt(after, r.key) <==> Misstated(LocalRows(b.txs, b.number), r.key)
  {
    var k, local := r.key, LocalRows(b.txs, b.number);
    KeyOfMember(Inputs(s, b), r);
    InputTakes(s, docs, b, r);
    if k.Output? {
      assert Written(after.updates, r);
    }
    if Misstated(local, k) {
      var r' := MisstatedIsInput(s, docs, b, k);
      assert Written(after.updates, r');
      CreatedRow(s, b, after, LocalSource(local, k).value);
    } else if ExposedAt(after, k) && LocalSource(local, k).Some? {
      CreatedRow(s, b, after, LocalSource(local, k).value);
      InputMisstates(s, b, r);
    }
  }

  /** What the garbage rule consumes is exposed afterwards exactly when it is a dividend. */
  lemma ExposedGarbage(
      s: Store, docs: map<string, Tx>, b: MoneyBlock, dividends: seq<SRow>, garbage: seq<SRow>, after: Store,
      g: SRow)
    requires Sourced(s, docs, b, dividends, garbage, after) && SourcesAfter(s, b, dividends, garbage, after)
    requires g in garbage
    ensures ExposedAt(after, g.key) <==> g.key.Dividend?
    ensures g.key !in Keys(Inputs(s, b))
  {
    var k := g.key;
    SweptTakes(s, docs, b, dividends, garbage, after, g);
    assert Written(after.updates, g);
    if k.Output? && k !in s.creates {
      var r :| r in Only(Rows(s, b), Create) && r.key == k && r.amount == g.amount;
      CreatedRow(s, b, after, r);
    }
  }

  /** What a block does not consume is exposed as it was before. */
  lemma ExposedElsewhere(
      s: Store, docs: map<string, Tx>, b: MoneyBlock, dividends: seq<SRow>, garbage: seq<SRow>, after: Store,
      k: SourceKey)
    requires Sourced(s, docs, b, dividends, garbage, after) && SourcesAfter(s, b, dividends, garbage, after)
    requires k !in Keys(Inputs(s, b)) && k !in Keys(garbage)
    ensures ExposedAt(after, k) <==> ExposedAt(s, k)
    ensures !Exposes(b, garbage, k)
  {
    if k in s.updates {
      assert ConsistentUpdate(s, b.number, k);
      if k in Keys(dividends) {
        var r := MemberOfKey(dividends, k);
        DividendIsNew(s, docs, b, dividends, r);
      }
    }
    if Misstated(LocalRows(b.txs, b.number), k) {
      var r := MisstatedIsInput(s, docs, b, k);
      KeyOfMember(Inputs(s, b), r);
    }
  }

  /** Exactly what is exposed after a block: what it exposes, and what was exposed and not consumed. */
  lemma ExposedAfterIff(
      s: Store, docs: map<string, Tx>, b: MoneyBlock, dividends: seq<SRow>, garbage: seq<SRow>, after: Store,
      k: SourceKey)
    requires Sourced(s, docs, b, dividends, garbage, after)
    ensures ExposedAt(after, k) <==>
            Exposes(b, garbage, k) || (ExposedAt(s, k) && k !in ConsumedIn(s, b, garbage))
  {
    SourcesAre(s, docs, b, dividends, garbage, after);
    ConsumptionsApart(s, docs, b, dividends, garbage, after);
    if k in Keys(garbage) {
      var g := MemberOfKey(garbage, k);
      ExposedGarbage(s, docs, b, dividends, garbage, after, g);
      GarbageIsNotMisstated(s, docs, b, garbage, k);
    } else if k in Keys(Inputs(s, b)) {
      var r := MemberOfKey(Inputs(s, b), k);
      ExposedInput(s, docs, b, dividends, garbage, after, r);
    } else {
      ExposedElsewhere(s, docs, b, dividends, garbage, after, k);
    }
  }

  lemma GarbageIsNotMisstated(s: Store, docs: map<string, Tx>, b: MoneyBlock, garbage: seq<SRow>, k: SourceKey)
    requires Consistent(s, b.number, docs) && Accepted(s, b) && Documented(docs, b.txs)
    requires k !in Keys(Inputs(s, b))
    ensures !Misstated(LocalRows(b.txs, b.number), k)
  {
    if Misstated(LocalRows(b.txs, b.number), k) {
      var r := MisstatedIsInput(s, docs, b, k);
      KeyOfMember(Inputs(s, b), r);
    }
  }

  // ---- Blocks that expose nothing ----

  ghost predicate NothingExposed(s: Store) {
    forall k :: !ExposedAt(s, k)
  }

  /** Chained inputs state the amount of the output they name, and the garbage rule takes outputs only. */
  ghost predicate IsPlain(b: MoneyBlock, garbage: seq<SRow>) {
    && ChainedInputsMatch(LocalRows(b.txs, b.number))
    && forall i | 0 <= i < |garbage| :: garbage[i].key.Output?
  }

  lemma PlainExposesNothing(b: MoneyBlock, garbage: seq<SRow>)
    ensures IsPlain(b, garbage) <==> forall k :: !Exposes(b, garbage, k)
  {
    MismatchMisstates(LocalRows(b.txs, b.number));
    if i :| 0 <= i < |garbage| && !garbage[i].key.Output? {
      assert Exposes(b, garbage, garbage[i].key);
    }
    if k: SourceKey :| k.Dividend? && k in Keys(garbage) {
      var i :| 0 <= i < |garbage| && garbage[i].key == k;
    }
    if k :| Misstated(LocalRows(b.txs, b.number), k) {
      assert Exposes(b, garbage, k);
    }
  }

  /** Where nothing is exposed, nothing is after a block if and only if the block is plain. */
  lemma NothingExposedAfterIff(
      s: Store, docs: map<string, Tx>, b: MoneyBlock, dividends: seq<SRow>, garbage: seq<SRow>, after: Store)
    requires Sourced(s, docs, b, dividends, garbage, after) && NothingExposed(s)
    ensures NothingExposed(after) <==> IsPlain(b, garbage)
  {
    PlainExposesNothing(b, garbage);
    forall k ensures ExposedAt(after, k) <==> Exposes(b, garbage, k) {
      ExposedAfterIff(s, docs, b, dividends, garbage, after, k);
    }
  }

  /** What a block consumes again was exposed. */
  lemma ConsumedAgainWasExposed(
      s: Store, docs: map<string, Tx>, b: MoneyBlock, dividends: seq<SRow>, garbage: seq<SRow>, after: Store,
      k: SourceKey)
    requires Sourced(s, docs, b, dividends, garbage, after)
    requires k in ConsumedIn(s, b, garbage) && k in EverConsumed(s)
    ensures ExposedAt(s, k)
  {
    ConsumptionsApart(s, docs, b, dividends, garbage, after);
    if k in Keys(garbage) {
      var g := MemberOfKey(garbage, k);
      SweptTakes(s, docs, b, dividends, garbage, after, g);
    } else {
      SpentAgainIsExposed(s, docs, b, k);
    }
  }

  lemma EverSets(
      creates: set<SourceKey>, updates: set<SourceKey>, uds: set<SourceKey>, spent: set<SourceKey>,
      cs: set<SourceKey>, ds: set<SourceKey>, us: set<SourceKey>, gs: set<SourceKey>, gone: set<SourceKey>)
    requires gone <= us && gone <= uds
    ensures (creates + cs) + (uds + ds - gone) + (spent + gone) == (creates + uds + spent) + (cs + ds)
    ensures (updates + ((us - gone) + gs)) + (spent + gone) == (updates + spent) + (us + gs)
  {}

  /** A block creates only what never existed, and adds what it consumes to what was consumed. */
  lemma EverAfter(
      s: Store, docs: map<string, Tx>, b: MoneyBlock, dividends: seq<SRow>, garbage: seq<SRow>, after: Store)
    requires Sourced(s, docs, b, dividends, garbage, after)
    ensures CreatedIn(s, b, dividends) !! EverCreated(s)
    ensures EverCreated(after) == EverCreated(s) + CreatedIn(s, b, dividends)
    ensures EverConsumed(after) == EverConsumed(s) + ConsumedIn(s, b, garbage)
  {
    SourcesAre(s, docs, b, dividends, garbage, after);
    ConsumptionsApart(s, docs, b, dividends, garbage, after);
    var us := Keys(Inputs(s, b));
    EverSets(s.creates.Keys, s.updates.Keys, s.uds.Keys, s.spent.Keys, Keys(Only(Rows(s, b), Create)),
             Keys(dividends), us, Keys(garbage), DividendKeys(us));
    forall k | k in CreatedIn(s, b, dividends) ensures k !in EverCreated(s) {
      if k in Keys(dividends) {
        var r := MemberOfKey(dividends, k);
        DividendIsNew(s, docs, b, dividends, r);
      } else {
        var r := MemberOfKey(Only(Rows(s, b), Create), k);
        CreationIsNew(s, docs, b, r);
      }
    }
  }

  // ---- Reverting ----

  /** The records of the outputs that a block consumes. */
  ghost function RecordsTaken(s: Store, b: MoneyBlock, garbage: seq<SRow>): set<SourceKey> {
    (Keys(Inputs(s, b)) - DividendKeys(Keys(Inputs(s, b)))) + Keys(garbage)
  }

  lemma RecordDate(
      s: Store, docs: map<string, Tx>, b: MoneyBlock, dividends: seq<SRow>, garbage: seq<SRow>, after: Store,
      k: SourceKey)
    requires Sourced(s, docs, b, dividends, garbage, after) && RecordsAfter(s, b, garbage, after)
    requires k in after.updates
    ensures after.updates[k].writtenOn == b.number <==> k in RecordsTaken(s, b, garbage)
  {
    if k in Keys(garbage) {
      var g := MemberOfKey(garbage, k);
      SweptTakes(s, docs, b, dividends, garbage, after, g);
      assert Written(after.updates, g);
    } else if k in Keys(Inputs(s, b)) && k.Output? {
      var r := MemberOfKey(Inputs(s, b), k);
      InputTakes(s, docs, b, r);
      assert Written(after.updates, r);
    } else {
      assert ConsistentUpdate(s, b.number, k);
    }
  }

  lemma TakenAway(before: map<SourceKey, SRow>, after: map<SourceKey, SRow>, taken: set<SourceKey>)
    requires after.Keys == before.Keys + taken
    requires forall k | k in before && k !in taken :: after[k] == before[k]
    ensures after - taken == before - taken
    ensures before - taken == before <==> taken !! before.Keys
  {
    if before - taken == before {
      assert (before - taken).Keys == before.Keys;
    }
  }

  lemma RecordsDated(
      s: Store, docs: map<string, Tx>, b: MoneyBlock, dividends: seq<SRow>, garbage: seq<SRow>, after: Store)
    requires Sourced(s, docs, b, dividends, garbage, after)
    ensures WrittenOn(after.updates, b.number) == RecordsTaken(s, b, garbage)
    ensures after.updates.Keys == s.updates.Keys + RecordsTaken(s, b, garbage)
    ensures forall k | k in s.updates && k !in RecordsTaken(s, b, garbage) :: after.updates[k] == s.updates[k]
  {
    RecordsAre(s, docs, b, dividends, garbage, after);
    forall k | k in after.updates
      ensures after.updates[k].writtenOn == b.number <==> k in RecordsTaken(s, b, garbage)
    {
      RecordDate(s, docs, b, dividends, garbage, after, k);
    }
  }

  lemma GarbageWasNotTaken(
      s: Store, docs: map<string, Tx>, b: MoneyBlock, dividends: seq<SRow>, garbage: seq<SRow>, after: Store)
    requires Sourced(s, docs, b, dividends, garbage, after)
    ensures RecordsTaken(s, b, garbage) !! s.updates.Keys <==>
            forall k | k in Keys(Inputs(s, b)) && k.Output? :: k !in s.updates
  {
    forall k | k in Keys(garbage) ensures k !in s.updates {
      var g := MemberOfKey(garbage, k);
      SweptTakes(s, docs, b, dividends, garbage, after, g);
    }
    if RecordsTaken(s, b, garbage) !! s.updates.Keys {
      forall k | k in Keys(Inputs(s, b)) && k.Output? ensures k !in s.updates {
        assert k in RecordsTaken(s, b, garbage);
      }
    }
  }

  /** Reverting a block restores the consumption records if and only if its transactions consumed no output
      again: the record of the first consumption was overwritten, and a revert deletes the last one. */
  lemma RecordsAreRestoredIff(
      s: Store, docs: map<string, Tx>, b: MoneyBlock, dividends: seq<SRow>, garbage: seq<SRow>, after: Store,
      newcomers: set<string>, u: Undo, back: Store)
    requires Sourced(s, docs, b, dividends, garbage, after)
    requires MoneyReverted(after, b.number, newcomers, u, back)
    ensures back.updates == s.updates <==> forall k | k in Keys(Inputs(s, b)) && k.Output? :: k !in s.updates
  {
    RecordsDated(s, docs, b, dividends, garbage, after);
    TakenAway(s.updates, after.updates, RecordsTaken(s, b, garbage));
    GarbageWasNotTaken(s, docs, b, dividends, garbage, after);
    assert back.updates == after.updates - WrittenOn(after.updates, b.number);
  }
}
