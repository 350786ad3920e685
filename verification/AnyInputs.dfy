/** Blocks whose chained inputs may state any amount, whatever the wallets say: what the sources index
    keeps, when an input is usable, and that no transaction is written twice. */
module AnyInputs {
  import opened Sources
  import opened TxDepth
  import opened Money
  import opened LocalSources
  import opened MoneySteps
  import opened MoneyConservation
  import opened MoneyEffect
  import opened MoneyRuns

  /** Hypothesis on hashing: a hash determines the whole transaction. */
  ghost predicate Documented(docs: map<string, Tx>, txs: seq<Tx>) {
    forall tx | tx in txs :: tx.hash in docs && docs[tx.hash] == tx
  }

  // ---- What the index keeps ----

  /** An input of a written transaction has been consumed. If its record states another amount, it was
      overwritten, and the input does not state the amount of the source. */
  ghost predicate InputSpent(s: Store, input: Input) {
    if input.key.Dividend? then input.key in s.spent
    else
      && input.key in s.updates && input.key in s.creates
      && (input.amount == s.updates[input.key].amount || input.amount != s.creates[input.key].amount)
  }

  ghost predicate InputsSpent(s: Store, tx: Tx) {
    forall i | 0 <= i < |tx.inputs| :: InputSpent(s, tx.inputs[i])
  }

  ghost predicate ConsistentCreation(s: Store, docs: map<string, Tx>, k: SourceKey)
    requires k in s.creates
  {
    && k.Output? && s.creates[k].key == k && s.creates[k].op == Create && s.creates[k].conditions != ""
    && k.txHash in docs && InputsSpent(s, docs[k.txHash])
  }

  /** A consumption record is dated, and names an output that was created or an earlier dividend. */
  ghost predicate ConsistentUpdate(s: Store, next: nat, k: SourceKey)
    requires k in s.updates
  {
    s.updates[k].writtenOn < next && if k.Output? then k in s.creates else k.number < next
  }

  ghost predicate Consistent(s: Store, next: nat, docs: map<string, Tx>) {
    && (forall k | k in s.creates :: ConsistentCreation(s, docs, k))
    && (forall k | k in s.updates :: ConsistentUpdate(s, next, k))
    && (forall k | k in s.uds :: k.Dividend? && k.number < next && k !in s.spent)
    && (forall k | k in s.spent :: k.Dividend? && k.number < next)
  }

  // ---- Usable inputs ----

  /** A source that the global lookup takes for available: a dividend of this amount; or an output of
      this amount whose consumption record, if there is one, states another amount. */
  predicate OnOffer(s: Store, k: SourceKey, r: SRow) {
    if k.Dividend? then k in s.uds && s.uds[k] == r.amount
    else k in s.creates && s.creates[k].amount == r.amount && (k in s.updates ==> s.updates[k].amount != r.amount)
  }

  lemma UsableIff(s: Store, next: nat, docs: map<string, Tx>, local: seq<SRow>, r: SRow)
    requires Consistent(s, next, docs) && (r.srcType == D <==> r.key.Dividend?)
    ensures Usable(s, local, r) <==> LocalSource(local, r.key).Some? || OnOffer(s, r.key, r)
  {
    LocalSourceMeans(local, r.key);
    assert r.key in s.creates ==> ConsistentCreation(s, docs, r.key);
    assert r.key.Dividend? ==> Owner(r.key)[0] == 'S';
  }

  /** BR_G87 and BR_G88, on the rows and the stores: an input is usable when its source is created in the
      same block under some conditions, or is an available dividend of this amount, or an output of this
      amount whose consumption record, if any, states another amount. */
  lemma UsableMeans(s: Store, next: nat, docs: map<string, Tx>, local: seq<SRow>, r: SRow)
    requires Consistent(s, next, docs) && (r.srcType == D <==> r.key.Dividend?)
    ensures Usable(s, local, r) <==>
            || (exists c | c in local :: c.op == Create && c.key == r.key && c.conditions != "")
            || (r.key.Dividend? && r.key in s.uds && s.uds[r.key] == r.amount)
            || (r.key.Output? && r.key in s.creates && s.creates[r.key].amount == r.amount
                && (r.key in s.updates ==> s.updates[r.key].amount != r.amount))
  {
    UsableIff(s, next, docs, local, r);
    LocalSourceMeans(local, r.key);
  }

  /** BR_G46 to BR_G48: a usable input is given the conditions of a local output with its name, if there
      is one; otherwise those of the owner of a dividend or of the output it names. */
  lemma ConditionsMean(s: Store, next: nat, docs: map<string, Tx>, local: seq<SRow>, r: SRow)
    requires Consistent(s, next, docs) && (r.srcType == D <==> r.key.Dividend?) && Usable(s, local, r)
    ensures var conditions := ConditionsOf(s, local, r);
            || (exists c | c in local :: c.op == Create && c.key == r.key && c.conditions == conditions != "")
            || ((forall c | c in local :: !(c.op == Create && c.key == r.key && c.conditions != ""))
                && if r.key.Dividend? then conditions == "SIG(" + r.key.pub + ")"
                   else r.key in s.creates && conditions == s.creates[r.key].conditions)
  {
    UsableIff(s, next, docs, local, r);
    LocalSourceMeans(local, r.key);
  }

  // ---- Unwritten transactions ----

  lemma SpentIsNotOnOffer(s: Store, next: nat, docs: map<string, Tx>, input: Input, r: SRow)
    requires Consistent(s, next, docs) && InputSpent(s, input)
    requires r.key == input.key && r.amount == input.amount
    ensures !OnOffer(s, r.key, r)
  {}

  lemma ReplaySpendsReplay(s: Store, docs: map<string, Tx>, b: MoneyBlock, h: string)
    requires Consistent(s, b.number, docs) && Accepted(s, b) && Documented(docs, b.txs)
    requires h in Replayed(s, b.txs)
    ensures SpendsWithin(LocalRows(b.txs, b.number), Replayed(s, b.txs), h)
  {
    var local := LocalRows(b.txs, b.number);
    var t :| 0 <= t < |b.txs| && Known(s, b.txs[t].hash) && b.txs[t].hash == h;
    var r := SpentInput(s, docs, b, b.txs[t]);
    LocalSourceMeans(local, r.key);
    FindOutputMeans(local, r.key);
    var source := FindOutput(local, r.key).value;
    ConsumedMember(local, local, r);
    assert Spends(local, h, source.tx);
    LocalRowShape(b.txs, b.number, source);
    CreationIsReplay(s, b, source);
  }

  /** A transaction that was written before needs a local output for its first input. */
  lemma SpentInput(s: Store, docs: map<string, Tx>, b: MoneyBlock, tx: Tx) returns (r: SRow)
    requires Consistent(s, b.number, docs) && Accepted(s, b) && Documented(docs, b.txs)
    requires tx in b.txs && Known(s, tx.hash)
    ensures var local := LocalRows(b.txs, b.number);
            r in local && r.op == Update && r.tx == tx.hash && LocalSource(local, r.key).Some?
    ensures r.key.Output? ==> r.key in s.creates
  {
    var local := LocalRows(b.txs, b.number);
    var k: SourceKey :| k in s.creates && k.Output? && k.txHash == tx.hash;
    assert ConsistentCreation(s, docs, k) && docs[tx.hash] == tx && TxRules(tx);
    r := InputRow(tx, 0, b.number);
    InputIsLocalRow(b.txs, b.number, tx, 0);
    IsUsable(s, local, r);
    assert InputSpent(s, tx.inputs[0]);
    SpentIsNotOnOffer(s, b.number, docs, tx.inputs[0], r);
    UsableIff(s, b.number, docs, local, r);
  }

  /** Whatever the chained inputs state, no transaction of an accepted block was written before. */
  lemma NothingIsReplayed(s: Store, docs: map<string, Tx>, b: MoneyBlock)
    requires Consistent(s, b.number, docs) && Accepted(s, b) && Documented(docs, b.txs)
    ensures Replayed(s, b.txs) == {}
    ensures Keys(Only(LocalRows(b.txs, b.number), Create)) !! s.creates.Keys
  {
    var local := LocalRows(b.txs, b.number);
    forall h | h in Replayed(s, b.txs) ensures SpendsWithin(local, Replayed(s, b.txs), h) {
      ReplaySpendsReplay(s, docs, b, h);
    }
    var creates := Only(local, Create);
    forall i | 0 <= i < |creates| && creates[i].key in s.creates ensures creates[i].tx in Replayed(s, b.txs) {
      CreationIsReplay(s, b, creates[i]);
    }
    AllowedDepthHasNoClosedSet(local, Replayed(s, b.txs));
  }

  // ---- A block, whatever the wallets say ----

  ghost predicate IsSwept(s: Store, entries: seq<SRow>, number: nat, g: SRow) {
    exists r :: Candidate(s, entries, r) && r.key !in Keys(Only(entries, Update)) && g == GarbageRow(r, number)
  }

  /** Rows that consume some candidates of the garbage rule, each once, for poor accounts or not. */
  ghost predicate Swept(s: Store, entries: seq<SRow>, number: nat, garbage: seq<SRow>) {
    DistinctKeys(garbage) && forall i | 0 <= i < |garbage| :: IsSwept(s, entries, number, garbage[i])
  }

  /** What saving an accepted block does to the sources and dividends. */
  ghost predicate SourcesStep(s: Store, b: MoneyBlock, dividends: seq<SRow>, garbage: seq<SRow>, after: Store) {
    && Accepted(s, b) && IsDividend(b, dividends)
    && Swept(s, Rows(s, b) + dividends, b.number, garbage)
    && Flushed(s, b, dividends, garbage, after)
  }

  lemma StepMovesSources(s: Store, b: MoneyBlock, dividends: seq<SRow>, garbage: seq<SRow>, after: Store)
    requires Accepted(s, b) && Step(s, b, dividends, garbage, after)
    ensures SourcesStep(s, b, dividends, garbage, after)
  {
    var entries := Rows(s, b) + dividends;
    forall i | 0 <= i < |garbage| ensures IsSwept(s, entries, b.number, garbage[i]) {
      assert IsGarbageRow(s, entries, b, garbage[i]);
    }
  }

  /** Everything that is known of a block that is saved on a consistent index. */
  ghost predicate Sourced(
      s: Store, docs: map<string, Tx>, b: MoneyBlock, dividends: seq<SRow>, garbage: seq<SRow>, after: Store)
  {
    && Consistent(s, b.number, docs) && Documented(docs, b.txs)
    && SourcesStep(s, b, dividends, garbage, after)
  }

  // ---- What a block consumes ----

  /** The rows of the transactions that consume. */
  function Inputs(s: Store, b: MoneyBlock): seq<SRow> {
    Only(Rows(s, b), Update)
  }

  /** A consumption by a transaction: of an output of the block, or of a source on offer. */
  lemma InputTakes(s: Store, docs: map<string, Tx>, b: MoneyBlock, r: SRow)
    requires Consistent(s, b.number, docs) && Accepted(s, b) && Documented(docs, b.txs) && r in Inputs(s, b)
    ensures r in Rows(s, b) && (r.srcType == D <==> r.key.Dividend?) && r.writtenOn == b.number
    ensures var source := LocalSource(LocalRows(b.txs, b.number), r.key);
            if source.Some? then
              && r.key.Output? && r.key !in s.creates
              && source.value in Only(Rows(s, b), Create) && source.value.key == r.key
            else OnOffer(s, r.key, r)
  {
    var local := LocalRows(b.txs, b.number);
    OnlyMembers(Rows(s, b), Update, r);
    var l := RowShape(s, b, r);
    UsableIff(s, b.number, docs, local, l);
    var source := LocalSource(local, r.key);
    if source.Some? {
      LocalSourceMeans(local, r.key);
      LocalRowShape(b.txs, b.number, source.value);
      OnlyMembers(local, Create, source.value);
      KeyOfMember(Only(local, Create), source.value);
      NothingIsReplayed(s, docs, b);
      RowsShape(s, b);
    }
  }

  /** What the garbage rule takes was never consumed, and is not consumed by the transactions. */
  lemma SweptTakes(
      s: Store, docs: map<string, Tx>, b: MoneyBlock, dividends: seq<SRow>, garbage: seq<SRow>, after: Store, g: SRow)
    requires Sourced(s, docs, b, dividends, garbage, after) && g in garbage
    ensures g.op == Update && g.srcType == T && g.writtenOn == b.number
    ensures g.key !in s.updates && g.key !in s.spent && g.key !in s.uds && g.key !in Keys(Inputs(s, b))
    ensures if g.key.Dividend? then g.key in Keys(dividends)
            else if g.key in s.creates then g.amount == s.creates[g.key].amount
            else exists r :: r in Only(Rows(s, b), Create) && r.key == g.key && r.amount == g.amount
  {
    var entries := Rows(s, b) + dividends;
    EntriesOf(s, b, dividends);
    var i :| 0 <= i < |garbage| && garbage[i] == g;
    assert IsSwept(s, entries, b.number, garbage[i]);
    var r :| Candidate(s, entries, r) && r.key !in Keys(Only(entries, Update)) && g == GarbageRow(r, b.number);
    if r.op == Create && r in entries {
      EntriesMember(s, b, dividends, r);
      if r in dividends {
        DividendIsNew(s, docs, b, dividends, r);
      } else {
        CreationIsNew(s, docs, b, r);
      }
    } else {
      assert ConsistentCreation(s, docs, r.key);
    }
  }

  lemma DividendIsNew(s: Store, docs: map<string, Tx>, b: MoneyBlock, dividends: seq<SRow>, r: SRow)
    requires Consistent(s, b.number, docs) && IsDividend(b, dividends) && r in dividends
    ensures r.key.Dividend? && r.key.number == b.number && r.key in Keys(dividends)
    ensures r.key !in EverCreated(s) + EverConsumed(s)
  {
    var i :| 0 <= i < |dividends| && dividends[i] == r;
    assert IsDividendRow(b, dividends[i]);
    assert r.key in s.creates ==> ConsistentCreation(s, docs, r.key);
    assert r.key in s.updates ==> ConsistentUpdate(s, b.number, r.key);
  }

  lemma CreationIsNew(s: Store, docs: map<string, Tx>, b: MoneyBlock, r: SRow)
    requires Consistent(s, b.number, docs) && Accepted(s, b) && Documented(docs, b.txs)
    requires r in Only(Rows(s, b), Create)
    ensures r.key.Output? && r.key !in EverCreated(s) + EverConsumed(s)
    ensures r in LocalRows(b.txs, b.number) && r.op == Create && r.conditions != ""
  {
    OnlyMembers(Rows(s, b), Create, r);
    var l := RowShape(s, b, r);
    RowsShape(s, b);
    NothingIsReplayed(s, docs, b);
    KeyOfMember(Only(Rows(s, b), Create), r);
    assert r.key in s.updates ==> ConsistentUpdate(s, b.number, r.key);
  }

  /** The consumptions of a block are distinct: each by one row. */
  lemma ConsumptionsApart(
      s: Store, docs: map<string, Tx>, b: MoneyBlock, dividends: seq<SRow>, garbage: seq<SRow>, after: Store)
    requires Sourced(s, docs, b, dividends, garbage, after)
    ensures DistinctKeys(Consumptions(s, b, garbage)) && Keys(Inputs(s, b)) !! Keys(garbage)
    ensures Keys(Consumptions(s, b, garbage)) == Keys(Inputs(s, b)) + Keys(garbage)
    ensures forall i | 0 <= i < |garbage| :: garbage[i].op == Update && garbage[i].srcType == T
  {
    RowsShape(s, b);
    forall k | k in Keys(garbage) ensures k !in Keys(Inputs(s, b)) {
      var g := MemberOfKey(garbage, k);
      SweptTakes(s, docs, b, dividends, garbage, after, g);
    }
    forall i | 0 <= i < |garbage| ensures garbage[i].op == Update && garbage[i].srcType == T {
      SweptTakes(s, docs, b, dividends, garbage, after, garbage[i]);
    }
    KeysOfParts(Inputs(s, b), garbage);
    DistinctParts(Inputs(s, b), garbage);
  }

  // ---- The stores after a block ----

  lemma CreatesAre(
      s: Store, docs: map<string, Tx>, b: MoneyBlock, dividends: seq<SRow>, garbage: seq<SRow>, after: Store)
    requires Sourced(s, docs, b, dividends, garbage, after)
    ensures CreatesAfter(s, b, after)
  {
    ConsumptionsApart(s, docs, b, dividends, garbage, after);
    FlushedRows(s, b, garbage);
    CreationsAreTransactions(s, b);
    RowsShape(s, b);
    NothingIsReplayed(s, docs, b);
    PutRowsContents(s.creates, Only(Rows(s, b), Create));
  }

  /** The consumption records: the new ones, and the others as they were. */
  ghost predicate RecordsAfter(s: Store, b: MoneyBlock, garbage: seq<SRow>, after: Store) {
    var taken := (Keys(Inputs(s, b)) - DividendKeys(Keys(Inputs(s, b)))) + Keys(garbage);
    && after.updates.Keys == s.updates.Keys + taken
    && (forall k | k in s.updates && k !in taken :: after.updates[k] == s.updates[k])
    && (forall r | r in Inputs(s, b) && r.key.Output? :: Written(after.updates, r))
    && (forall g | g in garbage :: Written(after.updates, g))
  }

  lemma RecordsAre(
      s: Store, docs: map<string, Tx>, b: MoneyBlock, dividends: seq<SRow>, garbage: seq<SRow>, after: Store)
    requires Sourced(s, docs, b, dividends, garbage, after)
    ensures RecordsAfter(s, b, garbage, after)
  {
    ConsumptionsApart(s, docs, b, dividends, garbage, after);
    FlushedRows(s, b, garbage);
    RecordsWritten(s, b, garbage, after);
    OtherRecords(s, b, garbage, after);
  }

  lemma RecordsWritten(s: Store, b: MoneyBlock, garbage: seq<SRow>, after: Store)
    requires Accepted(s, b) && DistinctKeys(Consumptions(s, b, garbage))
    requires forall i | 0 <= i < |garbage| :: garbage[i].srcType == T
    requires after.updates == PutRows(s.updates, OfType(Consumptions(s, b, garbage), T))
    ensures forall r | r in Inputs(s, b) && r.key.Output? :: Written(after.updates, r)
    ensures forall g | g in garbage :: Written(after.updates, g)
  {
    var us := Consumptions(s, b, garbage);
    forall r | r in Inputs(s, b) && r.key.Output? ensures Written(after.updates, r) {
      InputIsTyped(s, b, r);
      RecordIsWritten(s.updates, us, r);
    }
    forall g | g in garbage ensures Written(after.updates, g) {
      RecordIsWritten(s.updates, us, g);
    }
  }

  lemma RecordIsWritten(m: map<SourceKey, SRow>, us: seq<SRow>, r: SRow)
    requires DistinctKeys(us) && r in us && r.srcType == T
    ensures Written(PutRows(m, OfType(us, T)), r)
  {
    PutOutputs(m, us);
    var i :| 0 <= i < |us| && us[i] == r;
    assert us[i].srcType == T;
  }

  lemma InputIsTyped(s: Store, b: MoneyBlock, r: SRow)
    requires Accepted(s, b) && r in Inputs(s, b)
    ensures r.srcType == D <==> r.key.Dividend?
  {
    OnlyMembers(Rows(s, b), Update, r);
    var l := RowShape(s, b, r);
  }

  lemma RecordKeys(s: Store, b: MoneyBlock, garbage: seq<SRow>)
    requires Accepted(s, b) && forall i | 0 <= i < |garbage| :: garbage[i].srcType == T
    ensures Keys(OfType(Consumptions(s, b, garbage), T)) ==
            (Keys(Inputs(s, b)) - DividendKeys(Keys(Inputs(s, b)))) + Keys(garbage)
    ensures Keys(OfType(Inputs(s, b), D)) == DividendKeys(Keys(Inputs(s, b)))
  {
    OfTypeOfParts(Inputs(s, b), garbage, T);
    AllOfType(garbage, T);
    KeysOfParts(OfType(Inputs(s, b), T), garbage);
    forall k ensures k in Keys(OfType(Inputs(s, b), T)) <==> k in Keys(Inputs(s, b)) && k.Output? {
      InputKeysByType(s, b, T, k);
    }
    forall k ensures k in Keys(OfType(Inputs(s, b), D)) <==> k in Keys(Inputs(s, b)) && k.Dividend? {
      InputKeysByType(s, b, D, k);
    }
  }

  lemma InputKeysByType(s: Store, b: MoneyBlock, t: SrcType, k: SourceKey)
    requires Accepted(s, b)
    ensures k in Keys(OfType(Inputs(s, b), t)) <==> k in Keys(Inputs(s, b)) && (t == D <==> k.Dividend?)
  {
    var us := Inputs(s, b);
    if k in Keys(OfType(us, t)) {
      var r := MemberOfKey(OfType(us, t), k);
      OfTypeMembers(us, t, r);
      InputIsTyped(s, b, r);
      KeyOfMember(us, r);
    }
    if k in Keys(us) && (t == D <==> k.Dividend?) {
      var r := MemberOfKey(us, k);
      InputIsTyped(s, b, r);
      OfTypeMembers(us, t, r);
      KeyOfMember(OfType(us, t), r);
    }
  }

  /** A record that is not written keeps its value, also when a dividend of its name is spent. */
  lemma OtherRecords(s: Store, b: MoneyBlock, garbage: seq<SRow>, after: Store)
    requires Accepted(s, b) && DistinctKeys(Consumptions(s, b, garbage))
    requires forall i | 0 <= i < |garbage| :: garbage[i].srcType == T
    requires after.updates == PutRows(s.updates, OfType(Consumptions(s, b, garbage), T))
    ensures var taken := (Keys(Inputs(s, b)) - DividendKeys(Keys(Inputs(s, b)))) + Keys(garbage);
            && after.updates.Keys == s.updates.Keys + taken
            && forall k | k in s.updates && k !in taken :: k in after.updates && after.updates[k] == s.updates[k]
  {
    RecordKeys(s, b, garbage);
    DistinctOfType(Consumptions(s, b, garbage), T);
    PutRowsContents(s.updates, OfType(Consumptions(s, b, garbage), T));
  }

  ghost predicate DividendsAfter(s: Store, b: MoneyBlock, dividends: seq<SRow>, after: Store) {
    var gone := DividendKeys(Keys(Inputs(s, b)));
    && after.uds.Keys == s.uds.Keys + Keys(dividends) - gone
    && after.spent.Keys == s.spent.Keys + gone && gone <= s.uds.Keys
  }

  lemma DividendsAre(
      s: Store, docs: map<string, Tx>, b: MoneyBlock, dividends: seq<SRow>, garbage: seq<SRow>, after: Store)
    requires Sourced(s, docs, b, dividends, garbage, after)
    ensures DividendsAfter(s, b, dividends, after)
  {
    ConsumptionsApart(s, docs, b, dividends, garbage, after);
    FlushedDividends(s, b, garbage);
    WithUdsContents(s.uds, dividends);
    SpendsOffered(s, docs, b);
  }

  lemma SpendsOffered(s: Store, docs: map<string, Tx>, b: MoneyBlock)
    requires Consistent(s, b.number, docs) && Accepted(s, b) && Documented(docs, b.txs)
    ensures DividendKeys(Keys(Inputs(s, b))) <= s.uds.Keys
  {
    forall k | k in DividendKeys(Keys(Inputs(s, b))) ensures k in s.uds {
      var r := MemberOfKey(Inputs(s, b), k);
      InputTakes(s, docs, b, r);
    }
  }

  lemma FlushedDividends(s: Store, b: MoneyBlock, garbage: seq<SRow>)
    requires Accepted(s, b) && forall i | 0 <= i < |garbage| :: garbage[i].op == Update && garbage[i].srcType == T
    ensures Keys(OfType(Rows(s, b) + garbage, D)) == DividendKeys(Keys(Inputs(s, b)))
  {
    RecordKeys(s, b, garbage);
    OfTypeOfParts(Rows(s, b), garbage, D);
    NoneOfType(garbage, D);
    assert OfType(Rows(s, b), D) + [] == OfType(Rows(s, b), D);
    forall r ensures r in OfType(Rows(s, b), D) <==> r in OfType(Inputs(s, b), D) {
      OfTypeMembers(Rows(s, b), D, r);
      OfTypeMembers(Inputs(s, b), D, r);
      OnlyMembers(Rows(s, b), Update, r);
      if r in Rows(s, b) { var l := RowShape(s, b, r); }
    }
    SameMembers(OfType(Rows(s, b), D), OfType(Inputs(s, b), D));
  }

  lemma SameMembers(xs: seq<SRow>, ys: seq<SRow>)
    requires forall r :: r in xs <==> r in ys
    ensures Keys(xs) == Keys(ys)
  {
    forall k ensures k in Keys(xs) <==> k in Keys(ys) {
      if k in Keys(xs) {
        var r := MemberOfKey(xs, k);
        KeyOfMember(ys, r);
      }
      if k in Keys(ys) {
        var r := MemberOfKey(ys, k);
        KeyOfMember(xs, r);
      }
    }
  }

  // ---- The index stays consistent ----

  ghost predicate SourcesAfter(s: Store, b: MoneyBlock, dividends: seq<SRow>, garbage: seq<SRow>, after: Store) {
    CreatesAfter(s, b, after) && RecordsAfter(s, b, garbage, after) && DividendsAfter(s, b, dividends, after)
  }

  lemma SourcesAre(
      s: Store, docs: map<string, Tx>, b: MoneyBlock, dividends: seq<SRow>, garbage: seq<SRow>, after: Store)
    requires Sourced(s, docs, b, dividends, garbage, after)
    ensures SourcesAfter(s, b, dividends, garbage, after)
  {
    CreatesAre(s, docs, b, dividends, garbage, after);
    RecordsAre(s, docs, b, dividends, garbage, after);
    DividendsAre(s, docs, b, dividends, garbage, after);
  }

  lemma InputStaysSpent(
      s: Store, docs: map<string, Tx>, b: MoneyBlock, dividends: seq<SRow>, garbage: seq<SRow>, after: Store,
      input: Input)
    requires Sourced(s, docs, b, dividends, garbage, after) && SourcesAfter(s, b, dividends, garbage, after)
    requires InputSpent(s, input)
    ensures InputSpent(after, input)
  {
    var k := input.key;
    if k.Output? {
      if k in Keys(garbage) {
        var g := MemberOfKey(garbage, k);
        SweptTakes(s, docs, b, dividends, garbage, after, g);
        assert false;
      }
      if k in Keys(Inputs(s, b)) {
        var r := MemberOfKey(Inputs(s, b), k);
        InputTakes(s, docs, b, r);
        assert Written(after.updates, r);
      }
    }
  }

  lemma NewInputIsSpent(
      s: Store, docs: map<string, Tx>, b: MoneyBlock, dividends: seq<SRow>, garbage: seq<SRow>, after: Store,
      tx: Tx, i: nat)
    requires Sourced(s, docs, b, dividends, garbage, after) && SourcesAfter(s, b, dividends, garbage, after)
    requires tx in b.txs && i < |tx.inputs|
    ensures InputSpent(after, tx.inputs[i])
  {
    var local := LocalRows(b.txs, b.number);
    var l := InputRow(tx, i, b.number);
    InputIsLocalRow(b.txs, b.number, tx, i);
    var r := ResolvedRow(s, local, l);
    ResolvedIsRow(s, b, l);
    OnlyMembers(Rows(s, b), Update, r);
    InputTakes(s, docs, b, r);
    KeyOfMember(Inputs(s, b), r);
    if r.key.Output? {
      assert Written(after.updates, r);
      if LocalSource(local, r.key).Some? {
        KeyOfMember(Only(Rows(s, b), Create), LocalSource(local, r.key).value);
      }
    }
  }

  lemma ResolvedIsRow(s: Store, b: MoneyBlock, l: SRow)
    requires l in LocalRows(b.txs, b.number)
    ensures ResolvedRow(s, LocalRows(b.txs, b.number), l) in Rows(s, b)
  {
    var local := LocalRows(b.txs, b.number);
    ResolvedAt(s, local, |local|);
    var i :| 0 <= i < |local| && local[i] == l;
    assert Rows(s, b)[i] == ResolvedRow(s, local, l);
  }

  lemma CreationStaysConsistent(
      s: Store, docs: map<string, Tx>, b: MoneyBlock, dividends: seq<SRow>, garbage: seq<SRow>, after: Store,
      k: SourceKey)
    requires Sourced(s, docs, b, dividends, garbage, after) && SourcesAfter(s, b, dividends, garbage, after)
    requires k in after.creates
    ensures ConsistentCreation(after, docs, k)
  {
    if k in s.creates {
      assert ConsistentCreation(s, docs, k);
      var tx := docs[k.txHash];
      forall i | 0 <= i < |tx.inputs| ensures InputSpent(after, tx.inputs[i]) {
        InputStaysSpent(s, docs, b, dividends, garbage, after, tx.inputs[i]);
      }
    } else {
      var cs := Only(Rows(s, b), Create);
      var j :| 0 <= j < |cs| && cs[j].key == k;
      assert Written(after.creates, cs[j]);
      CreationIsNew(s, docs, b, cs[j]);
      LocalRowShape(b.txs, b.number, cs[j]);
      var tx :| tx in b.txs && tx.hash == cs[j].tx;
      forall i | 0 <= i < |tx.inputs| ensures InputSpent(after, tx.inputs[i]) {
        NewInputIsSpent(s, docs, b, dividends, garbage, after, tx, i);
      }
    }
  }

  lemma UpdateStaysConsistent(
      s: Store, docs: map<string, Tx>, b: MoneyBlock, dividends: seq<SRow>, garbage: seq<SRow>, after: Store,
      k: SourceKey)
    requires Sourced(s, docs, b, dividends, garbage, after) && SourcesAfter(s, b, dividends, garbage, after)
    requires k in after.updates
    ensures ConsistentUpdate(after, b.number + 1, k)
  {
    assert k in s.updates ==> ConsistentUpdate(s, b.number, k);
    if k in Keys(garbage) {
      var g := MemberOfKey(garbage, k);
      SweptTakes(s, docs, b, dividends, garbage, after, g);
      assert Written(after.updates, g);
      if k.Dividend? {
        var r := MemberOfKey(dividends, k);
        DividendIsNew(s, docs, b, dividends, r);
      } else if k !in s.creates {
        var r :| r in Only(Rows(s, b), Create) && r.key == k;
        KeyOfMember(Only(Rows(s, b), Create), r);
      }
    } else if k in Keys(Inputs(s, b)) && k.Output? {
      var r := MemberOfKey(Inputs(s, b), k);
      InputTakes(s, docs, b, r);
      assert Written(after.updates, r);
      if k !in s.creates {
        KeyOfMember(Only(Rows(s, b), Create), LocalSource(LocalRows(b.txs, b.number), k).value);
      }
    }
  }

  /** The index stays consistent over every accepted block, whatever its chained inputs state. */
  lemma StaysConsistent(
      s: Store, docs: map<string, Tx>, b: MoneyBlock, dividends: seq<SRow>, garbage: seq<SRow>, after: Store)
    requires Sourced(s, docs, b, dividends, garbage, after)
    ensures Consistent(after, b.number + 1, docs)
  {
    SourcesAre(s, docs, b, dividends, garbage, after);
    forall k | k in after.creates ensures ConsistentCreation(after, docs, k) {
      CreationStaysConsistent(s, docs, b, dividends, garbage, after, k);
    }
    forall k | k in after.updates ensures ConsistentUpdate(after, b.number + 1, k) {
      UpdateStaysConsistent(s, docs, b, dividends, garbage, after, k);
    }
    DividendsStayConsistent(s, docs, b, dividends, after);
  }

  lemma DividendsStayConsistent(s: Store, docs: map<string, Tx>, b: MoneyBlock, dividends: seq<SRow>, after: Store)
    requires Consistent(s, b.number, docs) && IsDividend(b, dividends) && DividendsAfter(s, b, dividends, after)
    ensures forall k | k in after.uds :: k.Dividend? && k.number < b.number + 1 && k !in after.spent
    ensures forall k | k in after.spent :: k.Dividend? && k.number < b.number + 1
  {
    forall k | k in Keys(dividends) ensures k.Dividend? && k.number == b.number && k !in s.spent {
      var r := MemberOfKey(dividends, k);
      DividendIsNew(s, docs, b, dividends, r);
    }
  }
}
