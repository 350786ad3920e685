/** What the local rules say about the rows of a block: where they come from, and that a
    transaction written before cannot be written again. */
module LocalSources {
  import opened Sources
  import opened SourceSums
  import opened TxDepth
  import opened Money

  // ---- Where local rows come from ----

  ghost predicate FromInput(txs: seq<Tx>, number: nat, r: SRow, tx: Tx, i: nat) {
    tx in txs && i < |tx.inputs| && r == InputRow(tx, i, number)
  }

  ghost predicate FromOutput(txs: seq<Tx>, number: nat, r: SRow, tx: Tx, i: nat) {
    tx in txs && i < |tx.outputs| && r == OutputRow(tx, i, number)
  }

  ghost predicate FromTx(txs: seq<Tx>, number: nat, r: SRow) {
    exists tx, i: nat :: FromInput(txs, number, r, tx, i) || FromOutput(txs, number, r, tx, i)
  }

  lemma {:induction false} InputRowsMembers(tx: Tx, n: nat, number: nat, r: SRow)
    requires n <= |tx.inputs|
    ensures r in InputRows(tx, n, number) <==> exists i | 0 <= i < n :: r == InputRow(tx, i, number)
  {
    if n > 0 {
      InputRowsMembers(tx, n - 1, number, r);
    }
  }

  lemma {:induction false} OutputRowsMembers(tx: Tx, n: nat, number: nat, r: SRow)
    requires n <= |tx.outputs|
    ensures r in OutputRows(tx, n, number) <==> exists i | 0 <= i < n :: r == OutputRow(tx, i, number)
  {
    if n > 0 {
      OutputRowsMembers(tx, n - 1, number, r);
    }
  }

  lemma {:induction false} LocalRowIsFromTx(txs: seq<Tx>, number: nat, r: SRow)
    requires r in LocalRows(txs, number)
    ensures FromTx(txs, number, r)
  {
    var n := |txs| - 1;
    var tx := txs[n];
    if r in LocalRows(txs[..n], number) {
      LocalRowIsFromTx(txs[..n], number, r);
      var t, i: nat :| FromInput(txs[..n], number, r, t, i) || FromOutput(txs[..n], number, r, t, i);
      assert FromInput(txs, number, r, t, i) || FromOutput(txs, number, r, t, i);
    } else if r in InputRows(tx, |tx.inputs|, number) {
      InputRowsMembers(tx, |tx.inputs|, number, r);
      var i :| 0 <= i < |tx.inputs| && r == InputRow(tx, i, number);
      assert FromInput(txs, number, r, tx, i);
    } else {
      OutputRowsMembers(tx, |tx.outputs|, number, r);
      var i :| 0 <= i < |tx.outputs| && r == OutputRow(tx, i, number);
      assert FromOutput(txs, number, r, tx, i);
    }
  }

  lemma {:induction false} InputIsLocalRow(txs: seq<Tx>, number: nat, tx: Tx, i: nat)
    requires tx in txs && i < |tx.inputs|
    ensures InputRow(tx, i, number) in LocalRows(txs, number)
  {
    var n := |txs| - 1;
    if tx == txs[n] {
      InputRowsMembers(tx, |tx.inputs|, number, InputRow(tx, i, number));
    } else {
      assert tx in txs[..n];
      InputIsLocalRow(txs[..n], number, tx, i);
    }
  }

  lemma {:induction false} OutputIsLocalRow(txs: seq<Tx>, number: nat, tx: Tx, i: nat)
    requires tx in txs && i < |tx.outputs|
    ensures OutputRow(tx, i, number) in LocalRows(txs, number)
  {
    var n := |txs| - 1;
    if tx == txs[n] {
      OutputRowsMembers(tx, |tx.outputs|, number, OutputRow(tx, i, number));
    } else {
      assert tx in txs[..n];
      OutputIsLocalRow(txs[..n], number, tx, i);
    }
  }

  /** Every output of a transaction creates the source named after it, with the amount and the
      conditions that this output states. */
  lemma OutputCreatesSource(txs: seq<Tx>, number: nat, tx: Tx, i: nat)
    requires tx in txs && i < |tx.outputs|
    ensures exists r | r in LocalRows(txs, number) ::
              && r.op == Create && r.srcType == T && r.key == Output(tx.hash, i) && r.tx == tx.hash
              && r.amount == tx.outputs[i].amount && r.conditions == tx.outputs[i].conditions
              && r.writtenOn == number
  {
    OutputIsLocalRow(txs, number, tx, i);
  }

  /** Nothing else is created. */
  lemma CreatedByOutput(txs: seq<Tx>, number: nat, r: SRow)
    requires r in LocalRows(txs, number) && r.op == Create
    ensures exists tx, i | tx in txs && 0 <= i < |tx.outputs| ::
              && r.srcType == T && r.key == Output(tx.hash, i) && r.tx == tx.hash
              && r.amount == tx.outputs[i].amount && r.conditions == tx.outputs[i].conditions
              && r.writtenOn == number
  {
    LocalRowIsFromTx(txs, number, r);
    var tx, i: nat :| FromOutput(txs, number, r, tx, i);
  }

  /** Every input of a transaction consumes the source that it names, with the amount that it
      states. */
  lemma InputConsumesSource(txs: seq<Tx>, number: nat, tx: Tx, i: nat)
    requires tx in txs && i < |tx.inputs|
    ensures exists r | r in LocalRows(txs, number) ::
              && r.op == Update && r.srcType == (if tx.inputs[i].key.Dividend? then D else T)
              && r.key == tx.inputs[i].key && r.tx == tx.hash && r.amount == tx.inputs[i].amount
              && r.conditions == "" && r.writtenOn == number
  {
    InputIsLocalRow(txs, number, tx, i);
  }

  /** Nothing else is consumed by transactions. */
  lemma ConsumedByInput(txs: seq<Tx>, number: nat, r: SRow)
    requires r in LocalRows(txs, number) && r.op == Update
    ensures exists tx, i | tx in txs && 0 <= i < |tx.inputs| ::
              && r.srcType == (if tx.inputs[i].key.Dividend? then D else T)
              && r.key == tx.inputs[i].key && r.tx == tx.hash && r.amount == tx.inputs[i].amount
              && r.conditions == "" && r.writtenOn == number
  {
    LocalRowIsFromTx(txs, number, r);
    var tx, i: nat :| FromInput(txs, number, r, tx, i);
  }

  /** Blocks of transactions write one after the other. */
  lemma {:induction false} LocalRowsFollow(txs: seq<Tx>, more: seq<Tx>, number: nat)
    ensures LocalRows(txs + more, number) == LocalRows(txs, number) + LocalRows(more, number)
  {
    if more == [] {
      assert txs + more == txs;
    } else {
      var n, tx := |more| - 1, more[|more| - 1];
      var ins, outs := InputRows(tx, |tx.inputs|, number), OutputRows(tx, |tx.outputs|, number);
      LocalRowsFollow(txs, more[..n], number);
      var before, middle := LocalRows(txs, number), LocalRows(more[..n], number);
      assert LocalRows(txs + more, number) == before + middle + ins + outs by {
        assert (txs + more)[..|txs + more| - 1] == txs + more[..n];
      }
      assert before + middle + ins + outs == before + (middle + ins + outs);
    }
  }

  lemma {:induction false} InputRowAt(tx: Tx, n: nat, number: nat, i: nat)
    requires i < n <= |tx.inputs|
    ensures |InputRows(tx, n, number)| == n && InputRows(tx, n, number)[i] == InputRow(tx, i, number)
  {
    if n > 1 {
      InputRowAt(tx, n - 1, number, if i < n - 1 then i else 0);
    }
  }

  lemma {:induction false} OutputRowAt(tx: Tx, n: nat, number: nat, i: nat)
    requires i < n <= |tx.outputs|
    ensures |OutputRows(tx, n, number)| == n && OutputRows(tx, n, number)[i] == OutputRow(tx, i, number)
  {
    if n > 1 {
      OutputRowAt(tx, n - 1, number, if i < n - 1 then i else 0);
    }
  }

  /** One transaction writes one row for each input, then one for each output, in their order. */
  lemma LocalRowsInOrder(tx: Tx, number: nat)
    ensures var rows := LocalRows([tx], number);
            && |rows| == |tx.inputs| + |tx.outputs|
            && (forall i | 0 <= i < |tx.inputs| :: rows[i].op == Update && rows[i].key == tx.inputs[i].key)
            && (forall i | 0 <= i < |tx.outputs| ::
                  rows[|tx.inputs| + i].op == Create && rows[|tx.inputs| + i].key == Output(tx.hash, i))
  {
    var ins, outs := InputRows(tx, |tx.inputs|, number), OutputRows(tx, |tx.outputs|, number);
    assert LocalRows([tx], number) == ins + outs by {
      assert [tx][..0] == [];
    }
    assert |ins| == |tx.inputs| by {
      if tx.inputs != [] { InputRowAt(tx, |tx.inputs|, number, 0); }
    }
    assert |outs| == |tx.outputs| by {
      if tx.outputs != [] { OutputRowAt(tx, |tx.outputs|, number, 0); }
    }
    forall i | 0 <= i < |tx.inputs|
      ensures ins[i] == InputRow(tx, i, number)
    {
      InputRowAt(tx, |tx.inputs|, number, i);
    }
    forall i | 0 <= i < |tx.outputs|
      ensures outs[i] == OutputRow(tx, i, number)
    {
      OutputRowAt(tx, |tx.outputs|, number, i);
    }
  }

  /** The shape of local rows: outputs are named after their transaction. */
  lemma LocalRowShape(txs: seq<Tx>, number: nat, r: SRow)
    requires r in LocalRows(txs, number)
    ensures r.writtenOn == number
    ensures r.op == Create ==> r.key.Output? && r.key.txHash == r.tx && r.srcType == T
    ensures r.op == Update ==> (r.srcType == D <==> r.key.Dividend?)
    ensures exists tx | tx in txs :: tx.hash == r.tx
    ensures r.op == Create && (forall tx | tx in txs :: TxRules(tx)) ==> r.conditions != ""
  {
    LocalRowIsFromTx(txs, number, r);
    var tx, i: nat :| FromInput(txs, number, r, tx, i) || FromOutput(txs, number, r, tx, i);
    assert tx in txs && tx.hash == r.tx;
    if FromOutput(txs, number, r, tx, i) {
      assert tx.outputs[i] in tx.outputs;
    }
  }

  // ---- The two lookups of a local output ----

  lemma {:induction false} LocalSourceMeans(local: seq<SRow>, key: SourceKey)
    ensures var s := LocalSource(local, key);
            s.Some? ==> s.value in local && s.value.op == Create && s.value.key == key && s.value.conditions != ""
    ensures LocalSource(local, key).None? ==>
              forall r | r in local :: !(r.op == Create && r.key == key && r.conditions != "")
  {
    if local != [] {
      LocalSourceMeans(local[1..], key);
      assert local == [local[0]] + local[1..];
    }
  }

  lemma {:induction false} FindOutputMeans(local: seq<SRow>, key: SourceKey)
    ensures var s := FindOutput(local, key); s.Some? ==> s.value in local && s.value.op == Create && s.value.key == key
    ensures FindOutput(local, key).None? ==> forall r | r in local :: !(r.op == Create && r.key == key)
  {
    if local != [] {
      FindOutputMeans(local[1..], key);
      assert local == [local[0]] + local[1..];
    }
  }

  lemma {:induction false} ConsumedMember(sindex: seq<SRow>, rows: seq<SRow>, r: SRow)
    requires r in rows && r.op == Update && FindOutput(sindex, r.key).Some?
    ensures FindOutput(sindex, r.key).value.tx in Consumed(sindex, rows, r.tx)
  {
    var n := |rows| - 1;
    if rows[n] != r {
      assert r in rows[..n];
      ConsumedMember(sindex, rows[..n], r);
    }
  }

  // ---- Unwritten transactions ----

  /** What the stores keep from block to block; `next` is the number of the next block. */
  ghost predicate SoundSources(s: Store, next: nat, hashed: map<string, set<SourceKey>>) {
    && (forall k | k in s.creates :: SoundCreation(s, next, hashed, k))
    && (forall k | k in s.updates :: SoundConsumption(s, next, k))
    && (forall k | k in s.uds :: k.Dividend? && k.number < next && k !in s.spent)
    && (forall k | k in s.spent :: k.Dividend? && k.number < next && s.spent[k].consumedOn < next)
  }

  ghost predicate SoundCreation(s: Store, next: nat, hashed: map<string, set<SourceKey>>, k: SourceKey)
    requires k in s.creates
  {
    && k.Output? && s.creates[k].key == k && s.creates[k].op == Create
    && s.creates[k].conditions != "" && s.creates[k].writtenOn < next
    && k.txHash in hashed && hashed[k.txHash] <= EverConsumed(s)
  }

  ghost predicate SoundConsumption(s: Store, next: nat, k: SourceKey)
    requires k in s.updates
  {
    && k in s.creates && s.updates[k].key == k && s.updates[k].op == Update
    && SourceOf(s.updates[k]) == SourceOf(s.creates[k])
    && s.creates[k].writtenOn <= s.updates[k].writtenOn < next
  }

  ghost predicate Known(s: Store, h: string) {
    exists k: SourceKey :: k in s.creates && k.Output? && k.txHash == h
  }

  ghost function Replayed(s: Store, txs: seq<Tx>): set<string> {
    set t | 0 <= t < |txs| && Known(s, txs[t].hash) :: txs[t].hash
  }

  /** An input that was consumed before is not available any more: it can only be usable when a
      local output carries its name. */
  lemma ConsumedIsNotGlobal(
      s: Store, next: nat, hashed: map<string, set<SourceKey>>, local: seq<SRow>, r: SRow)
    requires SoundSources(s, next, hashed) && Usable(s, local, r) && r.key in EverConsumed(s)
    requires r.srcType == D <==> r.key.Dividend?
    ensures LocalSource(local, r.key).Some?
  {
    assert r.key in s.updates ==> SoundConsumption(s, next, r.key) && SoundCreation(s, next, hashed, r.key);
  }

  lemma ReplayNeedsReplay(
      s: Store, hashed: map<string, set<SourceKey>>, b: MoneyBlock, h: string)
    requires SoundSources(s, b.number, hashed) && Accepted(s, b) && HashesIdentify(hashed, b.txs)
    requires h in Replayed(s, b.txs)
    ensures SpendsWithin(LocalRows(b.txs, b.number), Replayed(s, b.txs), h)
  {
    var local := LocalRows(b.txs, b.number);
    var r := ReplayedInput(s, hashed, b, h);
    ConsumedIsNotGlobal(s, b.number, hashed, local, r);
    LocalSourceMeans(local, r.key);
    FindOutputMeans(local, r.key);
    var source := FindOutput(local, r.key).value;
    ConsumedMember(local, local, r);
    assert Spends(local, h, source.tx);
    LocalRowShape(b.txs, b.number, source);
    ConsumedWasCreated(s, hashed, b, source);
  }

  /** A replayed transaction has an input that was consumed before. */
  lemma ReplayedInput(
      s: Store, hashed: map<string, set<SourceKey>>, b: MoneyBlock, h: string) returns (r: SRow)
    requires SoundSources(s, b.number, hashed) && Accepted(s, b) && HashesIdentify(hashed, b.txs)
    requires h in Replayed(s, b.txs)
    ensures r in LocalRows(b.txs, b.number) && r.op == Update && r.tx == h && r.key in EverConsumed(s)
    ensures (r.srcType == D <==> r.key.Dividend?) && Usable(s, LocalRows(b.txs, b.number), r)
  {
    var local := LocalRows(b.txs, b.number);
    var t :| 0 <= t < |b.txs| && Known(s, b.txs[t].hash) && b.txs[t].hash == h;
    var tx := b.txs[t];
    assert tx in b.txs && TxRules(tx);
    r := InputRow(tx, 0, b.number);
    InputIsLocalRow(b.txs, b.number, tx, 0);
    KnownInputsAreConsumed(s, hashed, b, tx);
    assert r.key in InputKeys(tx);
    IsUsable(s, local, r);
  }

  lemma IsUsable(s: Store, local: seq<SRow>, r: SRow)
    requires AllUsable(s, local) && r in local && r.op == Update
    ensures Usable(s, local, r)
  {
    var i :| 0 <= i < |local| && local[i] == r;
    assert local[i].op == Update;
  }

  lemma KnownInputsAreConsumed(s: Store, hashed: map<string, set<SourceKey>>, b: MoneyBlock, tx: Tx)
    requires SoundSources(s, b.number, hashed) && HashesIdentify(hashed, b.txs)
    requires tx in b.txs && Known(s, tx.hash)
    ensures InputKeys(tx) <= EverConsumed(s)
  {
    var k: SourceKey :| k in s.creates && k.Output? && k.txHash == tx.hash;
    assert SoundCreation(s, b.number, hashed, k);
  }

  lemma ConsumedWasCreated(s: Store, hashed: map<string, set<SourceKey>>, b: MoneyBlock, source: SRow)
    requires SoundSources(s, b.number, hashed)
    requires source.key.Output? && source.key.txHash == source.tx && source.key in EverConsumed(s)
    requires exists tx | tx in b.txs :: tx.hash == source.tx
    ensures source.tx in Replayed(s, b.txs)
  {
    assert SoundConsumption(s, b.number, source.key);
    assert Known(s, source.tx);
    var tx :| tx in b.txs && tx.hash == source.tx;
    var j :| 0 <= j < |b.txs| && b.txs[j] == tx;
    assert b.txs[j].hash in Replayed(s, b.txs);
  }

  /** No transaction of an accepted block was written before: it would have to spend an output of
      another such transaction of the block, endlessly, against the limit on chaining. */
  lemma NoReplay(s: Store, hashed: map<string, set<SourceKey>>, b: MoneyBlock)
    requires SoundSources(s, b.number, hashed) && Accepted(s, b) && HashesIdentify(hashed, b.txs)
    ensures Replayed(s, b.txs) == {}
    ensures Keys(Only(LocalRows(b.txs, b.number), Create)) !! s.creates.Keys
  {
    var local := LocalRows(b.txs, b.number);
    forall h | h in Replayed(s, b.txs) ensures SpendsWithin(local, Replayed(s, b.txs), h) {
      ReplayNeedsReplay(s, hashed, b, h);
    }
    var creates := Only(local, Create);
    forall i | 0 <= i < |creates| && creates[i].key in s.creates ensures creates[i].tx in Replayed(s, b.txs) {
      CreationIsReplay(s, b, creates[i]);
    }
    AllowedDepthHasNoClosedSet(local, Replayed(s, b.txs));
  }

  lemma CreationIsReplay(s: Store, b: MoneyBlock, r: SRow)
    requires r in LocalRows(b.txs, b.number) && r.op == Create && r.key in s.creates
    ensures r.tx in Replayed(s, b.txs)
  {
    LocalRowShape(b.txs, b.number, r);
    assert Known(s, r.tx);
    var tx :| tx in b.txs && tx.hash == r.tx;
    var j :| 0 <= j < |b.txs| && b.txs[j] == tx;
    assert b.txs[j].hash in Replayed(s, b.txs);
  }
}
