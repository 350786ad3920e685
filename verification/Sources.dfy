/** The sources of money and the rows that a block writes about them. */
module Sources {
  import opened Amounts

  /** A source is named by transaction hash and output index, or by member and block number for a
      dividend. Both are pairs (identifier, pos); hashes and public keys never coincide. */
  datatype SourceKey =
    | Output(txHash: string, index: nat)
    | Dividend(pub: string, number: nat)

  datatype Op = Create | Update

  datatype SrcType = T | D

  /** A row of the sources index: a `Create` for an output, an `Update` for a consumption. */
  datatype SRow = SRow(
    op: Op, srcType: SrcType, key: SourceKey, tx: string,
    amount: BasedAmount, conditions: string, writtenOn: nat)

  datatype Input = Input(key: SourceKey, amount: BasedAmount)

  datatype TxOutput = TxOutput(amount: BasedAmount, conditions: string)

  datatype Tx = Tx(hash: string, inputs: seq<Input>, outputs: seq<TxOutput>)

  function InputRow(tx: Tx, i: nat, number: nat): SRow
    requires i < |tx.inputs|
  {
    var input := tx.inputs[i];
    SRow(Update, if input.key.Output? then T else D, input.key, tx.hash, input.amount, "", number)
  }

  function OutputRow(tx: Tx, i: nat, number: nat): SRow
    requires i < |tx.outputs|
  {
    SRow(Create, T, Output(tx.hash, i), tx.hash, tx.outputs[i].amount, tx.outputs[i].conditions, number)
  }

  function InputRows(tx: Tx, n: nat, number: nat): seq<SRow>
    requires n <= |tx.inputs|
  {
    if n == 0 then [] else InputRows(tx, n - 1, number) + [InputRow(tx, n - 1, number)]
  }

  function OutputRows(tx: Tx, n: nat, number: nat): seq<SRow>
    requires n <= |tx.outputs|
  {
    if n == 0 then [] else OutputRows(tx, n - 1, number) + [OutputRow(tx, n - 1, number)]
  }

  function LocalRows(txs: seq<Tx>, number: nat): seq<SRow> {
    if txs == [] then []
    else
      var tx := txs[|txs| - 1];
      LocalRows(txs[..|txs| - 1], number)
      + InputRows(tx, |tx.inputs|, number) + OutputRows(tx, |tx.outputs|, number)
  }

  /** `localSIndex` */
  method LocalSIndex(txs: seq<Tx>, number: nat) returns (index: seq<SRow>)
    ensures index == LocalRows(txs, number)
  {
    index := [];
    for t := 0 to |txs|
      invariant index == LocalRows(txs[..t], number)
    {
      assert txs[..t + 1][..t] == txs[..t];
      var tx := txs[t];
      ghost var before := index;
      for k := 0 to |tx.inputs|
        invariant index == before + InputRows(tx, k, number)
      {
        index := index + [InputRow(tx, k, number)];
      }
      for i := 0 to |tx.outputs|
        invariant index == before + InputRows(tx, |tx.inputs|, number) + OutputRows(tx, i, number)
      {
        index := index + [OutputRow(tx, i, number)];
      }
    }
    assert txs[..|txs|] == txs;
  }

  // ---- Reading rows ----

  /** The rows with this operation, in order. */
  function Only(rows: seq<SRow>, op: Op): (r: seq<SRow>)
    ensures forall i | 0 <= i < |r| :: r[i].op == op && r[i] in rows
  {
    if rows == [] then []
    else
      var front, last := Only(rows[..|rows| - 1], op), rows[|rows| - 1];
      if last.op == op then front + [last] else front
  }

  function Keys(rows: seq<SRow>): set<SourceKey> {
    set i | 0 <= i < |rows| :: rows[i].key
  }

  ghost predicate DistinctKeys(rows: seq<SRow>) {
    forall i, j | 0 <= i < j < |rows| :: rows[i].key != rows[j].key
  }

  lemma {:induction false} OnlyMembers(rows: seq<SRow>, op: Op, r: SRow)
    ensures r in Only(rows, op) <==> r in rows && r.op == op
  {
    if rows != [] {
      OnlyMembers(rows[..|rows| - 1], op, r);
      assert rows == rows[..|rows| - 1] + [rows[|rows| - 1]];
    }
  }

  lemma {:induction false} OnlyOfParts(xs: seq<SRow>, ys: seq<SRow>, op: Op)
    ensures Only(xs + ys, op) == Only(xs, op) + Only(ys, op)
  {
    if ys == [] {
      assert xs + ys == xs;
    } else {
      OnlyOfParts(xs, ys[..|ys| - 1], op);
      assert (xs + ys)[..|xs + ys| - 1] == xs + ys[..|ys| - 1];
    }
  }

  lemma KeysWithLast(rows: seq<SRow>)
    requires rows != []
    ensures Keys(rows) == Keys(rows[..|rows| - 1]) + {rows[|rows| - 1].key}
    ensures DistinctKeys(rows) ==>
              DistinctKeys(rows[..|rows| - 1]) && rows[|rows| - 1].key !in Keys(rows[..|rows| - 1])
  {
    var front := rows[..|rows| - 1];
    assert forall i | 0 <= i < |front| :: rows[i].key == front[i].key;
  }

  lemma KeyOfMember(rows: seq<SRow>, r: SRow)
    requires r in rows
    ensures r.key in Keys(rows)
  {}

  lemma MemberOfKey(rows: seq<SRow>, k: SourceKey) returns (r: SRow)
    requires k in Keys(rows)
    ensures r in rows && r.key == k
  {
    var i :| 0 <= i < |rows| && rows[i].key == k;
    r := rows[i];
  }

  lemma DistinctWithLast(rows: seq<SRow>)
    requires rows != [] && DistinctKeys(rows[..|rows| - 1])
    requires rows[|rows| - 1].key !in Keys(rows[..|rows| - 1])
    ensures DistinctKeys(rows)
  {
    var front := rows[..|rows| - 1];
    forall i, j | 0 <= i < j < |rows| ensures rows[i].key != rows[j].key {
      assert front[i] == rows[i];
      KeyOfMember(front, front[i]);
      if j < |front| { assert front[j] == rows[j]; }
    }
  }
}
