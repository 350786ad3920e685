/** How deep the transactions of a block are chained: the local rule refuses a block where a
    chain of in-block spends is longer than 5 hops, which also refuses every cycle. */
module TxDepth {
  import opened Outcomes
  import opened Sources

  const MAX_DEPTH: nat := 5

  /** `findWhere`: the first output with this identifier. */
  function FindOutput(sindex: seq<SRow>, id: SourceKey): Option<SRow> {
    if sindex == [] then None
    else if sindex[0].op == Create && sindex[0].key == id then Some(sindex[0])
    else FindOutput(sindex[1..], id)
  }

  /** The transactions whose outputs `tx` consumes, input by input. */
  function Consumed(sindex: seq<SRow>, rows: seq<SRow>, tx: string): seq<string> {
    if rows == [] then []
    else
      var front, r := Consumed(sindex, rows[..|rows| - 1], tx), rows[|rows| - 1];
      if r.op == Update && r.tx == tx && FindOutput(sindex, r.key).Some?
      then front + [FindOutput(sindex, r.key).value.tx]
      else front
  }

  /** `a` spends an output of `b` in the same block. */
  ghost predicate Spends(sindex: seq<SRow>, a: string, b: string) {
    b in Consumed(sindex, sindex, a)
  }

  /** The output with this identifier that comes first in the index. */
  ghost predicate FirstOutput(sindex: seq<SRow>, id: SourceKey, j: nat) {
    && j < |sindex| && sindex[j].op == Create && sindex[j].key == id
    && forall m | 0 <= m < j :: !(sindex[m].op == Create && sindex[m].key == id)
  }

  lemma {:induction false} FoundIsFirst(sindex: seq<SRow>, id: SourceKey, j: nat)
    ensures FirstOutput(sindex, id, j) ==> FindOutput(sindex, id) == Some(sindex[j])
  {
    if FirstOutput(sindex, id, j) && j > 0 {
      FoundIsFirst(sindex[1..], id, j - 1);
    }
  }

  lemma {:induction false} FoundIsSomewhere(sindex: seq<SRow>, id: SourceKey) returns (j: nat)
    requires FindOutput(sindex, id).Some?
    ensures FirstOutput(sindex, id, j)
  {
    if sindex[0].op == Create && sindex[0].key == id {
      j := 0;
    } else {
      var rest := FoundIsSomewhere(sindex[1..], id);
      j := rest + 1;
      assert sindex[1..][rest] == sindex[j];
      forall m | 0 <= m < j ensures !(sindex[m].op == Create && sindex[m].key == id) {
        if m > 0 { assert sindex[1..][m - 1] == sindex[m]; }
      }
    }
  }

  lemma {:induction false} ConsumedMeans(sindex: seq<SRow>, rows: seq<SRow>, a: string, b: string)
    ensures b in Consumed(sindex, rows, a) <==>
            exists r | r in rows ::
              && r.op == Update && r.tx == a && FindOutput(sindex, r.key).Some?
              && FindOutput(sindex, r.key).value.tx == b
  {
    if rows != [] {
      ConsumedMeans(sindex, rows[..|rows| - 1], a, b);
      assert rows == rows[..|rows| - 1] + [rows[|rows| - 1]];
    }
  }

  /** `a` spends an output of `b` when a row of `a` consumes a source whose first creation in the
      index is a row of `b`. */
  lemma SpendsMeans(sindex: seq<SRow>, a: string, b: string)
    ensures Spends(sindex, a, b) <==>
            exists i, j | 0 <= i < |sindex| && 0 <= j < |sindex| ::
              && sindex[i].op == Update && sindex[i].tx == a
              && sindex[j].op == Create && sindex[j].key == sindex[i].key && sindex[j].tx == b
              && forall m | 0 <= m < j :: sindex[m].op == Create ==> sindex[m].key != sindex[i].key
  {
    ConsumedMeans(sindex, sindex, a, b);
    if Spends(sindex, a, b) {
      var r :| r in sindex && r.op == Update && r.tx == a && FindOutput(sindex, r.key).Some?
               && FindOutput(sindex, r.key).value.tx == b;
      var i :| 0 <= i < |sindex| && sindex[i] == r;
      var j := FoundIsSomewhere(sindex, r.key);
      FoundIsFirst(sindex, r.key, j);
      assert sindex[i].tx == a && sindex[j].tx == b;
    }
    if i, j :| (
         && 0 <= i < |sindex| && 0 <= j < |sindex|
         && sindex[i].op == Update && sindex[i].tx == a
         && sindex[j].op == Create && sindex[j].key == sindex[i].key && sindex[j].tx == b
         && forall m | 0 <= m < j :: sindex[m].op == Create ==> sindex[m].key != sindex[i].key) {
      assert FirstOutput(sindex, sindex[i].key, j);
      FoundIsFirst(sindex, sindex[i].key, j);
      assert sindex[i] in sindex;
    }
  }

  /** `path` is a chain of spends of |path| - 1 hops. */
  ghost predicate Chain(sindex: seq<SRow>, path: seq<string>) {
    path != [] && forall i | 0 <= i < |path| - 1 :: Hop(sindex, path, i)
  }

  ghost predicate Hop(sindex: seq<SRow>, path: seq<string>, i: nat)
    requires i < |path| - 1
  {
    Spends(sindex, path[i], path[i + 1])
  }

  ghost predicate HasChain(sindex: seq<SRow>, hops: nat) {
    exists path: seq<string> :: |path| == hops + 1 && Chain(sindex, path)
  }

  function Max(a: nat, b: nat): nat {
    if a > b then a else b
  }

  /** The recursion of `getTransactionDepth`, over the transactions that `tx` consumes. */
  function Depth(sindex: seq<SRow>, tx: string, localDepth: nat): nat
    requires localDepth <= MAX_DEPTH
    decreases MAX_DEPTH - localDepth, |sindex| + 1
  {
    DepthOver(sindex, Consumed(sindex, sindex, tx), localDepth)
  }

  function DepthOver(sindex: seq<SRow>, consumed: seq<string>, localDepth: nat): (d: nat)
    requires localDepth <= MAX_DEPTH
    decreases MAX_DEPTH - localDepth, 0, |consumed|
  {
    if consumed == [] then localDepth
    else
      var n := |consumed| - 1;
      var depth := DepthOver(sindex, consumed[..n], localDepth);
      if localDepth < MAX_DEPTH then Max(depth, Depth(sindex, consumed[n], localDepth + 1))
      else depth + 1
  }

  /** What one row of the index makes of the depth. */
  function NextDepth(sindex: seq<SRow>, row: SRow, tx: string, localDepth: nat, depth: nat): nat
    requires localDepth <= MAX_DEPTH
  {
    var output := FindOutput(sindex, row.key);
    if row.op != Update || row.tx != tx || output.None? then depth
    else if localDepth < MAX_DEPTH then Max(depth, Depth(sindex, output.value.tx, localDepth + 1))
    else depth + 1
  }

  lemma NextInput(sindex: seq<SRow>, tx: string, i: nat, localDepth: nat)
    requires i < |sindex| && localDepth <= MAX_DEPTH
    ensures var before := Consumed(sindex, sindex[..i], tx);
            var after := Consumed(sindex, sindex[..i + 1], tx);
            DepthOver(sindex, after, localDepth) ==
            NextDepth(sindex, sindex[i], tx, localDepth, DepthOver(sindex, before, localDepth))
  {
    var before := Consumed(sindex, sindex[..i], tx);
    assert sindex[..i + 1][..i] == sindex[..i];
    if FindOutput(sindex, sindex[i].key).Some? {
      assert (before + [FindOutput(sindex, sindex[i].key).value.tx])[..|before|] == before;
    }
  }

  /** `getTransactionDepth` */
  method GetTransactionDepth(txHash: string, sindex: seq<SRow>, localDepth: nat) returns (depth: nat)
    requires localDepth <= MAX_DEPTH
    ensures depth == Depth(sindex, txHash, localDepth)
    decreases MAX_DEPTH - localDepth, 1
  {
    depth := localDepth;
    for i := 0 to |sindex|
      invariant depth == DepthOver(sindex, Consumed(sindex, sindex[..i], txHash), localDepth)
    {
      NextInput(sindex, txHash, i, localDepth);
      depth := DepthOfInput(txHash, sindex, sindex[i], localDepth, depth);
    }
    assert sindex[..|sindex|] == sindex;
  }

  /** The body of the loop over the inputs. */
  method DepthOfInput(txHash: string, sindex: seq<SRow>, input: SRow, localDepth: nat, before: nat) returns (depth: nat)
    requires localDepth <= MAX_DEPTH
    ensures depth == NextDepth(sindex, input, txHash, localDepth, before)
    decreases MAX_DEPTH - localDepth, 0
  {
    depth := before;
    if input.op == Update && input.tx == txHash {
      var consumedOutput := FindOutput(sindex, input.key);
      if consumedOutput.Some? {
        if localDepth < MAX_DEPTH {
          var subTxDepth := GetTransactionDepth(consumedOutput.value.tx, sindex, localDepth + 1);
          depth := Max(depth, subTxDepth);
        } else {
          depth := depth + 1;
        }
      }
    }
  }

  function MaxDepthOf(sindex: seq<SRow>, ids: seq<string>): nat {
    if ids == [] then 0
    else Max(MaxDepthOf(sindex, ids[..|ids| - 1]), Depth(sindex, ids[|ids| - 1], 0))
  }

  /** The distinct transactions of the rows, in order. */
  function Ids(sindex: seq<SRow>): seq<string> {
    if sindex == [] then []
    else
      var ids, tx := Ids(sindex[..|sindex| - 1]), sindex[|sindex| - 1].tx;
      if tx in ids then ids else ids + [tx]
  }

  /** `getMaxTransactionDepth`. For every n up to 6, it is at least n exactly when a chain of n
      hops exists: up to 5 it is the length of the longest chain, and it exceeds 5 exactly when a
      chain of 6 hops exists, as a cycle makes one. */
  method GetMaxTransactionDepth(sindex: seq<SRow>) returns (max: nat)
    ensures max == MaxDepthOf(sindex, Ids(sindex))
    ensures forall n: nat | n <= 6 :: max >= n <==> HasChain(sindex, n)
  {
    var ids := Ids(sindex);
    max := 0;
    for i := 0 to |ids|
      invariant max == MaxDepthOf(sindex, ids[..i])
    {
      assert ids[..i + 1][..i] == ids[..i];
      var depth := GetTransactionDepth(ids[i], sindex, 0);
      max := Max(max, depth);
    }
    assert ids[..|ids|] == ids;
    forall n: nat | n <= 6 ensures max >= n <==> HasChain(sindex, n)
    {
      MaxDepthIsLongestChain(sindex, n);
    }
  }

  /** A depth from `tx` reaches n more hops exactly when a chain of n hops starts at `tx`. */
  lemma {:induction false} DepthMeansChain(sindex: seq<SRow>, tx: string, localDepth: nat, n: nat)
    requires localDepth <= MAX_DEPTH && n <= MAX_DEPTH + 1 - localDepth
    ensures Depth(sindex, tx, localDepth) >= localDepth + n <==>
            exists path :: |path| == n + 1 && path[0] == tx && Chain(sindex, path)
    decreases MAX_DEPTH - localDepth, 1
  {
    var consumed := Consumed(sindex, sindex, tx);
    DepthOverMeansChain(sindex, consumed, localDepth, n);
    if n == 0 {
      assert Chain(sindex, [tx]);
    } else {
      if exists path :: |path| == n + 1 && path[0] == tx && Chain(sindex, path) {
        var path :| |path| == n + 1 && path[0] == tx && Chain(sindex, path);
        assert Hop(sindex, path, 0);
        ChainTail(sindex, path);
        assert path[1..][0] in consumed;
      }
      if Depth(sindex, tx, localDepth) >= localDepth + n {
        var path :| |path| == n && path[0] in consumed && Chain(sindex, path);
        ChainCons(sindex, tx, path);
        assert ([tx] + path)[0] == tx;
      }
    }
  }

  lemma {:induction false} DepthOverMeansChain(sindex: seq<SRow>, consumed: seq<string>, localDepth: nat, n: nat)
    requires localDepth <= MAX_DEPTH && n <= MAX_DEPTH + 1 - localDepth
    ensures DepthOver(sindex, consumed, localDepth) >= localDepth
    ensures n > 0 ==>
              (DepthOver(sindex, consumed, localDepth) >= localDepth + n <==>
               exists path :: |path| == n && path[0] in consumed && Chain(sindex, path))
    decreases MAX_DEPTH - localDepth, 0, |consumed|
  {
    if consumed != [] {
      var m := |consumed| - 1;
      var front, last := consumed[..m], consumed[m];
      DepthOverMeansChain(sindex, front, localDepth, n);
      assert consumed == front + [last];
      if localDepth < MAX_DEPTH {
        if n > 0 {
          DepthMeansChain(sindex, last, localDepth + 1, n - 1);
        }
      } else if n > 0 {
        assert Chain(sindex, [last]) && [last][0] in consumed;
      }
    }
  }

  lemma ChainTail(sindex: seq<SRow>, path: seq<string>)
    requires |path| >= 2 && Chain(sindex, path)
    ensures Chain(sindex, path[1..])
  {
    forall i | 0 <= i < |path[1..]| - 1 ensures Hop(sindex, path[1..], i) {
      assert Hop(sindex, path, i + 1);
    }
  }

  lemma ChainCons(sindex: seq<SRow>, tx: string, path: seq<string>)
    requires Chain(sindex, path) && Spends(sindex, tx, path[0])
    ensures Chain(sindex, [tx] + path)
  {
    var p := [tx] + path;
    forall i | 0 <= i < |p| - 1 ensures Hop(sindex, p, i) {
      if i > 0 { assert Hop(sindex, path, i - 1); }
    }
  }

  lemma {:induction false} MaxDepthIsAtLeast(sindex: seq<SRow>, ids: seq<string>, tx: string)
    requires tx in ids
    ensures MaxDepthOf(sindex, ids) >= Depth(sindex, tx, 0)
  {
    var m := |ids| - 1;
    assert ids == ids[..m] + [ids[m]];
    if tx in ids[..m] {
      MaxDepthIsAtLeast(sindex, ids[..m], tx);
    }
  }

  lemma {:induction false} MaxDepthIsReached(sindex: seq<SRow>, ids: seq<string>) returns (tx: string)
    requires MaxDepthOf(sindex, ids) > 0
    ensures tx in ids && Depth(sindex, tx, 0) == MaxDepthOf(sindex, ids)
  {
    var m := |ids| - 1;
    assert ids == ids[..m] + [ids[m]];
    if Depth(sindex, ids[m], 0) == MaxDepthOf(sindex, ids) {
      tx := ids[m];
    } else {
      tx := MaxDepthIsReached(sindex, ids[..m]);
    }
  }

  lemma {:induction false} SpenderIsListed(sindex: seq<SRow>, rows: seq<SRow>, tx: string)
    ensures Consumed(sindex, rows, tx) != [] ==> tx in Ids(rows)
  {
    if rows != [] {
      SpenderIsListed(sindex, rows[..|rows| - 1], tx);
    }
  }

  lemma MaxDepthIsLongestChain(sindex: seq<SRow>, n: nat)
    requires n <= MAX_DEPTH + 1
    ensures MaxDepthOf(sindex, Ids(sindex)) >= n <==> HasChain(sindex, n)
  {
    if n == 0 {
      assert Chain(sindex, [""]);
    } else {
      if path: seq<string> :| |path| == n + 1 && Chain(sindex, path) {
        assert Hop(sindex, path, 0);
        SpenderIsListed(sindex, sindex, path[0]);
        DepthMeansChain(sindex, path[0], 0, n);
        MaxDepthIsAtLeast(sindex, Ids(sindex), path[0]);
      }
      if MaxDepthOf(sindex, Ids(sindex)) >= n {
        var tx := MaxDepthIsReached(sindex, Ids(sindex));
        DepthMeansChain(sindex, tx, 0, n);
      }
    }
  }

  /** The depth is allowed exactly when there is no chain of six hops. */
  lemma DepthIsAllowed(sindex: seq<SRow>)
    ensures MaxDepthOf(sindex, Ids(sindex)) <= MAX_DEPTH <==>
            !exists path: seq<string> ::
              |path| == 7 && forall i | 0 <= i < 6 :: Spends(sindex, path[i], path[i + 1])
  {
    MaxDepthIsLongestChain(sindex, 6);
    if path: seq<string> :| |path| == 7 && forall i | 0 <= i < 6 :: Spends(sindex, path[i], path[i + 1]) {
      assert Chain(sindex, path);
    }
    if path: seq<string> :| |path| == 6 + 1 && Chain(sindex, path) {
      forall i | 0 <= i < 6 ensures Spends(sindex, path[i], path[i + 1]) {
        assert Hop(sindex, path, i);
      }
    }
  }

  ghost predicate SpendsWithin(sindex: seq<SRow>, txs: set<string>, a: string) {
    exists b | b in txs :: Spends(sindex, a, b)
  }

  /** When every transaction of a non-empty set spends an output of another one of the set, there
      are chains of any length: the depth exceeds every limit. */
  lemma {:induction false} ClosedSetHasChains(sindex: seq<SRow>, txs: set<string>, tx: string, n: nat)
    returns (path: seq<string>)
    requires tx in txs
    requires forall a | a in txs :: SpendsWithin(sindex, txs, a)
    ensures |path| == n + 1 && path[0] == tx && Chain(sindex, path)
    decreases n
  {
    path := [tx];
    if n > 0 {
      assert SpendsWithin(sindex, txs, tx);
      var b :| b in txs && Spends(sindex, tx, b);
      var tail := ClosedSetHasChains(sindex, txs, b, n - 1);
      ChainCons(sindex, tx, tail);
      path := [tx] + tail;
    }
  }

  /** A block whose depth is allowed has no such set; in particular it has no cycle of spends. */
  lemma AllowedDepthHasNoClosedSet(sindex: seq<SRow>, txs: set<string>)
    requires MaxDepthOf(sindex, Ids(sindex)) <= MAX_DEPTH
    requires forall a | a in txs :: SpendsWithin(sindex, txs, a)
    ensures txs == {}
  {
    if tx :| tx in txs {
      var path := ClosedSetHasChains(sindex, txs, tx, MAX_DEPTH + 1);
      MaxDepthIsLongestChain(sindex, MAX_DEPTH + 1);
    }
  }
}
