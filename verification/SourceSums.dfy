/** What sets of sources are worth, in all (`None`) or for one account (`Some(conditions)`). */
module SourceSums {
  import opened Amounts
  import opened Outcomes
  import opened Sources

  datatype Source = Source(amount: BasedAmount, conditions: string)

  function SourceOf(r: SRow): Source {
    Source(r.amount, r.conditions)
  }

  function Weight(s: Source, account: Option<string>): nat {
    if account.None? || account.value == s.conditions then Value(s.amount) else 0
  }

  ghost function Sum(m: map<SourceKey, Source>, account: Option<string>): nat {
    if m == map[] then 0
    else
      var k :| k in m;
      Weight(m[k], account) + Sum(m - {k}, account)
  }

  lemma {:induction false} SumWithout(m: map<SourceKey, Source>, k: SourceKey, account: Option<string>)
    requires k in m
    ensures Sum(m, account) == Weight(m[k], account) + Sum(m - {k}, account)
    decreases |m|
  {
    var c :| c in m && Sum(m, account) == Weight(m[c], account) + Sum(m - {c}, account);
    if c != k {
      SumWithout(m - {c}, k, account);
      SumWithout(m - {k}, c, account);
      assert m - {c} - {k} == m - {k} - {c};
    }
  }

  lemma SumWith(m: map<SourceKey, Source>, k: SourceKey, s: Source, account: Option<string>)
    requires k !in m
    ensures Sum(m[k := s], account) == Sum(m, account) + Weight(s, account)
  {
    SumWithout(m[k := s], k, account);
    assert m[k := s] - {k} == m;
  }

  // ---- Rows and the sources they add or remove ----

  function RowSum(rows: seq<SRow>, account: Option<string>): nat {
    if rows == [] then 0
    else RowSum(rows[..|rows| - 1], account) + Weight(SourceOf(rows[|rows| - 1]), account)
  }

  /** A row is worth its amount times ten to the power of its base, in all and for the account of its
      conditions; for another account it is worth nothing. */
  lemma WorthOfRow(rows: seq<SRow>, r: SRow, account: string)
    ensures RowSum(rows + [r], None) == RowSum(rows, None) + r.amount.amount * Pow10(r.amount.base)
    ensures RowSum(rows + [r], Some(account)) ==
            RowSum(rows, Some(account)) +
            if r.conditions == account then r.amount.amount * Pow10(r.amount.base) else 0
  {
    assert (rows + [r])[..|rows|] == rows;
  }

  /** A source counts alike among the sources of a store. */
  lemma WorthOfSource(m: map<SourceKey, Source>, k: SourceKey, s: Source, account: string)
    requires k !in m
    ensures Sum(m[k := s], None) == Sum(m, None) + s.amount.amount * Pow10(s.amount.base)
    ensures Sum(m[k := s], Some(account)) ==
            Sum(m, Some(account)) + if s.conditions == account then s.amount.amount * Pow10(s.amount.base) else 0
  {
    SumWith(m, k, s, None);
    SumWith(m, k, s, Some(account));
  }

  lemma {:induction false} RowSumOfParts(xs: seq<SRow>, ys: seq<SRow>, account: Option<string>)
    ensures RowSum(xs + ys, account) == RowSum(xs, account) + RowSum(ys, account)
  {
    if ys == [] {
      assert xs + ys == xs;
    } else {
      RowSumOfParts(xs, ys[..|ys| - 1], account);
      assert (xs + ys)[..|xs + ys| - 1] == xs + ys[..|ys| - 1];
    }
  }

  /** `m` with the rows put in, one after the other. */
  ghost function PutAll(m: map<SourceKey, Source>, rows: seq<SRow>): map<SourceKey, Source> {
    if rows == [] then m
    else
      var r := rows[|rows| - 1];
      PutAll(m, rows[..|rows| - 1])[r.key := SourceOf(r)]
  }

  ghost predicate Holds(m: map<SourceKey, Source>, rows: seq<SRow>) {
    forall i | 0 <= i < |rows| :: HoldsRow(m, rows[i])
  }

  ghost predicate HoldsRow(m: map<SourceKey, Source>, r: SRow) {
    r.key in m && m[r.key] == SourceOf(r)
  }

  lemma HoldsOneMore(m: map<SourceKey, Source>, rows: seq<SRow>)
    requires rows != [] && DistinctKeys(rows) && Holds(m, rows[..|rows| - 1])
    ensures var r := rows[|rows| - 1]; Holds(m[r.key := SourceOf(r)], rows)
  {
    var n := |rows| - 1;
    forall i | 0 <= i < |rows| ensures HoldsRow(m[rows[n].key := SourceOf(rows[n])], rows[i]) {
      if i < n {
        assert HoldsRow(m, rows[..n][i]);
        assert rows[i].key != rows[n].key;
      }
    }
  }

  lemma {:induction false} PutAllContents(m: map<SourceKey, Source>, rows: seq<SRow>)
    requires DistinctKeys(rows)
    ensures PutAll(m, rows).Keys == m.Keys + Keys(rows)
    ensures forall k | k in m && k !in Keys(rows) :: PutAll(m, rows)[k] == m[k]
    ensures Holds(PutAll(m, rows), rows)
  {
    if rows != [] {
      var n := |rows| - 1;
      KeysWithLast(rows);
      PutAllContents(m, rows[..n]);
      HoldsOneMore(PutAll(m, rows[..n]), rows);
    }
  }

  /** Fresh rows add what they are worth. */
  lemma {:induction false} SumOfPut(m: map<SourceKey, Source>, rows: seq<SRow>, account: Option<string>)
    requires DistinctKeys(rows) && Keys(rows) !! m.Keys
    ensures Sum(PutAll(m, rows), account) == Sum(m, account) + RowSum(rows, account)
  {
    if rows != [] {
      var n := |rows| - 1;
      var front := rows[..n];
      KeysWithLast(rows);
      SumOfPut(m, front, account);
      PutAllContents(m, front);
      SumWith(PutAll(m, front), rows[n].key, SourceOf(rows[n]), account);
    }
  }

  /** Removing sources, each by a row that states it exactly, removes what the rows are worth. */
  lemma {:induction false} SumOfRemoval(m: map<SourceKey, Source>, rows: seq<SRow>, account: Option<string>)
    requires DistinctKeys(rows) && Holds(m, rows)
    ensures Sum(m, account) == Sum(m - Keys(rows), account) + RowSum(rows, account)
  {
    if rows == [] {
      assert m - Keys(rows) == m;
    } else {
      var n := |rows| - 1;
      var front := rows[..n];
      KeysWithLast(rows);
      forall i | 0 <= i < |front| ensures HoldsRow(m, front[i]) {
        assert HoldsRow(m, rows[i]);
      }
      SumOfRemoval(m, front, account);
      assert HoldsRow(m, rows[n]);
      SumWithout(m - Keys(front), rows[n].key, account);
      assert m - Keys(front) - {rows[n].key} == m - Keys(rows);
    }
  }
}
