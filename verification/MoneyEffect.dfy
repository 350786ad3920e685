/** The stores after an accepted block, read off the rows that were flushed. */
module MoneyEffect {
  import opened Amounts
  import opened Sources
  import opened SourceSums
  import opened Money
  import opened MoneySteps
  import opened MoneyConservation

  // ---- Filters and records ----

  lemma {:induction false} OfTypeMembers(rows: seq<SRow>, t: SrcType, r: SRow)
    ensures r in OfType(rows, t) <==> r in rows && r.srcType == t
  {
    if rows != [] {
      OfTypeMembers(rows[..|rows| - 1], t, r);
      assert rows == rows[..|rows| - 1] + [rows[|rows| - 1]];
    }
  }

  lemma {:induction false} NoneOfType(rows: seq<SRow>, t: SrcType)
    requires forall i | 0 <= i < |rows| :: rows[i].srcType != t
    ensures OfType(rows, t) == []
  {
    if rows != [] {
      NoneOfType(rows[..|rows| - 1], t);
    }
  }

  lemma {:induction false} OfTypeOfParts(xs: seq<SRow>, ys: seq<SRow>, t: SrcType)
    ensures OfType(xs + ys, t) == OfType(xs, t) + OfType(ys, t)
  {
    if ys == [] {
      assert xs + ys == xs;
    } else {
      OfTypeOfParts(xs, ys[..|ys| - 1], t);
      assert (xs + ys)[..|xs + ys| - 1] == xs + ys[..|ys| - 1];
    }
  }

  lemma {:induction false} FiltersCommute(rows: seq<SRow>, t: SrcType, op: Op)
    ensures Only(OfType(rows, t), op) == OfType(Only(rows, op), t)
  {
    if rows != [] {
      var front, last := rows[..|rows| - 1], rows[|rows| - 1];
      FiltersCommute(front, t, op);
      if last.srcType == t {
        assert (OfType(front, t) + [last])[..|OfType(front, t)|] == OfType(front, t);
      }
      if last.op == op {
        assert (Only(front, op) + [last])[..|Only(front, op)|] == Only(front, op);
      }
    }
  }

  lemma {:induction false} DistinctOfType(rows: seq<SRow>, t: SrcType)
    requires DistinctKeys(rows)
    ensures DistinctKeys(OfType(rows, t)) && Keys(OfType(rows, t)) <= Keys(rows)
  {
    if rows != [] {
      KeysWithLast(rows);
      DistinctOfType(rows[..|rows| - 1], t);
      if OfType(rows, t) != [] && rows[|rows| - 1].srcType == t {
        KeysWithLast(OfType(rows, t));
        assert OfType(rows, t)[..|OfType(rows, t)| - 1] == OfType(rows[..|rows| - 1], t);
        DistinctWithLast(OfType(rows, t));
      }
    }
  }

  ghost predicate Written(m: map<SourceKey, SRow>, r: SRow) {
    r.key in m && m[r.key] == r
  }

  lemma {:induction false} PutRowsContents(m: map<SourceKey, SRow>, rows: seq<SRow>)
    requires DistinctKeys(rows)
    ensures PutRows(m, rows).Keys == m.Keys + Keys(rows)
    ensures forall k | k in m && k !in Keys(rows) :: PutRows(m, rows)[k] == m[k]
    ensures forall i | 0 <= i < |rows| :: Written(PutRows(m, rows), rows[i])
  {
    if rows != [] {
      var n := |rows| - 1;
      var front := rows[..n];
      KeysWithLast(rows);
      PutRowsContents(m, front);
      forall i | 0 <= i < |rows| ensures Written(PutRows(m, rows), rows[i]) {
        if i < n {
          assert Written(PutRows(m, front), front[i]);
          KeyOfMember(front, front[i]);
        }
      }
    }
  }

  ghost predicate Granted(uds: map<SourceKey, BasedAmount>, r: SRow) {
    r.key in uds && uds[r.key] == r.amount
  }

  lemma {:induction false} WithUdsContents(uds: map<SourceKey, BasedAmount>, dividends: seq<SRow>)
    requires DistinctKeys(dividends)
    ensures WithUds(uds, dividends).Keys == uds.Keys + Keys(dividends)
    ensures forall k | k in uds && k !in Keys(dividends) :: WithUds(uds, dividends)[k] == uds[k]
    ensures forall i | 0 <= i < |dividends| :: Granted(WithUds(uds, dividends), dividends[i])
  {
    if dividends != [] {
      var n := |dividends| - 1;
      var front := dividends[..n];
      KeysWithLast(dividends);
      WithUdsContents(uds, front);
      forall i | 0 <= i < |dividends| ensures Granted(WithUds(uds, dividends), dividends[i]) {
        if i < n {
          assert Granted(WithUds(uds, front), front[i]);
          KeyOfMember(front, front[i]);
        }
      }
    }
  }

  /** BR_G91: each producer is granted the dividend of the block, by one row. */
  lemma ProducerIsPaid(b: MoneyBlock, dividends: seq<SRow>, uds: map<SourceKey, BasedAmount>, p: string)
    requires IsDividend(b, dividends) && b.dividend.Some? && p in b.producers
    ensures var k, uds' := Dividend(p, b.number), WithUds(uds, dividends); k in uds' && uds'[k] == b.dividend.value
    ensures exists i | 0 <= i < |dividends| ::
              && dividends[i] ==
                 SRow(Create, D, Dividend(p, b.number), "", b.dividend.value, "SIG(" + p + ")", b.number)
              && forall j | 0 <= j < |dividends| && dividends[j].key == Dividend(p, b.number) :: j == i
  {
    WithUdsContents(uds, dividends);
    assert Dividend(p, b.number) in Produced(b);
    var i :| 0 <= i < |dividends| && dividends[i].key == Dividend(p, b.number);
    assert IsDividendRow(b, dividends[i]) && Granted(WithUds(uds, dividends), dividends[i]);
  }

  /** Nobody else is granted anything, and earlier dividends stay. */
  lemma OnlyProducersArePaid(b: MoneyBlock, dividends: seq<SRow>, uds: map<SourceKey, BasedAmount>)
    requires IsDividend(b, dividends)
    ensures forall r | r in dividends ::
              b.dividend.Some? && r.key.Dividend? && r.key.pub in b.producers && r.key.number == b.number
    ensures forall k | k in WithUds(uds, dividends) ::
              || (b.dividend.Some? && k.Dividend? && k.number == b.number && k.pub in b.producers)
              || (k in uds && WithUds(uds, dividends)[k] == uds[k])
    ensures uds.Keys <= WithUds(uds, dividends).Keys
  {
    WithUdsContents(uds, dividends);
    forall r | r in dividends ensures r.key in Produced(b) {
      KeyOfMember(dividends, r);
    }
  }

  /** What `flushIndexes` leaves of the dividends: those that a dividend row names are spent on the block. */
  lemma FlushMovesDividends(
      uds: map<SourceKey, BasedAmount>, spent: map<SourceKey, SpentUd>, sindex: seq<SRow>, number: nat, k: SourceKey)
    ensures var named := exists r | r in sindex :: r.srcType == D && r.key == k;
            var uds', spent' := FlushedUds(uds, sindex), FlushedSpent(uds, spent, sindex, number);
            && (k in uds' <==> k in uds && !named) && (k in uds' ==> uds'[k] == uds[k])
            && (k in spent' <==> k in spent || (k in uds && named))
            && (k in uds && named ==> spent'[k] == SpentUd(uds[k], number))
            && (k in spent && !(k in uds && named) ==> spent'[k] == spent[k])
  {
    var ds := OfType(sindex, D);
    if k in Keys(ds) {
      var r := MemberOfKey(ds, k);
      OfTypeMembers(sindex, D, r);
    }
    if r :| r in sindex && r.srcType == D && r.key == k {
      OfTypeMembers(sindex, D, r);
      KeyOfMember(ds, r);
    }
  }

  /** What `flushIndexes` makes of the records of one operation: each transaction row is stored under its
      own name, and no other record changes. */
  lemma FlushStoresRecords(records: map<SourceKey, SRow>, sindex: seq<SRow>, op: Op, k: SourceKey)
    requires DistinctKeys(Only(OfType(sindex, T), op))
    ensures var records' := PutRows(records, Only(OfType(sindex, T), op));
            && (forall r | r in sindex && r.srcType == T && r.op == op && r.key == k ::
                  k in records' && records'[k] == r)
            && ((forall r | r in sindex && r.srcType == T && r.op == op :: r.key != k) ==>
                  (k in records' <==> k in records) && (k in records ==> records'[k] == records[k]))
  {
    var ts := OfType(sindex, T);
    var rows := Only(ts, op);
    PutRowsContents(records, rows);
    forall r | r in sindex && r.srcType == T && r.op == op && r.key == k
      ensures Written(PutRows(records, rows), r)
    {
      OfTypeMembers(sindex, T, r);
      OnlyMembers(ts, op, r);
      var i :| 0 <= i < |rows| && rows[i] == r;
    }
    if k in Keys(rows) {
      var r := MemberOfKey(rows, k);
      OnlyMembers(ts, op, r);
      OfTypeMembers(sindex, T, r);
    }
  }

  // ---- The consumptions of a block ----

  /** All the consumptions: by transactions, then by the garbage rule. */
  ghost function Consumptions(s: Store, b: MoneyBlock, garbage: seq<SRow>): seq<SRow> {
    Only(Rows(s, b), Update) + garbage
  }

  lemma ConsumptionsAreDistinct(
      s: Store, hashed: map<string, set<SourceKey>>, b: MoneyBlock, dividends: seq<SRow>, garbage: seq<SRow>)
    requires Sound(s, b.number, hashed) && FitTxs(s, hashed, b) && IsDividend(b, dividends)
    requires SomeGarbage(s, Rows(s, b) + dividends, b, garbage)
    ensures DistinctKeys(Consumptions(s, b, garbage))
    ensures Keys(Consumptions(s, b, garbage)) == Keys(Only(Rows(s, b), Update)) + Keys(garbage)
    ensures Keys(Consumptions(s, b, garbage)) <= Pool(s, b, dividends).Keys
  {
    RowsShape(s, b);
    GarbageIsLeft(s, hashed, b, dividends, garbage);
    ConsumptionsArePooled(s, hashed, b, dividends);
    var us := Only(Rows(s, b), Update);
    HeldKeys(Left(s, b, dividends), garbage);
    HeldKeys(Pool(s, b, dividends), us);
    KeysOfParts(us, garbage);
    DistinctParts(us, garbage);
  }

  lemma HeldKeys(m: map<SourceKey, Source>, rows: seq<SRow>)
    requires Holds(m, rows)
    ensures Keys(rows) <= m.Keys
  {
    forall k | k in Keys(rows) ensures k in m {
      var i :| 0 <= i < |rows| && rows[i].key == k;
      assert HoldsRow(m, rows[i]);
    }
  }

  lemma DistinctParts(xs: seq<SRow>, ys: seq<SRow>)
    requires DistinctKeys(xs) && DistinctKeys(ys) && Keys(xs) !! Keys(ys)
    ensures DistinctKeys(xs + ys)
  {
    assert forall i | 0 <= i < |xs| :: xs[i].key in Keys(xs);
    assert forall i | 0 <= i < |ys| :: ys[i].key in Keys(ys);
  }

  lemma KeysOfParts(xs: seq<SRow>, ys: seq<SRow>)
    ensures Keys(xs + ys) == Keys(xs) + Keys(ys)
  {
    forall k | k in Keys(xs) + Keys(ys) ensures k in Keys(xs + ys) {
      if k in Keys(xs) {
        var i :| 0 <= i < |xs| && xs[i].key == k;
        assert (xs + ys)[i].key == k;
      } else {
        var i :| 0 <= i < |ys| && ys[i].key == k;
        assert (xs + ys)[|xs| + i].key == k;
      }
    }
  }

  ghost predicate PlainGarbage(garbage: seq<SRow>) {
    forall i | 0 <= i < |garbage| ::
      garbage[i].op == Update && garbage[i].srcType == T && garbage[i].key.Output?
  }

  /** The groups of rows that are flushed. */
  lemma FlushedRows(s: Store, b: MoneyBlock, garbage: seq<SRow>)
    requires forall i | 0 <= i < |garbage| :: garbage[i].op == Update
    ensures Only(Rows(s, b) + garbage, Create) == Only(Rows(s, b), Create)
    ensures Only(Rows(s, b) + garbage, Update) == Consumptions(s, b, garbage)
    ensures Only(OfType(Rows(s, b) + garbage, T), Create) == OfType(Only(Rows(s, b), Create), T)
    ensures Only(OfType(Rows(s, b) + garbage, T), Update) == OfType(Consumptions(s, b, garbage), T)
  {
    var rows := Rows(s, b);
    OnlyUpdates(garbage);
    OnlyOfParts(rows, garbage, Create);
    OnlyOfParts(rows, garbage, Update);
    FiltersCommute(rows + garbage, T, Create);
    FiltersCommute(rows + garbage, T, Update);
  }

  lemma {:induction false} AllOfType(rows: seq<SRow>, t: SrcType)
    requires forall i | 0 <= i < |rows| :: rows[i].srcType == t
    ensures OfType(rows, t) == rows
  {
    if rows != [] {
      AllOfType(rows[..|rows| - 1], t);
      assert rows == rows[..|rows| - 1] + [rows[|rows| - 1]];
    }
  }

  lemma CreationsAreTransactions(s: Store, b: MoneyBlock)
    requires Accepted(s, b)
    ensures OfType(Only(Rows(s, b), Create), T) == Only(Rows(s, b), Create)
  {
    var creates := Only(Rows(s, b), Create);
    forall i | 0 <= i < |creates| ensures creates[i].srcType == T {
      var l := RowShape(s, b, creates[i]);
    }
    AllOfType(creates, T);
  }

  ghost function DividendKeys(keys: set<SourceKey>): set<SourceKey> {
    set k | k in keys && k.Dividend?
  }

  /** Which keys the flushed consumptions have, by type. */
  lemma SpentDividends(s: Store, b: MoneyBlock, garbage: seq<SRow>)
    requires Accepted(s, b) && PlainGarbage(garbage)
    ensures Keys(OfType(Rows(s, b) + garbage, D)) == DividendKeys(Keys(Consumptions(s, b, garbage)))
  {
    var sindex, rows := Rows(s, b) + garbage, Consumptions(s, b, garbage);
    forall k | k in Keys(OfType(sindex, D)) ensures k in DividendKeys(Keys(rows)) {
      var r := MemberOfKey(OfType(sindex, D), k);
      OfTypeMembers(sindex, D, r);
      DividendRowIsConsumption(s, b, garbage, r);
      KeyOfMember(rows, r);
    }
    forall k | k in DividendKeys(Keys(rows)) ensures k in Keys(OfType(sindex, D)) {
      var r := MemberOfKey(rows, k);
      ConsumptionShape(s, b, garbage, r);
      OfTypeMembers(sindex, D, r);
      KeyOfMember(OfType(sindex, D), r);
    }
  }

  lemma SpentOutputs(s: Store, b: MoneyBlock, garbage: seq<SRow>)
    requires Accepted(s, b) && PlainGarbage(garbage)
    ensures var all := Keys(Consumptions(s, b, garbage));
            Keys(OfType(Consumptions(s, b, garbage), T)) == all - DividendKeys(all)
  {
    var rows := Consumptions(s, b, garbage);
    forall k | k in Keys(OfType(rows, T)) ensures k in Keys(rows) && !k.Dividend? {
      var r := MemberOfKey(OfType(rows, T), k);
      OfTypeMembers(rows, T, r);
      ConsumptionShape(s, b, garbage, r);
      KeyOfMember(rows, r);
    }
    forall k | k in Keys(rows) && !k.Dividend? ensures k in Keys(OfType(rows, T)) {
      var r := MemberOfKey(rows, k);
      ConsumptionShape(s, b, garbage, r);
      OfTypeMembers(rows, T, r);
      KeyOfMember(OfType(rows, T), r);
    }
  }

  lemma ConsumptionShape(s: Store, b: MoneyBlock, garbage: seq<SRow>, r: SRow)
    requires Accepted(s, b) && PlainGarbage(garbage) && r in Consumptions(s, b, garbage)
    ensures r in Rows(s, b) + garbage && (r.srcType == D <==> r.key.Dividend?)
  {
    if r in Only(Rows(s, b), Update) {
      var l := RowShape(s, b, r);
    }
  }

  lemma DividendRowIsConsumption(s: Store, b: MoneyBlock, garbage: seq<SRow>, r: SRow)
    requires Accepted(s, b) && PlainGarbage(garbage) && r in Rows(s, b) + garbage && r.srcType == D
    ensures r in Consumptions(s, b, garbage) && r.key.Dividend?
  {
    assert r in Rows(s, b);
    var l := RowShape(s, b, r);
    OnlyMembers(Rows(s, b), Update, r);
  }
}
