/** The money part of `revertBlock`, on the stores themselves. */
module RevertMoney {
  import opened Amounts
  import opened Sources
  import opened Money
  import opened MoneyConservation
  import opened MoneyEffect
  import opened MoneyRevert
  import opened MoneyDal

  ghost predicate Recorded(records: map<SourceKey, SRow>, op: Op) {
    forall k | k in records :: records[k].key == k && records[k].op == op
  }

  /** The records written by a block. */
  method RowsWrittenOn(records: map<SourceKey, SRow>, number: nat, ghost op: Op) returns (rows: seq<SRow>)
    requires Recorded(records, op)
    ensures RecordRows(records, number, rows)
    ensures forall i | 0 <= i < |rows| :: rows[i].op == op
  {
    rows := [];
    var remaining := WrittenOn(records, number);
    while remaining != {}
      invariant remaining <= WrittenOn(records, number)
      invariant DistinctKeys(rows) && Keys(rows) == WrittenOn(records, number) - remaining
      invariant forall i | 0 <= i < |rows| :: Written(records, rows[i]) && rows[i].op == op
    {
      var k :| k in remaining;
      ghost var before := rows;
      rows := rows + [records[k]];
      assert rows[..|before|] == before;
      KeysWithLast(rows);
      DistinctWithLast(rows);
      remaining := remaining - {k};
    }
  }

  /** `getWrittenOnTxs` */
  method GetWrittenOnTxs(dal: Dal, number: nat) returns (moves: seq<SRow>)
    requires Recorded(dal.creates, Create) && Recorded(dal.updates, Update)
    ensures RecordRows(dal.creates, number, Only(moves, Create))
    ensures RecordRows(dal.updates, number, Only(moves, Update))
  {
    var created := RowsWrittenOn(dal.creates, number, Create);
    var updated := RowsWrittenOn(dal.updates, number, Update);
    moves := created + updated;
    OnlyCreates(created);
    OnlyUpdates(updated);
    OnlyOfParts(created, updated, Create);
    OnlyOfParts(created, updated, Update);
    assert created + [] == created && [] + updated == updated;
  }

  method RowsOfUds(keys: set<SourceKey>, amounts: map<SourceKey, BasedAmount>) returns (rows: seq<SRow>)
    requires keys <= amounts.Keys
    ensures UdRows(keys, amounts, rows)
  {
    rows := [];
    var remaining := keys;
    while remaining != {}
      invariant remaining <= keys
      invariant DistinctKeys(rows) && Keys(rows) == keys - remaining
      invariant forall i | 0 <= i < |rows| :: UdRow(amounts, rows[i])
    {
      var k :| k in remaining;
      ghost var before := rows;
      rows := rows + [SRow(Create, D, k, "", amounts[k], Owner(k), 0)];
      assert rows[..|before|] == before;
      KeysWithLast(rows);
      DistinctWithLast(rows);
      remaining := remaining - {k};
    }
  }

  /** `deleteMember`, for each newcomer: the whole dividend entry goes. */
  method DeleteMembers(dal: Dal, newcomers: seq<string>)
    modifies dal`uds, dal`spent
    ensures dal.uds == old(dal.uds) - OfOwners(old(dal.uds).Keys, set p | p in newcomers)
    ensures dal.spent == old(dal.spent) - OfOwners(old(dal.spent).Keys, set p | p in newcomers)
  {
    for i := 0 to |newcomers|
      invariant dal.uds == old(dal.uds) - OfOwners(old(dal.uds).Keys, set p | p in newcomers[..i])
      invariant dal.spent == old(dal.spent) - OfOwners(old(dal.spent).Keys, set p | p in newcomers[..i])
    {
      assert newcomers[..i + 1] == newcomers[..i] + [newcomers[i]];
      var gone := {newcomers[i]};
      dal.uds := dal.uds - OfOwners(dal.uds.Keys, gone);
      dal.spent := dal.spent - OfOwners(dal.spent.Keys, gone);
    }
    assert newcomers[..|newcomers|] == newcomers;
  }

  /** `revertUDs`: destroys the dividends produced by the block, recovers those it spent. */
  method RevertUds(dal: Dal, number: nat) returns (destroyed: seq<SRow>, recovered: seq<SRow>)
    modifies dal`uds, dal`spent
    ensures UdRows(ProducedOn(old(dal.uds), number), old(dal.uds), destroyed)
    ensures UdRows(SpentOn(old(dal.spent), number), SpentAmounts(old(dal.spent)), recovered)
    ensures dal.uds == WithUds(old(dal.uds) - ProducedOn(old(dal.uds), number), recovered)
    ensures dal.spent == old(dal.spent) - SpentOn(old(dal.spent), number)
  {
    destroyed := RowsOfUds(ProducedOn(dal.uds, number), dal.uds);
    dal.uds := dal.uds - ProducedOn(dal.uds, number);
    recovered := RowsOfUds(SpentOn(dal.spent, number), SpentAmounts(dal.spent));
    for i := 0 to |recovered|
      invariant dal.uds == WithUds(old(dal.uds) - ProducedOn(old(dal.uds), number), recovered[..i])
      invariant dal.spent == old(dal.spent)
    {
      assert recovered[..i + 1][..i] == recovered[..i];
      dal.uds := dal.uds[recovered[i].key := recovered[i].amount];
    }
    assert recovered[..|recovered|] == recovered;
    dal.spent := dal.spent - SpentOn(dal.spent, number);
  }

  lemma UdRowsAreCreations(keys: set<SourceKey>, amounts: map<SourceKey, BasedAmount>, rows: seq<SRow>)
    requires UdRows(keys, amounts, rows)
    ensures forall i | 0 <= i < |rows| :: rows[i].op == Create
  {
    forall i | 0 <= i < |rows| ensures rows[i].op == Create {
      assert UdRow(amounts, rows[i]);
    }
  }

  /** The money part of `revertBlock`, in its order: newcomers' entries first. */
  method RevertMoney(dal: Dal, number: nat, newcomers: seq<string>) returns (ghost u: Undo)
    requires Recorded(dal.creates, Create) && Recorded(dal.updates, Update)
    modifies dal
    ensures MoneyReverted(old(dal.State()), number, (set p | p in newcomers), u, dal.State())
  {
    DeleteMembers(dal, newcomers);
    var moves := GetWrittenOnTxs(dal, number);
    dal.creates := dal.creates - WrittenOn(dal.creates, number);
    dal.updates := dal.updates - WrittenOn(dal.updates, number);
    ghost var uds, spent := dal.uds, dal.spent;
    var destroyed, recovered := RevertUds(dal, number);
    UdRowsAreCreations(ProducedOn(uds, number), uds, destroyed);
    UdRowsAreCreations(SpentOn(spent, number), SpentAmounts(spent), recovered);
    dal.UpdateWallets([], destroyed, true);
    ghost var wallets1 := dal.wallets;
    dal.UpdateWallets([], recovered, false);
    ghost var wallets2 := dal.wallets;
    dal.UpdateWallets(moves, [], true);
    u := Undo(destroyed, recovered, moves, wallets1, wallets2);
  }
}
