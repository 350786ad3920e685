/** The stores of the money side as the DAOs update them in place. */
module MoneyDal {
  import opened Amounts
  import opened Outcomes
  import opened Sources
  import opened SourceSums
  import opened Money

  /** The distinct conditions of the rows, in order of appearance. */
  function Accounts(rows: seq<SRow>): seq<string> {
    if rows == [] then []
    else
      var front, c := Accounts(rows[..|rows| - 1]), rows[|rows| - 1].conditions;
      if c in front then front else front + [c]
  }

  function ForAccount(rows: seq<SRow>, account: string): seq<SRow> {
    if rows == [] then []
    else
      var front, r := ForAccount(rows[..|rows| - 1], account), rows[|rows| - 1];
      if r.conditions == account then front + [r] else front
  }

  lemma {:induction false} AccountsAreDistinct(rows: seq<SRow>)
    ensures forall i, j | 0 <= i < j < |Accounts(rows)| :: Accounts(rows)[i] != Accounts(rows)[j]
  {
    if rows != [] {
      AccountsAreDistinct(rows[..|rows| - 1]);
    }
  }

  lemma {:induction false} AllAreMentioned(rows: seq<SRow>)
    ensures forall r | r in rows :: r.conditions in Accounts(rows)
  {
    if rows != [] {
      AllAreMentioned(rows[..|rows| - 1]);
      assert rows == rows[..|rows| - 1] + [rows[|rows| - 1]];
    }
  }

  lemma {:induction false} AccountsAreMentioned(rows: seq<SRow>, c: string)
    requires c in Accounts(rows)
    ensures exists r | r in rows :: r.conditions == c
  {
    var n := |rows| - 1;
    if c in Accounts(rows[..n]) {
      AccountsAreMentioned(rows[..n], c);
      var r :| r in rows[..n] && r.conditions == c;
      assert r in rows;
    } else {
      assert rows[n] in rows;
    }
  }

  lemma {:induction false} NoRowsNoSum(rows: seq<SRow>, account: string)
    requires forall i | 0 <= i < |rows| :: rows[i].conditions != account
    ensures RowSum(rows, Some(account)) == 0
  {
    if rows != [] {
      NoRowsNoSum(rows[..|rows| - 1], account);
    }
  }

  lemma UnmentionedIsUnmoved(rows: seq<SRow>, account: string)
    requires forall r | r in rows :: r.conditions != account
    ensures Variation(rows, account) == 0
  {
    NoRowsNoSum(Only(rows, Create), account);
    NoRowsNoSum(Only(rows, Update), account);
  }

  /** `reduce` over the rows of an account: creations count up, consumptions count down. */
  method VariationOf(rows: seq<SRow>, account: string) returns (variation: int)
    ensures variation == Variation(rows, account)
  {
    variation := 0;
    for i := 0 to |rows|
      invariant variation == Variation(rows[..i], account)
    {
      assert rows[..i + 1][..i] == rows[..i];
      var front, r := rows[..i], rows[i];
      LastCounts(rows[..i + 1], account);
      if r.conditions == account {
        if r.op == Create {
          variation := variation + r.amount.amount * Pow10(r.amount.base);
        } else {
          variation := variation - r.amount.amount * Pow10(r.amount.base);
        }
      }
    }
    assert rows[..|rows|] == rows;
  }

  lemma LastCounts(rows: seq<SRow>, account: string)
    requires rows != []
    ensures var front, r := rows[..|rows| - 1], rows[|rows| - 1];
            Variation(rows, account) == Variation(front, account) +
            (if r.conditions != account then 0
             else if r.op == Create then Value(r.amount)
             else -(Value(r.amount) as int))
  {
    var front, r := rows[..|rows| - 1], rows[|rows| - 1];
    assert (Only(front, r.op) + [r])[..|Only(front, r.op)|] == Only(front, r.op);
  }

  /** What an account gains by some rows: the worth of what they create for it, less the worth of what
      they consume of it. */
  lemma VariationCounts(rows: seq<SRow>, r: SRow, account: string)
    ensures Variation([], account) == 0
    ensures var worth: int := r.amount.amount * Pow10(r.amount.base);
            Variation(rows + [r], account) == Variation(rows, account) +
            (if r.conditions != account then 0 else if r.op == Create then worth else -worth)
  {
    assert (rows + [r])[..|rows|] == rows;
    LastCounts(rows + [r], account);
  }

  /** By how much an account moves. */
  function Movement(sindex: seq<SRow>, dividends: seq<SRow>, reverse: bool, c: string): int {
    Signed(reverse, Variation(sindex, c) + RowSum(dividends, Some(c)))
  }

  ghost predicate AccountMoved(
      before: map<string, int>, moved: bool, sindex: seq<SRow>, dividends: seq<SRow>, reverse: bool,
      after: map<string, int>, c: string)
  {
    Balance(after, c) == Balance(before, c) + if moved then Movement(sindex, dividends, reverse, c) else 0
  }

  ghost predicate MovedUpTo(
      before: map<string, int>, accounts: seq<string>, sindex: seq<SRow>, dividends: seq<SRow>, reverse: bool,
      after: map<string, int>)
  {
    forall c {:trigger AccountMoved(before, c in accounts, sindex, dividends, reverse, after, c)} ::
      AccountMoved(before, c in accounts, sindex, dividends, reverse, after, c)
  }

  lemma OneMoreMoved(
      before: map<string, int>, accounts: seq<string>, account: string,
      sindex: seq<SRow>, dividends: seq<SRow>, reverse: bool, wallets: map<string, int>)
    requires MovedUpTo(before, accounts, sindex, dividends, reverse, wallets) && account !in accounts
    ensures var moved := Balance(wallets, account) + Movement(sindex, dividends, reverse, account);
            MovedUpTo(before, accounts + [account], sindex, dividends, reverse, wallets[account := moved])
  {
    var moved := Movement(sindex, dividends, reverse, account);
    var after := wallets[account := Balance(wallets, account) + moved];
    forall c ensures AccountMoved(before, c in accounts + [account], sindex, dividends, reverse, after, c) {
      assert AccountMoved(before, c in accounts, sindex, dividends, reverse, wallets, c);
      MovesOne(wallets, account, moved, c);
    }
  }

  lemma MovesOne(wallets: map<string, int>, account: string, moved: int, c: string)
    ensures Balance(wallets[account := Balance(wallets, account) + moved], c) ==
            Balance(wallets, c) + if c == account then moved else 0
  {}

  method MovementOf(sindex: seq<SRow>, dividends: seq<SRow>, conditions: string, reverse: bool) returns (variation: int)
    requires forall i | 0 <= i < |dividends| :: dividends[i].op == Create
    ensures variation == Movement(sindex, dividends, reverse, conditions)
  {
    variation := VariationOf(sindex, conditions);
    var uds := VariationOf(dividends, conditions);
    CreationsOnly(dividends, conditions);
    variation := variation + uds;
    if reverse {
      variation := variation * -1;
    }
  }

  /** The dividends of some of the producers. */
  ghost predicate PaidTo(b: MoneyBlock, paid: set<string>, dividends: seq<SRow>) {
    && b.dividend.Some? && DistinctKeys(dividends)
    && Keys(dividends) == (set p | p in paid :: Dividend(p, b.number))
    && forall i | 0 <= i < |dividends| :: IsDividendRow(b, dividends[i])
  }

  lemma PayOneMore(b: MoneyBlock, paid: set<string>, dividends: seq<SRow>, p: string)
    requires PaidTo(b, paid, dividends) && p !in paid
    ensures PaidTo(b, paid + {p}, dividends + [DividendRow(p, b.dividend.value, b.number)])
  {
    var all := dividends + [DividendRow(p, b.dividend.value, b.number)];
    assert all[..|dividends|] == dividends;
    KeysWithLast(all);
    DistinctWithLast(all);
    assert (set q | q in paid + {p} :: Dividend(q, b.number)) ==
           (set q | q in paid :: Dividend(q, b.number)) + {Dividend(p, b.number)};
  }

  lemma PutNext(m: map<SourceKey, SRow>, rows: seq<SRow>, i: nat, op: Op)
    requires i < |rows|
    ensures PutRows(m, Only(rows[..i + 1], op)) ==
            if rows[i].op == op then PutRows(m, Only(rows[..i], op))[rows[i].key := rows[i]]
            else PutRows(m, Only(rows[..i], op))
  {
    var before := Only(rows[..i], op);
    assert rows[..i + 1][..i] == rows[..i];
    assert (before + [rows[i]])[..|before|] == before;
  }

  ghost function SpentToo(
      uds: map<SourceKey, BasedAmount>, spent: map<SourceKey, SpentUd>, keys: set<SourceKey>, number: nat)
    : map<SourceKey, SpentUd>
  {
    spent + map k | k in keys && k in uds :: SpentUd(uds[k], number)
  }

  lemma OneMoreSpent(
      uds: map<SourceKey, BasedAmount>, spent: map<SourceKey, SpentUd>, keys: set<SourceKey>, k: SourceKey, number: nat)
    requires k in uds
    ensures SpentToo(uds, spent, keys + {k}, number) == SpentToo(uds, spent, keys, number)[k := SpentUd(uds[k], number)]
  {}

  lemma NextConsumed(rows: seq<SRow>, i: nat)
    requires DistinctKeys(rows) && i < |rows|
    ensures Keys(rows[..i + 1]) == Keys(rows[..i]) + {rows[i].key}
    ensures rows[i].key in Keys(rows) && rows[i].key !in Keys(rows[..i])
  {
    KeysWithLast(rows[..i + 1]);
    assert rows[..i + 1][..i] == rows[..i];
  }

  ghost predicate Overdrawn(s: Store, entries: seq<SRow>, account: string) {
    Balance(s.wallets, account) + Variation(entries, account) < 0
  }

  /** Some account that the rows mention would end below zero. */
  lemma OverdrawnMeans(s: Store, entries: seq<SRow>)
    ensures (exists c | c in Accounts(entries) :: Overdrawn(s, entries, c)) <==>
            exists e | e in entries ::
              (if e.conditions in s.wallets then s.wallets[e.conditions] else 0) + Variation(entries, e.conditions) < 0
  {
    AllAreMentioned(entries);
    if c :| c in Accounts(entries) && Overdrawn(s, entries, c) {
      AccountsAreMentioned(entries, c);
    }
  }

  /** The reverse call of `updateWallets` undoes the forward call, on every wallet. */
  lemma ReverseUndoesForward(
      before: map<string, int>, sindex: seq<SRow>, dividends: seq<SRow>, moved: map<string, int>,
      after: map<string, int>)
    requires WalletsMoved(before, sindex, dividends, false, moved)
    requires WalletsMoved(moved, sindex, dividends, true, after)
    ensures forall c {:trigger Balance(after, c)} :: Balance(after, c) == Balance(before, c)
  {
    forall c ensures Balance(after, c) == Balance(before, c) {
      assert Balance(moved, c) == Balance(before, c) + Signed(false, Variation(sindex, c) + RowSum(dividends, Some(c)));
    }
  }

  /** The garbage rows of the accounts treated so far. */
  ghost predicate Collected(s: Store, entries: seq<SRow>, b: MoneyBlock, accounts: seq<string>, garbage: seq<SRow>) {
    && DistinctKeys(garbage)
    && (forall i | 0 <= i < |garbage| :: IsGarbageRow(s, entries, b, garbage[i]) && garbage[i].conditions in accounts)
    && (forall r | Garbaged(s, entries, b.unitBase, r) && r.conditions in accounts :: r.key in Keys(garbage))
  }

  lemma NothingToCollect(
      s: Store, entries: seq<SRow>, b: MoneyBlock, accounts: seq<string>, account: string, garbage: seq<SRow>)
    requires Collected(s, entries, b, accounts, garbage) && !Poor(s, entries, b.unitBase, account)
    ensures Collected(s, entries, b, accounts + [account], garbage)
  {}

  lemma AllCollected(s: Store, entries: seq<SRow>, b: MoneyBlock, accounts: seq<string>, garbage: seq<SRow>)
    requires Collected(s, entries, b, accounts, garbage)
    requires forall r | r in entries :: r.conditions in accounts
    ensures IsGarbage(s, entries, b, garbage)
  {}

  /** A source has one row only: rows with the same name are the same candidate. */
  lemma OneCandidate(s: Store, entries: seq<SRow>, x: SRow, y: SRow)
    requires DistinctKeys(Only(entries, Create)) && Keys(Only(entries, Create)) !! s.creates.Keys
    requires Candidate(s, entries, x) && Candidate(s, entries, y) && x.key == y.key
    ensures x == y
  {
    var cs := Only(entries, Create);
    OnlyMembers(entries, Create, x);
    OnlyMembers(entries, Create, y);
    if x in cs { KeyOfMember(cs, x); }
    if y in cs { KeyOfMember(cs, y); }
    if x in cs && y in cs {
      var i :| 0 <= i < |cs| && cs[i] == x;
      var j :| 0 <= j < |cs| && cs[j] == y;
    }
  }

  /** Garbages the entries and the available sources of one poor account. */
  method CollectAccount(
      ghost s: Store, entries: seq<SRow>, b: MoneyBlock, ghost accounts: seq<string>, account: string,
      globals: seq<SRow>, before: seq<SRow>) returns (garbages: seq<SRow>)
    requires DistinctKeys(Only(entries, Create)) && Keys(Only(entries, Create)) !! s.creates.Keys
    requires Collected(s, entries, b, accounts, before) && account !in accounts
    requires Poor(s, entries, b.unitBase, account) && exists e | e in entries :: e.conditions == account
    requires DistinctKeys(globals)
    requires forall r :: r in globals <==>
               r.key in s.creates && r.key !in s.updates && r == s.creates[r.key] && r.conditions == account
    ensures Collected(s, entries, b, accounts + [account], garbages)
  {
    garbages := before;
    var sources := ForAccount(entries, account) + globals;
    ghost var consumed := Keys(Only(entries, Update));
    SourcesAreDistinct(s, entries, account, globals);
    for i := 0 to |sources|
      invariant Partly(s, entries, b, account, before, Keys(sources[..i]) - consumed, garbages)
    {
      var src := sources[i];
      var sourceBeingConsumed := src.key in Keys(Only(entries, Update));
      if !sourceBeingConsumed {
        SourceIsGarbaged(s, entries, b, account, globals, i);
        GarbagedIsNew(s, entries, b, accounts, account, before, src);
      }
      CollectNext(s, entries, b, account, before, sources, consumed, i, garbages);
      if !sourceBeingConsumed {
        garbages := garbages + [GarbageRow(src, b.number)];
      }
    }
    assert sources[..|sources|] == sources;
    AccountCollected(s, entries, b, accounts, account, globals, before, garbages);
  }

  ghost predicate Partly(
      s: Store, entries: seq<SRow>, b: MoneyBlock, account: string,
      before: seq<SRow>, taken: set<SourceKey>, garbage: seq<SRow>)
  {
    && DistinctKeys(garbage) && before <= garbage
    && (forall m | |before| <= m < |garbage| ::
          IsGarbageRow(s, entries, b, garbage[m]) && garbage[m].conditions == account)
    && Keys(garbage) == Keys(before) + taken
  }

  lemma TakeOne(
      s: Store, entries: seq<SRow>, b: MoneyBlock, account: string,
      before: seq<SRow>, taken: set<SourceKey>, garbage: seq<SRow>, src: SRow)
    requires Partly(s, entries, b, account, before, taken, garbage)
    requires Garbaged(s, entries, b.unitBase, src) && src.conditions == account
    requires src.key !in Keys(before) && src.key !in taken
    ensures Partly(s, entries, b, account, before, taken + {src.key}, garbage + [GarbageRow(src, b.number)])
  {
    var g := GarbageRow(src, b.number);
    assert (garbage + [g])[..|garbage|] == garbage;
    KeysWithLast(garbage + [g]);
    DistinctWithLast(garbage + [g]);
    assert IsGarbageRow(s, entries, b, g);
  }

  lemma CollectNext(
      s: Store, entries: seq<SRow>, b: MoneyBlock, account: string,
      before: seq<SRow>, sources: seq<SRow>, consumed: set<SourceKey>, i: nat, garbage: seq<SRow>)
    requires i < |sources| && DistinctSources(sources, consumed)
    requires Partly(s, entries, b, account, before, Keys(sources[..i]) - consumed, garbage)
    requires sources[i].key !in consumed ==>
               && Garbaged(s, entries, b.unitBase, sources[i]) && sources[i].conditions == account
               && sources[i].key !in Keys(before)
    ensures Partly(s, entries, b, account, before, Keys(sources[..i + 1]) - consumed,
                   if sources[i].key in consumed then garbage else garbage + [GarbageRow(sources[i], b.number)])
  {
    KeysWithLast(sources[..i + 1]);
    assert sources[..i + 1][..i] == sources[..i];
    if sources[i].key in consumed {
      assert Keys(sources[..i + 1]) - consumed == Keys(sources[..i]) - consumed;
    } else {
      NotYetSeen(sources, i, consumed);
      TakeOne(s, entries, b, account, before, Keys(sources[..i]) - consumed, garbage, sources[i]);
      assert Keys(sources[..i + 1]) - consumed == (Keys(sources[..i]) - consumed) + {sources[i].key};
    }
  }

  ghost predicate DistinctSources(sources: seq<SRow>, consumed: set<SourceKey>) {
    forall i, j | 0 <= i < j < |sources| && sources[j].key !in consumed :: sources[i].key != sources[j].key
  }

  lemma {:induction false} ForAccountMembers(rows: seq<SRow>, account: string, r: SRow)
    ensures r in ForAccount(rows, account) <==> r in rows && r.conditions == account
  {
    if rows != [] {
      ForAccountMembers(rows[..|rows| - 1], account, r);
      assert rows == rows[..|rows| - 1] + [rows[|rows| - 1]];
    }
  }

  lemma {:induction false} ForAccountIsDistinct(rows: seq<SRow>, account: string, consumed: set<SourceKey>)
    requires DistinctKeys(Only(rows, Create)) && Keys(Only(rows, Update)) <= consumed
    ensures DistinctSources(ForAccount(rows, account), consumed)
  {
    if rows != [] {
      var n := |rows| - 1;
      var front, last := rows[..n], rows[n];
      if last.op == Create {
        KeysWithLast(Only(rows, Create));
        assert Only(rows, Create)[..|Only(rows, Create)| - 1] == Only(front, Create);
      } else {
        KeysWithLast(Only(rows, Update));
        assert Only(rows, Update)[..|Only(rows, Update)| - 1] == Only(front, Update);
      }
      ForAccountIsDistinct(front, account, consumed);
      var kept := ForAccount(front, account);
      forall i | 0 <= i < |kept| && last.key !in consumed ensures kept[i].key != last.key {
        ForAccountMembers(front, account, kept[i]);
        EitherKind(front, kept[i]);
      }
    }
  }

  lemma EitherKind(rows: seq<SRow>, r: SRow)
    requires r in rows
    ensures r.key in Keys(Only(rows, r.op))
  {
    OnlyMembers(rows, r.op, r);
    KeyOfMember(Only(rows, r.op), r);
  }

  lemma SourcesAreDistinct(s: Store, entries: seq<SRow>, account: string, globals: seq<SRow>)
    requires DistinctKeys(Only(entries, Create)) && Keys(Only(entries, Create)) !! s.creates.Keys
    requires DistinctKeys(globals) && forall r | r in globals :: r.key in s.creates
    ensures DistinctSources(ForAccount(entries, account) + globals, Keys(Only(entries, Update)))
  {
    var consumed := Keys(Only(entries, Update));
    var local := ForAccount(entries, account);
    ForAccountIsDistinct(entries, account, consumed);
    forall i, j | 0 <= i < |local| && 0 <= j < |globals| && globals[j].key !in consumed
      ensures local[i].key != globals[j].key
    {
      ForAccountMembers(entries, account, local[i]);
      EitherKind(entries, local[i]);
    }
  }

  lemma NotYetSeen(sources: seq<SRow>, i: nat, consumed: set<SourceKey>)
    requires i < |sources| && DistinctSources(sources, consumed) && sources[i].key !in consumed
    ensures sources[i].key !in Keys(sources[..i])
  {}

  lemma SourceIsGarbaged(s: Store, entries: seq<SRow>, b: MoneyBlock, account: string, globals: seq<SRow>, i: nat)
    requires Poor(s, entries, b.unitBase, account) && exists e | e in entries :: e.conditions == account
    requires forall r :: r in globals <==>
               r.key in s.creates && r.key !in s.updates && r == s.creates[r.key] && r.conditions == account
    requires i < |ForAccount(entries, account) + globals|
    requires (ForAccount(entries, account) + globals)[i].key !in Keys(Only(entries, Update))
    ensures Garbaged(s, entries, b.unitBase, (ForAccount(entries, account) + globals)[i])
    ensures (ForAccount(entries, account) + globals)[i].conditions == account
  {
    var local := ForAccount(entries, account);
    var r := (local + globals)[i];
    if i < |local| {
      ForAccountMembers(entries, account, r);
      EitherKind(entries, r);
    } else {
      assert r in globals;
    }
  }

  /** A source of another account cannot have been garbaged before. */
  lemma GarbagedIsNew(
      s: Store, entries: seq<SRow>, b: MoneyBlock, accounts: seq<string>, account: string, before: seq<SRow>, r: SRow)
    requires DistinctKeys(Only(entries, Create)) && Keys(Only(entries, Create)) !! s.creates.Keys
    requires Collected(s, entries, b, accounts, before) && account !in accounts
    requires Garbaged(s, entries, b.unitBase, r) && r.conditions == account
    ensures r.key !in Keys(before)
  {
    if i :| 0 <= i < |before| && before[i].key == r.key {
      assert IsGarbageRow(s, entries, b, before[i]);
      var x :| Garbaged(s, entries, b.unitBase, x) && before[i] == GarbageRow(x, b.number);
      OneCandidate(s, entries, x, r);
      assert false;
    }
  }

  lemma AccountCollected(
      s: Store, entries: seq<SRow>, b: MoneyBlock, accounts: seq<string>, account: string,
      globals: seq<SRow>, before: seq<SRow>, garbage: seq<SRow>)
    requires Collected(s, entries, b, accounts, before)
    requires forall r :: r in globals <==>
               r.key in s.creates && r.key !in s.updates && r == s.creates[r.key] && r.conditions == account
    requires Partly(s, entries, b, account, before,
                    Keys(ForAccount(entries, account) + globals) - Keys(Only(entries, Update)), garbage)
    ensures Collected(s, entries, b, accounts + [account], garbage)
  {
    forall i | 0 <= i < |garbage|
      ensures IsGarbageRow(s, entries, b, garbage[i]) && garbage[i].conditions in accounts + [account]
    {
      if i < |before| { assert before[i] == garbage[i]; }
    }
    forall r | Garbaged(s, entries, b.unitBase, r) && r.conditions in accounts + [account]
      ensures r.key in Keys(garbage)
    {
      if r.conditions == account {
        ForAccountMembers(entries, account, r);
        assert r in ForAccount(entries, account) + globals;
        KeyOfMember(ForAccount(entries, account) + globals, r);
      }
    }
  }

  ghost predicate Unmoved(sindex: seq<SRow>, dividends: seq<SRow>, c: string) {
    Variation(sindex, c) == 0 && RowSum(dividends, Some(c)) == 0
  }

  lemma AllMoved(
      before: map<string, int>, accounts: seq<string>, sindex: seq<SRow>, dividends: seq<SRow>, reverse: bool,
      after: map<string, int>)
    requires MovedUpTo(before, accounts, sindex, dividends, reverse, after)
    requires forall c | c !in accounts :: Unmoved(sindex, dividends, c)
    ensures WalletsMoved(before, sindex, dividends, reverse, after)
  {
    forall c
      ensures Balance(after, c) ==
              Balance(before, c) + Signed(reverse, Variation(sindex, c) + RowSum(dividends, Some(c)))
    {
      assert AccountMoved(before, c in accounts, sindex, dividends, reverse, after, c);
      assert c in accounts || Unmoved(sindex, dividends, c);
    }
  }

  lemma UnmentionedIsZero(sindex: seq<SRow>, dividends: seq<SRow>, c: string)
    requires c !in Accounts(sindex + dividends)
    ensures Unmoved(sindex, dividends, c)
  {
    AllAreMentioned(sindex + dividends);
    forall r | r in sindex ensures r.conditions != c {
      assert r in sindex + dividends;
    }
    forall r | r in dividends ensures r.conditions != c {
      assert r in sindex + dividends;
    }
    UnmentionedIsUnmoved(sindex, c);
    NoRowsNoSum(dividends, c);
  }

  lemma {:induction false} CreationsOnly(rows: seq<SRow>, account: string)
    requires forall i | 0 <= i < |rows| :: rows[i].op == Create
    ensures Variation(rows, account) == RowSum(rows, Some(account))
  {
    if rows != [] {
      LastCounts(rows, account);
      CreationsOnly(rows[..|rows| - 1], account);
    }
  }

  class Dal {
    var creates: map<SourceKey, SRow>
    var updates: map<SourceKey, SRow>
    var uds: map<SourceKey, BasedAmount>
    var spent: map<SourceKey, SpentUd>
    var wallets: map<string, int>

    ghost function State(): Store
      reads this
    {
      Store(creates, updates, uds, spent, wallets)
    }

    constructor ()
      ensures State() == Store(map[], map[], map[], map[], map[])
    {
      creates, updates, uds, spent, wallets := map[], map[], map[], map[], map[];
    }

    /** BR_G46 to BR_G48, BR_G87 and BR_G88: the conditions of each input, and whether all are usable. */
    method ResolveInputs(local: seq<SRow>) returns (rows: seq<SRow>, ok: bool)
      ensures rows == Resolved(State(), local, |local|)
      ensures |rows| == |local|
      ensures forall i | 0 <= i < |local| ::
                && rows[i] == local[i].(conditions := rows[i].conditions)
                && (local[i].op == Create ==> rows[i] == local[i])
                && (local[i].op == Update ==> rows[i].conditions == ConditionsOf(State(), local, local[i]))
      ensures ok <==> forall i | 0 <= i < |local| && local[i].op == Update :: Usable(State(), local, local[i])
    {
      rows, ok := [], true;
      var s := Store(creates, updates, uds, spent, wallets);
      for i := 0 to |local|
        invariant rows == Resolved(s, local, i) && |rows| == i
        invariant forall j | 0 <= j < i :: rows[j] == ResolvedRow(s, local, local[j])
        invariant ok <==> forall j | 0 <= j < i && local[j].op == Update :: Usable(s, local, local[j])
      {
        rows := rows + [ResolvedRow(s, local, local[i])];
        if local[i].op == Update && !Usable(s, local, local[i]) {
          ok := false;
        }
      }
    }

    /** `updateWallets`, forward or in reverse. */
    method UpdateWallets(sindex: seq<SRow>, dividends: seq<SRow>, reverse: bool)
      requires forall i | 0 <= i < |dividends| :: dividends[i].op == Create
      modifies this`wallets
      ensures WalletsMoved(old(wallets), sindex, dividends, reverse, wallets)
    {
      var differentConditions := Accounts(sindex + dividends);
      ghost var before := wallets;
      AccountsAreDistinct(sindex + dividends);
      MoveAccounts(differentConditions, sindex, dividends, reverse);
      forall c | c !in differentConditions ensures Unmoved(sindex, dividends, c) {
        UnmentionedIsZero(sindex, dividends, c);
      }
      AllMoved(before, differentConditions, sindex, dividends, reverse, wallets);
    }

    /** The loop of `updateWallets`. */
    method MoveAccounts(accounts: seq<string>, sindex: seq<SRow>, dividends: seq<SRow>, reverse: bool)
      requires forall i, j | 0 <= i < j < |accounts| :: accounts[i] != accounts[j]
      requires forall i | 0 <= i < |dividends| :: dividends[i].op == Create
      modifies this`wallets
      ensures MovedUpTo(old(wallets), accounts, sindex, dividends, reverse, wallets)
    {
      for a := 0 to |accounts|
        invariant MovedUpTo(old(wallets), accounts[..a], sindex, dividends, reverse, wallets)
      {
        var conditions := accounts[a];
        var variation := MovementOf(sindex, dividends, conditions, reverse);
        assert accounts[..a + 1] == accounts[..a] + [conditions];
        assert conditions !in accounts[..a];
        OneMoreMoved(old(wallets), accounts[..a], conditions, sindex, dividends, reverse, wallets);
        wallets := wallets[conditions := Balance(wallets, conditions) + variation];
      }
      assert accounts[..|accounts|] == accounts;
    }

    /** `produceDividend`: one dividend for each flagged member. */
    method ProduceDividend(b: MoneyBlock) returns (dividends: seq<SRow>)
      modifies this`uds
      ensures IsDividend(b, dividends) && uds == WithUds(old(uds), dividends)
    {
      dividends := [];
      if b.dividend.None? {
        return;
      }
      var remaining := b.producers;
      while remaining != {}
        invariant remaining <= b.producers
        invariant PaidTo(b, b.producers - remaining, dividends)
        invariant uds == WithUds(old(uds), dividends)
      {
        var p :| p in remaining;
        var row := DividendRow(p, b.dividend.value, b.number);
        PayOneMore(b, b.producers - remaining, dividends, p);
        assert (dividends + [row])[..|dividends|] == dividends;
        dividends := dividends + [row];
        uds := uds[row.key := row.amount];
        assert b.producers - (remaining - {p}) == (b.producers - remaining) + {p};
        remaining := remaining - {p};
      }
      assert b.producers - remaining == b.producers;
    }

    /** `getAvailableForConditions`: the unspent transaction sources of an account, in any order. */
    method GetAvailableForConditions(account: string) returns (rows: seq<SRow>)
      requires forall k | k in creates :: creates[k].key == k
      ensures DistinctKeys(rows)
      ensures forall r :: r in rows <==>
                r.key in creates && r.key !in updates && r == creates[r.key] && r.conditions == account
    {
      rows := [];
      var remaining := creates.Keys;
      while remaining != {}
        invariant remaining <= creates.Keys
        invariant DistinctKeys(rows)
        invariant forall r :: r in rows <==>
                    && r.key in creates && r.key !in remaining
                    && r.key !in updates && r == creates[r.key] && r.conditions == account
      {
        var k :| k in remaining;
        if k !in updates && creates[k].conditions == account {
          rows := rows + [creates[k]];
        }
        remaining := remaining - {k};
      }
    }

    /** BR_G106: the sources of the accounts that fall below the minimum are consumed. */
    method GarbageSmallAccounts(ghost s: Store, entries: seq<SRow>, b: MoneyBlock)
      returns (result: Result<seq<SRow>, string>)
      requires s.creates == creates && s.updates == updates && s.wallets == wallets
      requires forall k | k in creates :: creates[k].key == k
      requires DistinctKeys(Only(entries, Create)) && Keys(Only(entries, Create)) !! creates.Keys
      ensures result.Failure? <==>
              exists e | e in entries ::
                (if e.conditions in wallets then wallets[e.conditions] else 0) + Variation(entries, e.conditions) < 0
      ensures result.Success? ==> IsGarbage(s, entries, b, result.value)
    {
      OverdrawnMeans(s, entries);
      var accounts := Accounts(entries);
      AccountsAreDistinct(entries);
      var garbages: seq<SRow> := [];
      for a := 0 to |accounts|
        invariant Collected(s, entries, b, accounts[..a], garbages)
        invariant forall c | c in accounts[..a] :: !Overdrawn(s, entries, c)
      {
        assert accounts[..a + 1] == accounts[..a] + [accounts[a]];
        AccountsAreMentioned(entries, accounts[a]);
        var more := GarbageAccount(s, entries, b, accounts[..a], accounts[a], garbages);
        if more.Failure? {
          return more;
        }
        garbages := more.value;
      }
      assert accounts[..|accounts|] == accounts;
      AllAreMentioned(entries);
      AllCollected(s, entries, b, accounts, garbages);
      result := Success(garbages);
    }

    /** The body of the loop over the accounts. */
    method GarbageAccount(
        ghost s: Store, entries: seq<SRow>, b: MoneyBlock, ghost accounts: seq<string>, account: string,
        garbages: seq<SRow>) returns (result: Result<seq<SRow>, string>)
      requires s.creates == creates && s.updates == updates && s.wallets == wallets
      requires forall k | k in creates :: creates[k].key == k
      requires DistinctKeys(Only(entries, Create)) && Keys(Only(entries, Create)) !! creates.Keys
      requires Collected(s, entries, b, accounts, garbages) && account !in accounts
      requires exists e | e in entries :: e.conditions == account
      ensures result.Failure? <==> Overdrawn(s, entries, account)
      ensures result.Success? ==> Collected(s, entries, b, accounts + [account], result.value)
    {
      var variations := VariationOf(entries, account);
      var total := Balance(wallets, account) + variations;
      if total < 0 {
        return Failure("NEGATIVE_BALANCE");
      }
      if total < ACCOUNT_MINIMUM * Pow10(b.unitBase) {
        var globals := GetAvailableForConditions(account);
        var collected := CollectAccount(s, entries, b, accounts, account, globals, garbages);
        result := Success(collected);
      } else {
        NothingToCollect(s, entries, b, accounts, account, garbages);
        result := Success(garbages);
      }
    }

    /** `flushIndexes`, for the sources: transaction rows are stored by name and operation, dividend
        rows move a dividend from the available to the spent ones. */
    method FlushSources(sindex: seq<SRow>, number: nat)
      requires DistinctKeys(OfType(sindex, D)) && Keys(OfType(sindex, D)) <= uds.Keys
      modifies this`creates, this`updates, this`uds, this`spent
      ensures creates == PutRows(old(creates), Only(OfType(sindex, T), Create))
      ensures updates == PutRows(old(updates), Only(OfType(sindex, T), Update))
      ensures uds == FlushedUds(old(uds), sindex)
      ensures spent == FlushedSpent(old(uds), old(spent), sindex, number)
    {
      InsertBatch(OfType(sindex, T));
      Consume(OfType(sindex, D), number);
    }

    method InsertBatch(rows: seq<SRow>)
      modifies this`creates, this`updates
      ensures creates == PutRows(old(creates), Only(rows, Create))
      ensures updates == PutRows(old(updates), Only(rows, Update))
    {
      for i := 0 to |rows|
        invariant creates == PutRows(old(creates), Only(rows[..i], Create))
        invariant updates == PutRows(old(updates), Only(rows[..i], Update))
      {
        var r := rows[i];
        PutNext(old(creates), rows, i, Create);
        PutNext(old(updates), rows, i, Update);
        if r.op == Create {
          creates := creates[r.key := r];
        } else {
          updates := updates[r.key := r];
        }
      }
      assert rows[..|rows|] == rows;
    }

    method Consume(rows: seq<SRow>, number: nat)
      requires DistinctKeys(rows) && Keys(rows) <= uds.Keys
      modifies this`uds, this`spent
      ensures uds == old(uds) - Keys(rows)
      ensures spent == SpentToo(old(uds), old(spent), Keys(rows), number)
    {
      for i := 0 to |rows|
        invariant uds == old(uds) - Keys(rows[..i])
        invariant spent == SpentToo(old(uds), old(spent), Keys(rows[..i]), number)
      {
        var k := rows[i].key;
        NextConsumed(rows, i);
        OneMoreSpent(old(uds), old(spent), Keys(rows[..i]), k, number);
        spent := spent[k := SpentUd(uds[k], number)];
        uds := uds - {k};
      }
      assert rows[..|rows|] == rows;
    }
  }
}
