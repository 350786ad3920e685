/** The money side of the ledger: the sources index, the dividends, the wallets, and what a block
    does to them. */
module Money {
  import opened Amounts
  import opened Outcomes
  import opened Sources
  import opened SourceSums
  import opened TxDepth

  datatype SpentUd = SpentUd(amount: BasedAmount, consumedOn: nat)

  /** The stores. Of each transaction source the index keeps one creation and one consumption
      record; a dividend is either available or spent. */
  datatype Store = Store(
    creates: map<SourceKey, SRow>, updates: map<SourceKey, SRow>,
    uds: map<SourceKey, BasedAmount>, spent: map<SourceKey, SpentUd>,
    wallets: map<string, int>)

  /** What a block brings to the money side. The producers are the members that the dividend DAO
      has flagged when the dividend is produced. */
  datatype MoneyBlock = MoneyBlock(
    number: nat, txs: seq<Tx>, dividend: Option<BasedAmount>, producers: set<string>, unitBase: nat)

  const ACCOUNT_MINIMUM: nat := 100

  function Sig(pub: string): string {
    "SIG(" + pub + ")"
  }

  function Owner(k: SourceKey): string {
    if k.Dividend? then Sig(k.pub) else ""
  }

  function Balance(wallets: map<string, int>, conditions: string): int {
    if conditions in wallets then wallets[conditions] else 0
  }

  // ---- The available sources ----

  ghost function Available(s: Store): map<SourceKey, Source> {
    map k | k in (s.creates.Keys - s.updates.Keys) + s.uds.Keys ::
      if k in s.uds then Source(s.uds[k], Owner(k)) else SourceOf(s.creates[k])
  }

  ghost function Supply(s: Store): nat {
    Sum(Available(s), None)
  }

  ghost function EverCreated(s: Store): set<SourceKey> {
    s.creates.Keys + s.uds.Keys + s.spent.Keys
  }

  ghost function EverConsumed(s: Store): set<SourceKey> {
    s.updates.Keys + s.spent.Keys
  }

  // ---- Resolving the inputs (BR_G46 to BR_G48) ----

  /** The first local output with this identifier. */
  function LocalSource(local: seq<SRow>, key: SourceKey): Option<SRow> {
    if local == [] then None
    else if local[0].op == Create && local[0].key == key && local[0].conditions != "" then Some(local[0])
    else LocalSource(local[1..], key)
  }

  function Matches(records: map<SourceKey, SRow>, r: SRow): bool {
    r.key in records && records[r.key].amount == r.amount
  }

  /** The global lookup: by identifier, pos, amount and base. */
  function GlobalConditions(s: Store, r: SRow): string {
    if r.srcType == D then Owner(r.key)
    else if Matches(s.creates, r) then s.creates[r.key].conditions
    else if Matches(s.updates, r) then s.updates[r.key].conditions
    else ""
  }

  predicate GloballyAvailable(s: Store, r: SRow) {
    if r.srcType == D then r.key in s.uds && s.uds[r.key] == r.amount else !Matches(s.updates, r)
  }

  function ConditionsOf(s: Store, local: seq<SRow>, r: SRow): string {
    var source := LocalSource(local, r.key);
    if source.Some? then source.value.conditions else GlobalConditions(s, r)
  }

  /** BR_G87, and of BR_G88 that a source without conditions stays locked. */
  predicate Usable(s: Store, local: seq<SRow>, r: SRow) {
    && (LocalSource(local, r.key).Some? || GloballyAvailable(s, r))
    && ConditionsOf(s, local, r) != ""
  }

  function ResolvedRow(s: Store, local: seq<SRow>, r: SRow): SRow {
    if r.op == Update then r.(conditions := ConditionsOf(s, local, r)) else r
  }

  function Resolved(s: Store, local: seq<SRow>, n: nat): seq<SRow>
    requires n <= |local|
  {
    if n == 0 then [] else Resolved(s, local, n - 1) + [ResolvedRow(s, local, local[n - 1])]
  }

  function Rows(s: Store, b: MoneyBlock): seq<SRow> {
    var local := LocalRows(b.txs, b.number);
    Resolved(s, local, |local|)
  }

  /** The rules on the transactions of a block that the theorems rest on. */
  ghost predicate TxRules(tx: Tx) {
    && tx.inputs != [] && tx.outputs != []
    && (forall o | o in tx.outputs :: o.conditions != "")
    && Total(InputAmounts(tx.inputs)) == Total(OutputAmounts(tx.outputs))
  }

  function InputAmounts(inputs: seq<Input>): seq<BasedAmount> {
    if inputs == [] then [] else InputAmounts(inputs[..|inputs| - 1]) + [inputs[|inputs| - 1].amount]
  }

  function OutputAmounts(outputs: seq<TxOutput>): seq<BasedAmount> {
    if outputs == [] then [] else OutputAmounts(outputs[..|outputs| - 1]) + [outputs[|outputs| - 1].amount]
  }

  ghost predicate Accepted(s: Store, b: MoneyBlock) {
    var local := LocalRows(b.txs, b.number);
    && (forall tx | tx in b.txs :: TxRules(tx))
    && DistinctKeys(Only(local, Update)) && DistinctKeys(Only(local, Create))
    && MaxDepthOf(local, Ids(local)) <= MAX_DEPTH
    && AllUsable(s, local)
  }

  ghost predicate AllUsable(s: Store, local: seq<SRow>) {
    forall i | 0 <= i < |local| && local[i].op == Update :: Usable(s, local, local[i])
  }

  /** Hypothesis on hashing: a transaction hash determines the inputs. */
  ghost predicate HashesIdentify(hashed: map<string, set<SourceKey>>, txs: seq<Tx>) {
    forall tx | tx in txs :: tx.hash in hashed && hashed[tx.hash] == InputKeys(tx)
  }

  ghost function InputKeys(tx: Tx): set<SourceKey> {
    set i | 0 <= i < |tx.inputs| :: tx.inputs[i].key
  }

  /** Hypothesis on chained inputs: they state the amount of the local output they name. */
  ghost predicate ChainedInputsMatch(local: seq<SRow>) {
    forall i | 0 <= i < |local| && local[i].op == Update && LocalSource(local, local[i].key).Some? ::
      LocalSource(local, local[i].key).value.amount == local[i].amount
  }

  // ---- The dividend (BR_G91) ----

  ghost function Produced(b: MoneyBlock): set<SourceKey> {
    if b.dividend.None? then {} else set p | p in b.producers :: Dividend(p, b.number)
  }

  function DividendRow(pub: string, amount: BasedAmount, number: nat): SRow {
    SRow(Create, D, Dividend(pub, number), "", amount, Sig(pub), number)
  }

  /** One row for each producer, in any order. */
  ghost predicate IsDividend(b: MoneyBlock, dividends: seq<SRow>) {
    && DistinctKeys(dividends) && Keys(dividends) == Produced(b)
    && forall i | 0 <= i < |dividends| :: IsDividendRow(b, dividends[i])
  }

  ghost predicate IsDividendRow(b: MoneyBlock, r: SRow) {
    && b.dividend.Some? && r.key.Dividend? && r == DividendRow(r.key.pub, b.dividend.value, b.number)
  }

  // ---- The garbage rule (BR_G106) ----

  function Variation(entries: seq<SRow>, account: string): int {
    RowSum(Only(entries, Create), Some(account)) - RowSum(Only(entries, Update), Some(account))
  }

  predicate Poor(s: Store, entries: seq<SRow>, unitBase: nat, account: string) {
    Balance(s.wallets, account) + Variation(entries, account) < ACCOUNT_MINIMUM * Pow10(unitBase)
  }

  /** A source that the rule would take for an account: created locally, or an available
      transaction source. Earlier dividends are not looked at. */
  ghost predicate Candidate(s: Store, entries: seq<SRow>, r: SRow) {
    || (r.op == Create && r in entries)
    || (r.key in s.creates && r.key !in s.updates && r == s.creates[r.key])
  }

  ghost predicate Garbaged(s: Store, entries: seq<SRow>, unitBase: nat, r: SRow) {
    && Candidate(s, entries, r)
    && (exists e | e in entries :: e.conditions == r.conditions)
    && Poor(s, entries, unitBase, r.conditions)
    && r.key !in Keys(Only(entries, Update))
  }

  function GarbageRow(r: SRow, number: nat): SRow {
    SRow(Update, T, r.key, r.tx, r.amount, r.conditions, number)
  }

  ghost predicate IsGarbageRow(s: Store, entries: seq<SRow>, b: MoneyBlock, g: SRow) {
    exists r :: Garbaged(s, entries, b.unitBase, r) && g == GarbageRow(r, b.number)
  }

  /** Rows for garbaged sources, each once. */
  ghost predicate SomeGarbage(s: Store, entries: seq<SRow>, b: MoneyBlock, garbage: seq<SRow>) {
    DistinctKeys(garbage) && forall i | 0 <= i < |garbage| :: IsGarbageRow(s, entries, b, garbage[i])
  }

  /** The garbage rows: each garbaged source once, in any order. */
  ghost predicate IsGarbage(s: Store, entries: seq<SRow>, b: MoneyBlock, garbage: seq<SRow>) {
    && SomeGarbage(s, entries, b, garbage)
    && (forall r | Garbaged(s, entries, b.unitBase, r) :: r.key in Keys(garbage))
  }

  // ---- The effect of a block ----

  function PutRows(m: map<SourceKey, SRow>, rows: seq<SRow>): map<SourceKey, SRow> {
    if rows == [] then m
    else PutRows(m, rows[..|rows| - 1])[rows[|rows| - 1].key := rows[|rows| - 1]]
  }

  function OfType(rows: seq<SRow>, t: SrcType): (r: seq<SRow>) {
    if rows == [] then []
    else
      var front, last := OfType(rows[..|rows| - 1], t), rows[|rows| - 1];
      if last.srcType == t then front + [last] else front
  }

  function WithUds(uds: map<SourceKey, BasedAmount>, dividends: seq<SRow>): map<SourceKey, BasedAmount> {
    if dividends == [] then uds
    else
      var r := dividends[|dividends| - 1];
      WithUds(uds, dividends[..|dividends| - 1])[r.key := r.amount]
  }

  /** `flushIndexes`: transaction rows go to the index, dividend rows consume a dividend. */
  function FlushedUds(uds: map<SourceKey, BasedAmount>, sindex: seq<SRow>): map<SourceKey, BasedAmount> {
    uds - Keys(OfType(sindex, D))
  }

  function FlushedSpent(
      uds: map<SourceKey, BasedAmount>, spent: map<SourceKey, SpentUd>, sindex: seq<SRow>, number: nat)
    : map<SourceKey, SpentUd>
  {
    spent + map k | k in Keys(OfType(sindex, D)) && k in uds :: SpentUd(uds[k], number)
  }

  /** A variation, counted the other way when a block is reverted. */
  function Signed(reverse: bool, variation: int): int {
    if reverse then -variation else variation
  }

  ghost predicate WalletsMoved(before: map<string, int>, sindex: seq<SRow>, dividends: seq<SRow>, reverse: bool,
                               after: map<string, int>)
  {
    forall c {:trigger Balance(after, c)} ::
      Balance(after, c) == Balance(before, c) + Signed(reverse, Variation(sindex, c) + RowSum(dividends, Some(c)))
  }

  /** The records and the dividends after the rows of a block were flushed. */
  ghost predicate Flushed(s: Store, b: MoneyBlock, dividends: seq<SRow>, garbage: seq<SRow>, after: Store) {
    var sindex := Rows(s, b) + garbage;
    var uds := WithUds(s.uds, dividends);
    && after.creates == PutRows(s.creates, Only(OfType(sindex, T), Create))
    && after.updates == PutRows(s.updates, Only(OfType(sindex, T), Update))
    && after.uds == FlushedUds(uds, sindex)
    && after.spent == FlushedSpent(uds, s.spent, sindex, b.number)
  }

  /** What `saveBlockData` does to the money side if the garbage rule takes these sources, be they all it
      has to take or some of them. */
  ghost predicate PartStep(s: Store, b: MoneyBlock, dividends: seq<SRow>, garbage: seq<SRow>, after: Store) {
    && IsDividend(b, dividends)
    && SomeGarbage(s, Rows(s, b) + dividends, b, garbage)
    && Flushed(s, b, dividends, garbage, after)
    && WalletsMoved(s.wallets, Rows(s, b) + garbage, dividends, false, after.wallets)
  }

  /** What `saveBlockData` does to the money side. */
  ghost predicate Step(s: Store, b: MoneyBlock, dividends: seq<SRow>, garbage: seq<SRow>, after: Store) {
    && IsDividend(b, dividends)
    && IsGarbage(s, Rows(s, b) + dividends, b, garbage)
    && Flushed(s, b, dividends, garbage, after)
    && WalletsMoved(s.wallets, Rows(s, b) + garbage, dividends, false, after.wallets)
  }
}
