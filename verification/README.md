# A verified model of Duniter's chain and ledger

Duniter keeps a chain of blocks and, next to it, event logs of identities, memberships,
certifications and sources of money. This project models three connected parts of it in Dafny and
proves what they keep:

* **Fork resolution.** The search for side chains in the sandbox, the trial of each of them on the
  live chain (revert, add until a block is refused, roll back, re-add), the switch under the 3-3
  rule, and the resolution of direct successors. The chain and the sandbox are fields of an object
  that the loops change; the verdict on a block is an arbitrary deterministic predicate.
* **The ledger.** Local index, rules, extra rows, flush and revert, for identities and for money:
  members are counted, wallets agree with the sources, money is accounted for against the mass
  counter, revert undoes apply, and no source is spent twice but in the cases that are described
  below. Rules carry their DUBP labels (BR_Gxx).
* **Kernels.** The head recurrences (issuers frame, difficulty, median time, universal dividend,
  mass), the amounts rule of transactions, the depth of chained transactions, and the reduction of
  index rows with its trimming.

Where the source changes state step by step, a class or a method with loops does the same here and
is proved against functions and predicates on values; the laws are lemmas about those.

## Results where the code falls short

Each of these is kept as the code has it, shown on a concrete input that the code accepts, and met by
the exact condition under which it does not happen.

* `ForkMarks.AcceptedBlocksHideTheirChain`, `ForkCompleteness.TriedIffUnmarked`: trying a suite marks
  the blocks that were accepted, not only the refused one, and a marked block counts as missing from
  then on. A later block that makes their chain acceptable and far enough is passed over, until block
  resolution adds some block. A side chain of the window that is far enough is tried exactly when no
  block below its head is marked.
* `LedgerExample.SupplyMayExceedMass`, `Ledger.MoneyIsConserved`: BR_G91 flags every key of the local
  identity rows before the dividend is produced, the excluded ones too, and they lose the flag only
  afterwards. An excluded member is paid a dividend that the mass does not count. Supply and
  garbaged money equal the mass exactly as long as no dividend block excludes anybody and no unit
  base shift falls outside the dividend schedule.
* `MonetaryMass.MassesMayDisagree`, `MonetaryMass.MassesAgree`, `MonetaryMass.UnalignedShiftMeans`:
  BR_G14 announces a dividend on a block where none is due; the two mass computations part exactly
  there. Configurations whose re-evaluations fall on dividends do not reach it
  (`MonetaryMass.AlignedMassesAgree`).
* `RevertExamples.NewcomerKeepsDividend`, `LedgerRevert.RevertUndoesBlock`: a revert deletes the
  dividend entries of the newcomers before it looks for the dividends of the block, so a newcomer's
  wallet keeps the dividend. Wallets are restored exactly when the block paid no dividend or had no
  newcomer.
* `RevertExamples.ReplayedLinkIsLost`, `WotLinks.WebIsRestoredIff`: a revert removes a created link even
  if it existed before. The identity stores are restored exactly when the block replays no
  certification, apart from those that expire in it.
* `ChainedExample.ChainedInputCreatesMoney`, `ChainedInputs.ConservedIffStatedIsNamed`: the lookup of a
  local output ignores amount and base. A chained input that states more than the output it names
  creates money, provided the account holds enough other money; money is conserved by transactions
  exactly when the inputs state in all what they name.
* `ChainedExample.OutputIsSpentTwice`, `SpentAgain.SpentAgainIff`, `SpentAgainRuns.CanBeSpentAgainIff`: the
  record of a consumption keeps the amount that the input stated, and the lookup of a global source
  compares amounts. So an output that a chained input misstated can be spent again by a later input
  that states its amount. After any run, a consumed source can be consumed again exactly when a block
  consumed it by an input that misstated it, or garbaged it as a dividend, and no block has consumed
  it since. Reverting a block that consumed an output again forgets the first consumption, too
  (`SpentAgain.RecordsAreRestoredIff`).
* `SmallDividends.SmallDividendBreaksWallets`, `SmallDividends.WalletsAgreeIff`: with a dividend below the
  account minimum, the garbage rule consumes in the transaction index a dividend that stays available
  in the dividend store. Wallets agree with the sources after a block exactly when it pays no
  dividend, or one of nothing, or leaves no member it pays below the minimum.
* `Suites.RootNameIgnoredAtGenesis`: the hash of block #0 is not looked at, so a side block #1 is
  rooted whatever previous block it names.
* `ForkCompleteness.SideGenesisHides`, `Switcher.Switcher.FindPotentialSuites`: with no advance asked for, on
  head #0, a side block #0 keeps the search from rooting the side blocks #1 that name it. The search
  loses no side chain exactly when none names a potential block #0.
* `Reduction.TrimmingNeedsSeparation`: trimming is harmless exactly for logs whose stamps the cut
  separates.

The comment on BR_G106 says that accounts which only received a dividend are left alone
(app/lib/indexer.ts:2059); the code looks at them like at the others, and so does the model.

## Hypotheses

* Hashes identify: of blocks (`ForkStore.HashesIdentify`) and of transactions, their inputs
  (`Money.HashesIdentify`) or the whole (`AnyInputs.Documented`).
* A chained input states the amount and base of the output it names (`Money.ChainedInputsMatch`). The
  theorems on conservation, wallets and the ledger rest on it. Otherwise money is created, which
  `ChainedInputs` measures, and sources can be spent twice, which `SpentAgain` and `SpentAgainRuns`
  delimit; these modules make no such assumption.
* The first dividend is at least the account minimum of 100 (`ud0 >= 100` in `Ledger`);
  `SmallDividends` says what happens otherwise.
* A member remains when the dividend is re-evaluated, which divides by their number
  (`Heads.Admissible`).
* The rules that gate a block here are a subset of those of the code, so the theorems hold for more
  runs than the code accepts. The concrete blocks obey the rules of the code on what they contain; they
  are for configurations that demand no certifications of newcomers.

## Files

`Outcomes`; `ForkStore`, `ForkDao`, `Suites`, `Trials`, `Switcher`, `ForkCompleteness`,
`BlockchainService`, `ForkMarks` (fork resolution); `Amounts`, `TxAmounts`, `Sources`, `TxDepth`,
`Reduction`, `Heads`, `HeadRuns`, `MonetaryMass` (kernels); `SourceSums`, `Money`, `LocalSources`,
`MoneySteps`, `MoneyConservation`, `MoneyEffect`, `MoneyRuns`, `DoubleSpend`, `GarbageRule`,
`SmallDividends`, `ChainedInputs`, `AnyInputs`, `SpentAgain`, `SpentAgainRuns`, `ChainedExample`,
`MoneyDal`, `SaveMoney`, `MoneyRevert`, `RevertMoney`, `Trimming` (money); `Identities`, `Membership`,
`Wot`, `WotRevert`, `WotLinks`, `IdentityRows`, `WotDal` (identities); `Ledger`, `LedgerExample`, `LedgerRevert`, `RevertExamples`, `LedgerHistory`,
`UncleanHistory` (the whole).

## Model

| member | source | states |
|---|---|---|
| ForkDao.Dao.RevertTo | app/service/BlockchainService.ts:118-132 | pops the live chain down to a number, highest block first, every popped block goes to the sandbox; fails exactly without a current block, below block #0 or above the head |
| ForkDao.Dao.AddBlock | app/lib/computation/BlockchainContext.ts:213-220 | extends the chain by the block exactly when its number is the length of the chain, it names the hash of the head (the empty string on an empty chain) and the verdict takes it; changes nothing otherwise |
| ForkDao.Dao.AddSideBlock | app/service/BlockchainService.ts:221-226 | a block enters the sandbox exactly when it is not known yet, and nothing else changes |
| ForkDao.RevertAllKeepsBlocks | app/service/BlockchainService.ts:118-132 | a revert of any depth loses no block and invents none |
| Suites.RootedMeans | app/lib/dal/fileDAL.ts:351-373 | what it means for a side block to be rooted: its predecessor is on the main chain, except that no hash is compared for block #0 |
| Suites.PredecessorMeans | app/lib/dal/fileDAL.ts:362-373 | the predecessor of a block is the known block one number below it with the hash it names, in the chain or in the sandbox; for a block #1 it is the main block #0, whatever its hash |
| Suites.RootNameIgnoredAtGenesis | app/lib/dal/fileDAL.ts:362-373 | a concrete side block #1 is rooted although it names another block than #0 |
| Suites.DeadTrailHasNoBranch | app/lib/blockchain/Switcher.ts:191-206 | a walk that ends on a missing or invalid block shows that none of its blocks can be rooted, which justifies the cache of invalid blocks |
| Suites.LongTrailHasNoShortBranch | app/lib/blockchain/Switcher.ts:144-147 | a walk that leaves the fork window shows that its start has no rooted chain within the window |
| Switcher.SortByNumber | app/lib/blockchain/Switcher.ts:111-118 | the candidates in descending order of number, a permutation of the potential blocks in which two blocks of one number come in the order they had before |
| Switcher.SuitesContains | app/lib/blockchain/Switcher.ts:335-344 | true exactly when a block with this number and hash lies in a suite |
| Switcher.Switcher.FollowSuite | app/lib/blockchain/Switcher.ts:138-190 | follows a candidate down: it ends rooted, dead or out of the window, and the two caches stay right |
| Switcher.Switcher.FindPotentialSuites | app/lib/blockchain/Switcher.ts:109-222 | terminates; the suites are linked, rooted, within the window, no head of one occurs in another (sound); every potential block that an uncached walk roots lies in one (complete) exactly when no such side chain names a potential block #0 |
| Switcher.Switcher.AddMaximum | app/lib/blockchain/Switcher.ts:256-284 | adds blocks until one is refused: the longest accepted prefix, and the refused block is marked |
| Switcher.Switcher.TrySuite | app/lib/blockchain/Switcher.ts:238-305 | trying a suite on the live chain gives its longest accepted prefix and restores chain and sandbox block for block; no re-add and no revert throws |
| Switcher.Switcher.FindLongestChain | app/lib/blockchain/Switcher.ts:231-317 | the best outcome over all suites, with the chain and the sandbox as they were and exactly the expected marks |
| Trials.AcceptedLengthMeans | app/lib/blockchain/Switcher.ts:256-284 | the accepted length is n exactly when the first n blocks are accepted in turn and the next one is not |
| Trials.MarkedByOne | app/lib/blockchain/Switcher.ts:254-289 | trying a side chain marks the blocks up to and including the first refused one: exactly those whose predecessors in it were all accepted |
| Trials.BestIsFirstHighest | app/lib/blockchain/Switcher.ts:306-314 | the remembered outcome has a head of the greatest number, and is the first that does |
| Trials.BestIsNothing | app/lib/blockchain/Switcher.ts:236-316 | nothing is remembered exactly when no suite has an acceptable first block |
| Switcher.Switcher.SwitchOnChain | app/lib/blockchain/Switcher.ts:323-328 | pops the chain to the fork point and adds the whole side chain, without refusal |
| Switcher.Switcher.TryToFork | app/lib/blockchain/Switcher.ts:51-85 | the search starts from exactly the side blocks that are at least switchOnHeadAdvance blocks and switchOnHeadAdvance * avgGenTime of median time ahead of the head, and no further than the window beyond; the switch happens exactly when the best outcome ends on a block that far ahead; otherwise the store ends as it was |
| Switcher.ForkResolutionIsSafe | app/lib/blockchain/Switcher.ts:51-85 | after a switch the head is at least the advance in blocks and in median time ahead of the old head, no known block is lost, and the number of dropped blocks is bounded |
| Switcher.SwitchIsBounded | app/lib/blockchain/Switcher.ts:144-147 | at most forkWindowSize - switchOnHeadAdvance old blocks are dropped |
| Switcher.SwitchKeepsBlocks | app/lib/blockchain/Switcher.ts:323-328 | a switch keeps every block known, in the chain or in the sandbox |
| ForkCompleteness.SideGenesisHides | app/lib/blockchain/Switcher.ts:147-168 | with an advance of 0 on head #0, a rooted side block #1 that names a side block #0 is not tried |
| ForkCompleteness.TriedIffUnmarked | app/lib/blockchain/Switcher.ts:176-188 | a side chain of the window that satisfies the 3-3 rule is tried exactly when no block below its head was marked by an earlier resolution |
| ForkCompleteness.FarEnoughIsNotPassedOver | app/lib/blockchain/Switcher.ts:51-85 | a wholly acceptable side chain of the window that satisfies the 3-3 rule and has no marked block below its head is passed over only for an outcome at least as high; without a switch, that outcome lacks median time |
| ForkMarks.AcceptedBlocksHideTheirChain | app/lib/blockchain/Switcher.ts:284-289 | two resolutions of one service on a concrete store: the first marks two accepted blocks, the second passes over an acceptable chain that is far enough because of these marks |
| BlockchainService.Service.AddOneFollower | app/service/BlockchainService.ts:259-306 | adds one block of the sandbox that the chain accepts, or none, and then no block of the sandbox is acceptable |
| BlockchainService.Service.BlockResolution | app/service/BlockchainService.ts:253-310 | terminates, only appends accepted side blocks, and leaves no block in the sandbox that the chain would accept |
| BlockchainService.Service.ForkResolution | app/service/BlockchainService.ts:312-328 | the same of one fork resolution with the shared list of invalid forks: what it searches, chooses, keeps and marks, with the bounds on numbers and median times in both directions |
| TxAmounts.CheckTxAmountsValidity | app/lib/rules/local_rules.ts:654-704 | accepts exactly when inputs and outputs are worth the same and, up to every base whatever, outputs are covered by inputs; which error otherwise |
| TxAmounts.NoInputAboveOutputs | app/lib/rules/local_rules.ts:673-704 | in a valid transaction no input of positive amount has a base above those of all outputs |
| TxDepth.GetTransactionDepth | app/lib/rules/local_rules.ts:573-604 | the recursion, cyclic indexes included, computes the depth function |
| TxDepth.GetMaxTransactionDepth | app/lib/rules/local_rules.ts:561-571 | for every n up to 6, the result is at least n exactly when a chain of n in-block spends exists |
| TxDepth.DepthMeansChain | app/lib/rules/local_rules.ts:573-604 | a depth reaches n more hops exactly when a chain of n hops starts there |
| TxDepth.SpendsMeans | app/lib/rules/local_rules.ts:578-589 | a transaction spends another one when a row of it consumes a source whose first creation in the index is a row of the other |
| TxDepth.DepthIsAllowed | app/lib/rules/local_rules.ts:532-552 | the limit admits exactly the blocks without a chain of six spends |
| TxDepth.AllowedDepthHasNoClosedSet | app/lib/rules/local_rules.ts:532-552 | a block within the limit has no set of transactions that spend each other's outputs, so no cycle |
| Reduction.Reduce | app/lib/indexer.ts:2437-2450 | the reduction of rows, field by field, with null and undefined |
| Reduction.ReducedFieldIsLastValue | app/lib/indexer.ts:2437-2450 | a reduced field holds the last value given to it |
| Reduction.ReducedFieldIsPresent | app/lib/indexer.ts:2437-2450 | a reduced record has a field exactly when some row mentions it, be it with null |
| Reduction.ReducedFieldIsCarried | app/lib/indexer.ts:2437-2450 | rows that give a field no value leave the value it had |
| Reduction.ReducedStampIsLast | app/lib/indexer.ts:2437-2450 | the block number of a reduction is the last one that a row gives |
| Reduction.ReducedByParts | app/lib/indexer.ts:2437-2450 | reducing is a monoid fold: a log may be reduced part by part |
| Reduction.TrimmedMeans | app/lib/indexer.ts:2424-2435 | a log cut between its rows before a number and those from it on keeps the latter and has the former reduced to one |
| Reduction.TrimmingPreservesMeaning | app/lib/indexer.ts:2424-2435 | trimming an ordered log does not change what it reduces to |
| Reduction.TrimmingTwice | app/lib/indexer.ts:2424-2435 | trimming at n1 and then at n2 >= n1 is trimming at n2 |
| Reduction.TrimmingNeedsSeparation | app/lib/indexer.ts:2431-2433 | trimming is harmless for every log with given stamps exactly when the cut separates the stamps |
| Heads.CompleteHead | app/lib/indexer.ts:655-821 | the sequence of prepare operations on the fields gives a head that satisfies every recurrence |
| Heads.DBHead.PrepareIssuersFrame | app/lib/indexer.ts:1285-1326 | BR_G04 to BR_G06 on the fields of the head; `HeadRuns.IssuersAreCounted`, `HeadRuns.FrameFollowsVariation` and `HeadRuns.FrameIsConserved` say what they come to in a run |
| Heads.DBHead.PrepareDividend | app/lib/indexer.ts:1371-1405 | BR_G13 and BR_G14: re-evaluated dividend, announced dividend, shift of the unit base |
| HeadRuns.DifficultyStep | app/lib/indexer.ts:788-821 | BR_G17: powMin rises by one or over a 15, falls by one or over a 15, or stays; outside an evaluation it stays |
| HeadRuns.HeadOfRoot | app/lib/indexer.ts:655-821 | every counter, date, frame, dividend and mass of the head of block #0, from the block and the configuration |
| HeadRuns.FrameIsConserved | app/lib/indexer.ts:1285-1326 | in every run frame + variation == 1 + 5 * issuers, the frame is at least 1 and moves by at most 1 |
| HeadRuns.IssuersAreCounted | app/lib/indexer.ts:1285-1297 | BR_G04 in every run: a head counts the distinct issuers of the earlier blocks that lie within the frame of the head before |
| HeadRuns.FrameFollowsVariation | app/lib/indexer.ts:1299-1310 | BR_G05 in every run: the frame grows by one, shrinks by one or stays, by the sign of the variation of the head before |
| HeadRuns.FrameConverges | app/lib/indexer.ts:1299-1326 | with a constant number of issuers the frame comes one closer to 1 + 5 * issuers per block, and stays there |
| HeadRuns.EvaluationSchedule | app/lib/indexer.ts:1336-1348 | diffNumber == dtDiffEval * (number / dtDiffEval + 1) in every run |
| HeadRuns.DifficultyMoves | app/lib/indexer.ts:788-821 | powMin changes only at multiples of dtDiffEval, by at most 2 |
| HeadRuns.DifficultySkipsFifteen | app/lib/indexer.ts:788-821 | powMin is never 15 modulo 16 unless it starts there |
| HeadRuns.DifficultyFollowsPace | app/lib/indexer.ts:788-821 | at an evaluation powMin rises when the last blocks took at most floor(avgGenTime / 1.189) each, falls when they took at least ceil(avgGenTime * 1.189) each, stays otherwise; when no time elapsed they count as 100 blocks in a second |
| HeadRuns.PersonalDifficulty | app/lib/indexer.ts:1497-1510 | issuerDiff is at least powMin and skips 15; its two digits are powZeros and powRemainder, at most 14 |
| HeadRuns.MedianTimeNeverDecreases | app/lib/indexer.ts:729-739 | BR_G08 over every run |
| HeadRuns.MedianTimeIsAverage | app/lib/indexer.ts:729-739 | the median time is never below the average time of the last blocks, and moves only to that average |
| HeadRuns.UdSchedule | app/lib/indexer.ts:1351-1368 | udTime == udTime0 + k * dt after k dividends, one per block at most, none early, none skipped |
| HeadRuns.UdCountFromTime | app/lib/indexer.ts:1351-1368 | without backlog the number of dividends is a function of the median time |
| HeadRuns.ReevalSchedule | app/lib/indexer.ts:1360-1427 | the schedule of re-evaluations, and that each uses the mass from just before the previous one |
| HeadRuns.ReevaluationMeans | app/lib/indexer.ts:1371-1388 | a re-evaluated dividend is the least integer not below the former one plus its share of the mass |
| HeadRuns.DividendMoves | app/lib/indexer.ts:1371-1405 | in every run: which dividend a head takes over, when it loses a digit to the unit base and how that rounds, and when it is announced |
| HeadRuns.MassGrows | app/lib/indexer.ts:1407-1418 | in every run the mass grows exactly when a dividend is due, by its worth for each member |
| HeadRuns.DividendNeverShrinks | app/lib/indexer.ts:1371-1405 | the worth of a dividend never decreases, over re-evaluations and shifts of the unit base |
| MonetaryMass.StoredMass | app/lib/blockchain/DuniterBlockchain.ts:653-682 | under BR_G58 to BR_G60 the stored mass is the mass of the head plus what unaligned base shifts announced |
| MonetaryMass.DBBlock.UpdateComputedVars | app/lib/blockchain/DuniterBlockchain.ts:653-682 | unit base and mass of any stored block: a missing or zero dividend hides the base of the block, the first block has no mass |
| MonetaryMass.MassesAgree | app/lib/indexer.ts:1399-1418 | the two masses agree over a run exactly when no block with members shifts the base without a due dividend |
| MonetaryMass.UnalignedShiftMeans | app/lib/indexer.ts:1399-1405 | the guard of such a shift, on the head before and the block: no dividend is due, and the dividend, re-evaluated if that is due, exceeds four digits |
| MonetaryMass.AlignedMassesAgree | app/lib/indexer.ts:1351-1418 | if re-evaluations fall on dividends and none makes the dividend exceed 99990, the two masses agree over every run |
| MonetaryMass.MassesMayDisagree | app/lib/indexer.ts:1399-1405 | a concrete run of four blocks where they part |
| LocalSources.LocalRowShape | app/lib/indexer.ts:499-557 | the rows of a block's transactions: inputs consume sources by their kind, outputs create transaction sources named after their transaction, all with the number of the block |
| LocalSources.OutputCreatesSource | app/lib/indexer.ts:533-557 | every output of a transaction creates the source named after its index, with the amount and the conditions of this output |
| LocalSources.CreatedByOutput | app/lib/indexer.ts:533-557 | and nothing else is created |
| LocalSources.InputConsumesSource | app/lib/indexer.ts:508-531 | every input consumes the source that it names, with the amount that it states |
| LocalSources.ConsumedByInput | app/lib/indexer.ts:508-531 | and nothing else is consumed |
| LocalSources.LocalRowsInOrder | app/lib/indexer.ts:499-557 | a transaction writes one row for each input, then one for each output, in their order |
| LocalSources.NoReplay | app/lib/rules/local_rules.ts:532-552 | no transaction of an accepted block was written before: the outputs it creates are new |
| ChainedInputs.NamedSourceIsPooled | app/lib/indexer.ts:1198-1242 | every input takes a source that is available before the block, or created in it, with its conditions and, the local outputs apart, its worth |
| MoneyConservation.TransactionsAreBalanced | app/lib/rules/local_rules.ts:654-671 | the outputs of an accepted block are worth its inputs |
| MoneyConservation.BalanceIsLeft | app/lib/indexer.ts:2075-2093 | the balance that the garbage rule computes is what is left for the account: never negative |
| MoneyConservation.GarbageSparesDividends | app/lib/indexer.ts:2094-2130 | with a dividend of at least the minimum the garbage rule takes transaction sources only |
| GarbageRule.GarbagedAccountKeepsOldDividends | app/lib/indexer.ts:2094-2130 | a garbaged account keeps exactly its earlier unspent dividends |
| GarbageRule.PoorAccountIsEmptied | app/lib/indexer.ts:2075-2134 | an account that the rows mention and that falls below 100 * 10^unitBase loses every source of it, local or in the index, that the block does not consume |
| GarbageRule.GarbageIsOfPoorAccounts | app/lib/indexer.ts:2075-2134 | a garbage row consumes such a source as it is; from that amount on an account loses nothing |
| MoneyDal.VariationCounts | app/lib/indexer.ts:2076-2085 | what an account gains by some rows: creations count up, consumptions count down, each by its amount in its base |
| SmallDividends.WalletGap | app/lib/indexer.ts:2106-2133 | for any dividend, what an account owns beyond its wallet after a block is what the garbage rule took of its fresh dividends |
| SmallDividends.WalletsAgreeIff | app/lib/indexer.ts:2106-2133 | wallets agree after a block exactly when it pays no dividend, or one of nothing, or no producer's account is below the minimum before garbaging |
| SmallDividends.SmallDividendBreaksWallets | app/lib/indexer.ts:2106-2133 | with a dividend of 50 paid by block #1 a wallet says 0 while a dividend of 50 is available |
| ChainedInputs.ConservedIffStatedIsNamed | app/lib/indexer.ts:1198-1228 | transactions conserve money exactly when the inputs state in all what the sources they name are worth |
| ChainedInputs.MatchingInputsAreNamed | app/lib/indexer.ts:1198-1228 | inputs that each state the amount of the source they name state in all what they name |
| ChainedExample.RichIsReached | app/lib/blockchain/DuniterBlockchain.ts:277-337 | the stores of the example are those after a run of four blocks, three of which pay a dividend of 1000 |
| ChainedExample.ChainedInputPasses | app/lib/indexer.ts:1198-1228 | a concrete block whose second transaction states 1100 for a local output of 1000 is accepted and applied |
| ChainedExample.ChainedInputCreatesMoney | app/lib/indexer.ts:2075-2093 | after it the supply is 3100 instead of 3000, and a wallet is 100 below the sources of its account; the garbage rule finds no negative balance |
| ChainedExample.OutputIsSpentTwice | app/lib/dal/indexDAL/leveldb/LevelDBSindex.ts:105-114 | a run of six blocks that the code saves consumes the same output in two blocks, the second time at its own amount; the supply ends at 4100 instead of 3000 |
| ChainedExample.ChainedInputIsCaught | app/lib/indexer.ts:2080-2093 | when the account holds nothing else, the garbage rule throws |
| MoneyRuns.AvailableAfter | app/lib/dal/fileDAL.ts:1705-1723 | the sources available after a block: those before, the dividends and the outputs, without the consumed and the garbaged |
| MoneyRuns.SupplyAfter | app/lib/blockchain/DuniterBlockchain.ts:277-337 | a block changes the supply by the dividends and by the garbaged sources only |
| MoneyRuns.DividendWorth | app/lib/dal/indexDAL/leveldb/LevelDBDividend.ts:182-204 | the dividends of a block are worth their amount times the number of flagged members |
| MoneyRuns.WalletsStillAgree | app/lib/blockchain/DuniterBlockchain.ts:416-487 | after every accepted block each wallet is the sum of the available sources with its conditions |
| AnyInputs.UsableIff | app/lib/dal/indexDAL/leveldb/LevelDBSindex.ts:105-114 | an input is usable exactly when it names a local output, an available dividend of its amount, or an output of its amount whose consumption record, if there is one, states another amount |
| AnyInputs.UsableMeans | app/lib/indexer.ts:1198-1242 | the same on the rows of the block and the records of the stores |
| AnyInputs.ConditionsMean | app/lib/indexer.ts:1244-1260 | a usable input gets the conditions of a local output of its name, or else those of the owner of the dividend or of the output it names |
| AnyInputs.NothingIsReplayed | app/lib/rules/local_rules.ts:532-552 | no transaction of an accepted block was written before, whatever chained inputs state |
| SpentAgain.SpentAgainIff | app/lib/indexer.ts:1982-1990 | in any consistent index, some acceptable next block consumes a given consumed source again exactly when its consumption record states another amount than its creation, or it is a dividend that the garbage rule consumed |
| SpentAgain.RespendingIsSaved | app/lib/indexer.ts:2075-2093 | if its owner's wallet is not below the minimum, such a block is saved and nothing is garbaged |
| SpentAgain.ExposedAfterIff | app/lib/dal/fileDAL.ts:1705-1723 | which sources are open to this after a block: those that its chained inputs misstate, the dividends it garbages, and those open before that it does not consume |
| SpentAgain.NothingExposedAfterIff | app/lib/indexer.ts:1198-1228 | where there is none, there is none after a block exactly when its chained inputs state the amounts they name and the garbage rule takes outputs only |
| SpentAgain.RecordsAreRestoredIff | app/lib/dal/indexDAL/leveldb/LevelDBSindex.ts:294-332 | a revert restores the consumption records exactly when the block consumed no output again: it deletes the last record, and the first was overwritten |
| SpentAgainRuns.CanBeSpentAgainIff | app/lib/indexer.ts:1982-1990 | after any run a consumed source can be consumed again exactly when a block misstated it, or garbaged it as a dividend, and none has consumed it since |
| SpentAgainRuns.NothingCreatedTwice | app/lib/rules/local_rules.ts:532-552 | over any run, whatever chained inputs state, no source is created in two blocks |
| SpentAgainRuns.NeverExposedIff | app/lib/indexer.ts:1198-1228 | no state of a run has a source open to this exactly when every block so far is such a plain one |
| SpentAgainRuns.NothingConsumedTwice | app/lib/indexer.ts:1982-1990 | over plain blocks no source is consumed in two blocks, garbage included, whatever the wallets say |
| DoubleSpend.NoDoubleSpendInBlock | app/lib/rules/local_rules.ts:468-495 | within a block each source is created and consumed by one row at most |
| DoubleSpend.ConsumedWasCreatedBefore | app/lib/indexer.ts:1198-1242 | every consumption has its creation in the same block or an earlier one |
| Trimming.TrimIndexes | app/lib/dal/fileDAL.ts:1384-1385 | deletes both records of the sources consumed before a block and the dividends spent before it, and nothing else, store by store |
| Trimming.UsableWhenTrimmed | app/lib/dal/indexDAL/leveldb/LevelDBSindex.ts:174-223 | an input is usable with trimmed stores exactly when it is with whole ones: what was consumed stays locked |
| Trimming.TrimmedRunIsRun | app/lib/blockchain/DuniterBlockchain.ts:306-308 | a run that trims is a run that does not, seen through the trimming |
| Trimming.NoDoubleSpendWhenTrimmed | app/lib/dal/indexDAL/leveldb/LevelDBSindex.ts:174-223 | no source is created or consumed twice in runs that trim |
| Trimming.RevertOnTrimmed | app/lib/blockchain/DuniterBlockchain.ts:489-553 | reverting a block that is not older than the trimming is reverting it on the whole stores, seen through the trimming |
| Trimming.WalletsAgreeWhenTrimmed | app/lib/dal/indexDAL/common/DividendDaoHandler.ts:192-205 | wallets agree with sources in runs that trim |
| MoneyDal.Dal.ResolveInputs | app/lib/indexer.ts:1198-1260 | BR_G46 to BR_G48, BR_G87: each input row gets its conditions and nothing else changes, the other rows stay; and whether all inputs are usable |
| MoneyDal.Dal.ProduceDividend | app/lib/dal/indexDAL/leveldb/LevelDBDividend.ts:182-204 | one dividend for each flagged member, and no other |
| MoneyEffect.ProducerIsPaid | app/lib/indexer.ts:2026-2044 | each flagged member gets one row of the amount of the dividend, under its own key and conditions, and the dividend in its store |
| MoneyEffect.OnlyProducersArePaid | app/lib/dal/indexDAL/leveldb/LevelDBDividend.ts:182-204 | nobody else gets one, and earlier dividends stay |
| MoneyDal.Dal.GarbageSmallAccounts | app/lib/indexer.ts:2047-2138 | the garbage rows of `Money.IsGarbage`; throws exactly when some account that the rows mention would end below zero |
| MoneyDal.CollectAccount | app/lib/indexer.ts:2094-2134 | the inner loop of the garbage rule takes exactly the unconsumed sources of the account |
| MoneyDal.Dal.FlushSources | app/lib/dal/fileDAL.ts:1705-1723 | transaction rows are stored by name and operation, dividend rows move a dividend to the spent ones |
| MoneyEffect.FlushStoresRecords | app/lib/dal/fileDAL.ts:1705-1723 | every transaction row is found under its name afterwards, and no other record changes |
| MoneyEffect.FlushMovesDividends | app/lib/dal/fileDAL.ts:1705-1723 | exactly the available dividends that a row names are spent, with their own amounts, on the block |
| MoneyDal.Dal.UpdateWallets | app/lib/blockchain/DuniterBlockchain.ts:416-487 | every wallet moves by what the rows and dividends say of its conditions, forward or reverse; the others stay |
| MoneyDal.ReverseUndoesForward | app/lib/blockchain/DuniterBlockchain.ts:416-487 | the reverse call undoes the forward call on every wallet |
| SaveMoney.SaveMoney | app/lib/blockchain/DuniterBlockchain.ts:277-337 | an accepted block is saved without exception, whatever its dividend, and leaves sound stores if the dividend is at least the minimum |
| LedgerRevert.MoneyRoundTrip | app/lib/blockchain/DuniterBlockchain.ts:489-553 | for each block of every run, reverting restores sources and dividends; wallets too exactly when the block pays no dividend or has no newcomer |
| RevertMoney.RevertUds | app/lib/dal/indexDAL/leveldb/LevelDBDividend.ts:214-247 | destroys the dividends produced by the block and recovers those it spent |
| RevertMoney.RevertMoney | app/lib/blockchain/DuniterBlockchain.ts:489-553 | the money part of a revert, in its order |
| Identities.CheckPubkeyUnicity | app/lib/rules/local_rules.ts:309-351 | accepts exactly when no key appears twice in joiners, actives, leavers and excluded |
| IdentityRows.IdentityRowsMean | app/lib/indexer.ts:289-468 | the identity rows of any block, field by field: new identities, joiners that come back, excluded keys |
| IdentityRows.MembershipRowsMean | app/lib/indexer.ts:313-447 | the membership rows: a joiner is a newcomer exactly when its identity is in the block |
| IdentityRows.MarkedMeans | app/lib/indexer.ts:896-911 | a key is to be kicked when the last row that says so asks for it |
| IdentityRows.MarkedAfter | app/lib/indexer.ts:896-911 | a block takes this mark off its new and its excluded identities, and off no other key |
| Membership.LocalRowsMean | app/lib/rules/local_rules.ts:196-225 | the rules leave one identity row per key and block: joiners enter, excluded leave |
| Membership.MembersAfter | app/lib/indexer.ts:842-864 | with BR_G21, BR_G26 and BR_G33 the members after a block are the former ones and the joiners, without the excluded |
| Membership.MemberIsReduced | app/lib/indexer.ts:2437-2450 | membership is the member field of the reduced identity rows |
| Membership.MembersAreCounted | app/lib/indexer.ts:744-764 | in every reachable state the members count is the number of keys whose reduced identity is a member |
| WotRevert.SavedIsSound | app/lib/blockchain/DuniterBlockchain.ts:373-414 | nodes stay enabled and dividend entries flagged exactly for the members, over every accepted block |
| IdentityRows.NodesMean | app/lib/blockchain/DuniterBlockchain.ts:373-414 | in sound stores a node and a flag are true exactly when the last row of the key on membership says member, and no two keys share a node |
| IdentityRows.NewNodes | app/lib/blockchain/DuniterBlockchain.ts:373-392 | new identities get the next nodes in their order, the others keep theirs |
| WotRevert.ProducersAre | app/lib/indexer.ts:2026-2044 | who produces a dividend: the members after the block and the members it excludes |
| WotRevert.RevertUndoesSave | app/lib/blockchain/DuniterBlockchain.ts:489-589 | reverting restores the identity, membership and certification indexes, nodes, node numbers and flags; the whole state exactly under the condition on links |
| WotRevert.LinksAreRestoredIff | app/lib/blockchain/DuniterBlockchain.ts:502-514 | links are restored exactly when each expired link existed and each created link that existed expires in the same block |
| WotLinks.LinksStaySound | app/lib/dal/fileDAL.ts:1358-1372 | the links are the valid certifications, after every accepted block |
| IdentityRows.LinksMean | app/lib/dal/fileDAL.ts:1358-1372 | sound links join issuer to receiver exactly when the last row about the pair is a certification |
| WotLinks.WebIsRestoredIff | app/lib/blockchain/DuniterBlockchain.ts:502-514 | applying and reverting a block restores the identity stores as they were exactly when it replays no certification but those that expire in it |
| WotDal.Dal.SaveIdentities | app/lib/blockchain/DuniterBlockchain.ts:277-337 | the identity part of saving a block: the rows, memberships and certifications are appended with the number of the block, nodes, flags and links follow |
| WotDal.Dal.RevertIdentities | app/lib/blockchain/DuniterBlockchain.ts:555-589 | the identity part of a revert, on the stores: links, then nodes and flags, then rows |
| Ledger.HeadCountsMembers | app/lib/indexer.ts:744-764 | the head of every run counts the members of its identity index |
| Ledger.DividendIsEnough | app/lib/indexer.ts:1371-1405 | a first dividend of at least the account minimum keeps every dividend there |
| Ledger.MoneyIsAccountedFor | app/lib/indexer.ts:1407-1427 | in every reachable state available and garbaged money is the mass of the head and what was created uncounted |
| Ledger.MoneyIsConserved | app/lib/indexer.ts:1407-1427 | available and garbaged money equals the mass if and only if every block so far was regular |
| Ledger.LinksAreSound | app/lib/dal/fileDAL.ts:1358-1372 | in every reachable state the links are the valid certifications |
| LedgerExample.SupplyMayExceedMass | app/lib/indexer.ts:2026-2044 | a concrete run of accepted blocks, with a revoked member excluded by the block that pays the first dividend, where the supply exceeds the mass |
| LedgerRevert.NewcomersAreNew | app/lib/blockchain/DuniterBlockchain.ts:569-580 | in every reachable state the identities of the next block own no dividend, spent or not |
| LedgerRevert.NewcomersArePaid | app/lib/indexer.ts:2026-2044 | a dividend goes to every newcomer of its block |
| LedgerRevert.RevertUndoesBlock | app/lib/blockchain/DuniterBlockchain.ts:489-553 | for each block of every run, applying then reverting it restores all but links and wallets, and the whole ledger exactly when it pays no dividend or has no newcomer, and replays no certification but those that expire in it |
| RevertExamples.NewcomerKeepsDividend | app/lib/blockchain/DuniterBlockchain.ts:569-580 | a run whose block #1 pays its newcomer 100; after the revert the newcomer's wallet still says 100 |
| RevertExamples.ReplayedLinkIsLost | app/lib/blockchain/DuniterBlockchain.ts:502-514 | a block that replays a certification, and whose revert removes the link of a valid certification |
| LedgerHistory.HistoryIsForgotten | app/lib/blockchain/DuniterBlockchain.ts:489-553 | after any interleaving of saves, clean reverts and trimming below the reverted blocks, the stores are those of the run that saves the blocks of the current chain, trimmed |
| LedgerHistory.HistoryIsSound | app/lib/blockchain/DuniterBlockchain.ts:277-337 | wallets, nodes, flags and links are right in every state of such a history |
| LedgerHistory.HistoryIsAccountedFor | app/lib/indexer.ts:1407-1427 | in every state of such a history available and garbaged money is accounted for against the mass, and equals it exactly when every block of the current chain is regular |
| UncleanHistory.HistoryFollows | app/lib/blockchain/DuniterBlockchain.ts:489-553 | after any interleaving of saves and reverts, clean or not, the stores are those of the current chain, up to links and to wallets that are too high |
| UncleanHistory.NeverSpentTwice | app/lib/indexer.ts:1982-1990 | in every state of such a history no two blocks of the current chain consume, or create, the same source |
| UncleanHistory.ConsumedByCurrentChain | app/lib/blockchain/DuniterBlockchain.ts:489-553 | the stores hold as consumed exactly what the blocks of the current chain consume |
| UncleanHistory.NextSpendsNothingTwice | app/lib/indexer.ts:1982-1990 | the next accepted block consumes nothing that they consume |
| UncleanHistory.WalletsAreNeverShort | app/lib/blockchain/DuniterBlockchain.ts:489-553 | in every state of such a history wallets are never below the sources, and nodes and flags are those of the members |

## Left out

- Storage: the LevelDB, SQLite and file DAOs are maps, sequences and sets here; their secondary indexes, caches and orders of iteration are not modelled.
- Trimming of the `bindex` and of the identity indexes in a run: `Reduction` proves what trimming keeps of a log, but the runs keep them whole.
- The conditions index of the sources: `getAvailableForConditions` looks at all records; the index that a revert prunes is not modelled.
- Signatures, proof of work, WoT distance and the Rust server: part of the verdict on a block.
- Unlocking of conditions: of BR_G88 only that a source without conditions stays locked, of BR_G89 nothing.
- Expiry of memberships and certifications: which rows a block adds for it is arbitrary, up to what the rules say of them (an expired certification was valid, a row that marks somebody to be kicked has no member value); dates are not modelled.
- WoT limits: `addLink` and `removeLink` are set operations; the limit on issued certifications is BR_G66's and not modelled.
- Floating point: the re-evaluation of the dividend is over reals, the speed is a fraction, and the handicap and rotation terms of BR_G18 are given natural numbers.
- Numbers: JavaScript numbers are integers of any size here.
- Block resolution's filter function and the pending transactions it cleans, the events pushed to listeners, and the FIFO that serialises the steps.
- `quickCompleteGlobalScope`: it applies BR_G14 a second time on base-shift blocks.
- LedgerRevert.MoneyRoundTrip: dividend entries are maps from block number to amount, so the order in which a revert puts recovered dividends back is not captured.
- WotRevert.LinksAreRestoredIff: certification rows of a block are undone in the order they were written, creations before expiries.
- Membership.LocalRowsMean: inline documents are reduced to their public keys.
- ForkDao.Dao.AddBlock: a refusal is taken as atomic; in the source NEGATIVE_BALANCE is thrown after BR_G91 has produced the dividends of the block in their store (`ChainedExample.ChainedInputIsCaught` is such a throw).
- Switcher.Switcher.FindPotentialSuites: while a side chain is hidden by a side block #0, which others on block #0 are lost with it depends on the order of the walks, and is not captured.
- Heads.CompleteHead: BR_G07 and the stored value of BR_G16 are not kept, and the two floating point terms of BR_G18 are given, because no rule modelled here reads the former and the latter are logarithms.
- HeadRuns.PersonalDifficulty: the handicap and the rotation of an issuer are given natural numbers, for the same reason.
- MoneyDal.Dal.ResolveInputs: time locks and unlocking proofs are not evaluated, because they are a matter of signatures and of the clock of documents.
- UncleanHistory.HistoryFollows: these histories do not trim; those of `LedgerHistory.HistoryIsForgotten` do, and revert cleanly.
- SpentAgainRuns.CanBeSpentAgainIff: these runs neither revert nor trim; `SpentAgain.RecordsAreRestoredIff` says when a revert loses a record.
- MonetaryMass.StoredMass: stored blocks are taken to obey BR_G58 to BR_G60.
