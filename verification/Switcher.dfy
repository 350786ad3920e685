/** The fork resolution: search the sandbox for side chains, try each of them on the live
    chain, and switch to the best one when the 3-3 rule holds. */
module Switcher {
  import opened Outcomes
  import opened ForkStore
  import opened ForkDao
  import opened Suites
  import opened Trials

  /** The blockstamps known as incorrect, shared by the switcher and the block service. */
  class InvalidForks {
    var stamps: seq<Stamp>

    constructor ()
      ensures stamps == []
    {
      stamps := [];
    }

    function Marked(): set<Stamp>
      reads this
    {
      set s | s in stamps
    }
  }

  predicate DescendingNumbers(s: seq<Block>) {
    forall i, j | 0 <= i < j < |s| :: s[i].number >= s[j].number
  }

  /** The blocks numbered `n`, in their order. */
  function Numbered(s: seq<Block>, n: nat): seq<Block> {
    if s == [] then []
    else Numbered(s[..|s| - 1], n) + (if s[|s| - 1].number == n then [s[|s| - 1]] else [])
  }

  lemma {:induction false} NumberedByParts(s: seq<Block>, t: seq<Block>, n: nat)
    ensures Numbered(s + t, n) == Numbered(s, n) + Numbered(t, n)
    decreases |t|
  {
    if t == [] {
      assert s + t == s;
    } else {
      var front, last := t[..|t| - 1], t[|t| - 1];
      assert (s + t)[..|s + t| - 1] == s + front;
      NumberedByParts(s, front, n);
    }
  }

  lemma {:induction false} NoneNumbered(s: seq<Block>, n: nat)
    requires forall b | b in s :: b.number != n
    ensures Numbered(s, n) == []
  {
    if s != [] {
      NoneNumbered(s[..|s| - 1], n);
    }
  }

  /** Blocks of the same number keep their order. */
  ghost predicate SameOrder(s: seq<Block>, t: seq<Block>) {
    forall n: nat :: Numbered(s, n) == Numbered(t, n)
  }

  lemma InsertionIsStable(sorted: seq<Block>, k: nat, b: Block)
    requires k <= |sorted| && forall j | k <= j < |sorted| :: sorted[j].number < b.number
    ensures SameOrder(sorted[..k] + [b] + sorted[k..], sorted + [b])
  {
    var low, high := sorted[..k], sorted[k..];
    assert low + high == sorted;
    assert forall x | x in high :: x.number < b.number;
    forall n: nat ensures Numbered(low + [b] + high, n) == Numbered(sorted + [b], n) {
      LowerMoveUp(low, high, b, n);
    }
  }

  lemma LowerMoveUp(low: seq<Block>, high: seq<Block>, b: Block, n: nat)
    requires forall x | x in high :: x.number < b.number
    ensures Numbered(low + [b] + high, n) == Numbered(low + high + [b], n)
  {
    NumberedByParts(low + [b], high, n);
    NumberedByParts(low, [b], n);
    NumberedByParts(low + high, [b], n);
    NumberedByParts(low, high, n);
    if n == b.number {
      NoneNumbered(high, n);
    } else {
      NoneNumbered([b], n);
    }
  }

  lemma OneMoreInOrder(sorted: seq<Block>, s: seq<Block>, b: Block)
    requires SameOrder(sorted, s)
    ensures SameOrder(sorted + [b], s + [b])
  {
    forall n: nat ensures Numbered(sorted + [b], n) == Numbered(s + [b], n) {
      NumberedByParts(sorted, [b], n);
      NumberedByParts(s, [b], n);
    }
  }

  /** Puts a block after the blocks whose number is not lower. */
  method InsertByNumber(sorted: seq<Block>, b: Block) returns (sorted': seq<Block>)
    requires DescendingNumbers(sorted)
    ensures DescendingNumbers(sorted')
    ensures multiset(sorted') == multiset(sorted) + multiset{b}
    ensures SameOrder(sorted', sorted + [b])
  {
    var k := |sorted|;
    while k > 0 && sorted[k - 1].number < b.number
      invariant 0 <= k <= |sorted|
      invariant forall j | k <= j < |sorted| :: sorted[j].number < b.number
    {
      k := k - 1;
    }
    sorted' := sorted[..k] + [b] + sorted[k..];
    InsertionSorts(sorted, k, b);
    InsertionKeeps(sorted, k, b);
    InsertionIsStable(sorted, k, b);
  }

  lemma InsertionSorts(sorted: seq<Block>, k: nat, b: Block)
    requires DescendingNumbers(sorted) && k <= |sorted|
    requires k > 0 ==> sorted[k - 1].number >= b.number
    requires forall j | k <= j < |sorted| :: sorted[j].number < b.number
    ensures DescendingNumbers(sorted[..k] + [b] + sorted[k..])
  {
    var all := sorted[..k] + [b] + sorted[k..];
    forall i, j | 0 <= i < j < |all| ensures all[i].number >= all[j].number {
      assert all[i] == if i < k then sorted[i] else if i == k then b else sorted[i - 1];
      assert all[j] == if j < k then sorted[j] else if j == k then b else sorted[j - 1];
    }
  }

  lemma InsertionKeeps(sorted: seq<Block>, k: nat, b: Block)
    requires k <= |sorted|
    ensures multiset(sorted[..k] + [b] + sorted[k..]) == multiset(sorted) + multiset{b}
  {
    assert sorted == sorted[..k] + sorted[k..];
  }

  lemma {:induction false} NumberedIndex(s: seq<Block>, i: nat) returns (a: nat)
    requires i < |s|
    ensures a < |Numbered(s, s[i].number)| && Numbered(s, s[i].number)[a] == s[i]
  {
    var n := |s| - 1;
    if i == n {
      a := |Numbered(s[..n], s[n].number)|;
    } else {
      a := NumberedIndex(s[..n], i);
    }
  }

  lemma {:induction false} IndexOfNumbered(s: seq<Block>, n: nat, a: nat) returns (i: nat)
    requires a < |Numbered(s, n)|
    ensures i < |s| && s[i] == Numbered(s, n)[a] && |Numbered(s[..i], n)| == a
  {
    var last := |s| - 1;
    if a < |Numbered(s[..last], n)| {
      i := IndexOfNumbered(s[..last], n, a);
      assert s[..last][..i] == s[..i];
    } else {
      i := last;
    }
  }

  /** Two blocks of the same number come in the order in which they came before the sort. */
  lemma StableAt(sorted: seq<Block>, s: seq<Block>, i: nat, j: nat)
    requires SameOrder(sorted, s) && i < j < |sorted| && sorted[i].number == sorted[j].number
    ensures exists p, q | 0 <= p < q < |s| :: s[p] == sorted[i] && s[q] == sorted[j]
  {
    var n := sorted[i].number;
    NumberedByParts(sorted[..j], sorted[j..], n);
    assert sorted == sorted[..j] + sorted[j..];
    var a := NumberedIndex(sorted[..j], i);
    var b := NumberedIndex(sorted[j..], 0);
    var c := |Numbered(sorted[..j], n)| + b;
    var p := IndexOfNumbered(s, n, a);
    var q := IndexOfNumbered(s, n, c);
    assert s[p] == sorted[i] && s[q] == sorted[j];
    if q <= p {
      assert s[..p] == s[..q] + s[q..p];
      NumberedByParts(s[..q], s[q..p], n);
    }
  }

  /** Sorts blocks by descending number, as `sortBy` does: the sort is stable. */
  method SortByNumber(blocks: seq<Block>) returns (sorted: seq<Block>)
    ensures DescendingNumbers(sorted)
    ensures multiset(sorted) == multiset(blocks)
    ensures forall i, j | 0 <= i < j < |sorted| && sorted[i].number == sorted[j].number ::
              exists p, q | 0 <= p < q < |blocks| :: blocks[p] == sorted[i] && blocks[q] == sorted[j]
  {
    sorted := [];
    var i := 0;
    while i < |blocks|
      invariant 0 <= i <= |blocks|
      invariant DescendingNumbers(sorted)
      invariant multiset(sorted) == multiset(blocks[..i])
      invariant SameOrder(sorted, blocks[..i])
    {
      assert blocks[..i + 1] == blocks[..i] + [blocks[i]];
      OneMoreInOrder(sorted, blocks[..i], blocks[i]);
      sorted := InsertByNumber(sorted, blocks[i]);
      i := i + 1;
    }
    assert blocks[..i] == blocks;
    forall i, j | 0 <= i < j < |sorted| && sorted[i].number == sorted[j].number
      ensures exists p, q | 0 <= p < q < |blocks| :: blocks[p] == sorted[i] && blocks[q] == sorted[j]
    {
      StableAt(sorted, blocks, i, j);
    }
  }

  lemma SameElements<T>(s: seq<T>, t: seq<T>)
    requires multiset(s) == multiset(t)
    ensures forall x :: x in s <==> x in t
    ensures NoDuplicate(t) ==> NoDuplicate(s)
  {
    forall x ensures x in s <==> x in t {
      assert x in s <==> x in multiset(s);
      assert x in t <==> x in multiset(t);
    }
    if NoDuplicate(t) {
      forall i, j | 0 <= i < j < |s| ensures s[i] != s[j] {
        if s[i] == s[j] {
          assert s == s[..i] + [s[i]] + s[i + 1..j] + [s[j]] + s[j + 1..];
          assert multiset(s)[s[i]] >= 2;
          OccursOnce(t, s[i]);
        }
      }
    }
  }

  lemma {:induction false} OccursOnce<T>(t: seq<T>, x: T)
    requires NoDuplicate(t)
    ensures multiset(t)[x] <= 1
  {
    if t != [] {
      var n := |t| - 1;
      assert t == t[..n] + [t[n]];
      OccursOnce(t[..n], x);
      if t[n] == x {
        assert x !in t[..n];
        assert x !in multiset(t[..n]);
      }
    }
  }

  /** `suitesContains` */
  method SuitesContains(suites: seq<seq<Block>>, block: Block) returns (found: bool)
    ensures found <==> exists s, b | s in suites && b in s :: Blockstamp(b) == Blockstamp(block)
  {
    var i := 0;
    while i < |suites|
      invariant 0 <= i <= |suites|
      invariant forall s, b | s in suites[..i] && b in s :: Blockstamp(b) != Blockstamp(block)
    {
      var j := 0;
      while j < |suites[i]|
        invariant 0 <= j <= |suites[i]|
        invariant forall b | b in suites[i][..j] :: Blockstamp(b) != Blockstamp(block)
      {
        if suites[i][j].number == block.number && suites[i][j].hash == block.hash {
          assert suites[i] in suites && suites[i][j] in suites[i];
          return true;
        }
        j := j + 1;
      }
      i := i + 1;
    }
    assert suites[..i] == suites;
    found := false;
  }

  /** The suites of a search are rooted side chains, fit the fork window, start at potential
      blocks, and no head of a suite occurs in another suite. */
  ghost predicate SoundSuites(chain: seq<Block>, forks: Forks, marked: set<Stamp>, window: nat,
                              potentials: seq<Block>, suites: seq<seq<Block>>)
  {
    && (forall s | s in suites :: Branch(chain, forks, marked, s) && |s| <= window && s[0] in potentials)
    && (forall j, k | 0 <= j < |suites| && 0 <= k < |suites| && j != k && suites[j] != [] ::
          suites[j][0] !in suites[k])
  }

  /** The head of `t` lies in a suite. */
  ghost predicate Covers(suites: seq<seq<Block>>, t: seq<Block>) {
    t != [] && exists s :: s in suites && t[0] in s
  }

  /** Every potential block that an uncached walk roots within the window lies in a suite. */
  ghost predicate CompleteSuites(chain: seq<Block>, forks: Forks, marked: set<Stamp>, window: nat,
                                 potentials: seq<Block>, suites: seq<seq<Block>>)
  {
    forall t: seq<Block> {:trigger Covers(suites, t)} |
        Branch(chain, forks, marked, t) && |t| <= window && t[0] in potentials ::
      Covers(suites, t)
  }

  /** What the cache of fork blocks may hold. */
  ghost predicate KnownForkBlocks(forks: Forks, known: set<Stamp>) {
    forall k | k in known && k.0 >= 1 :: k in forks
  }

  function Names(blocks: seq<Block>): set<Stamp> {
    set b | b in blocks :: Blockstamp(b)
  }

  /** The blockstamps numbered 0 of a cache. */
  ghost function Origins(known: set<Stamp>): set<Stamp> {
    set k | k in known && k.0 == 0
  }

  /** The name under which a block is taken for the predecessor of `b`. */
  function PreviousStamp(b: Block): Stamp {
    (b.number - 1, b.previousHash)
  }

  /** A side chain on block #0 that names another block #0, which is itself a potential block: the cache
      of fork blocks keeps the search from looking for this name on the main chain. */
  ghost predicate Hidden(chain: seq<Block>, forks: Forks, marked: set<Stamp>, window: nat,
                         potentials: seq<Block>, t: seq<Block>)
  {
    && Branch(chain, forks, marked, t) && |t| <= window && t[0] in potentials
    && t[|t| - 1].number == 1 && PreviousStamp(t[|t| - 1]) in Names(potentials)
  }

  ghost predicate NoneHidden(chain: seq<Block>, forks: Forks, marked: set<Stamp>, window: nat, potentials: seq<Block>)
  {
    forall t: seq<Block> :: !Hidden(chain, forks, marked, window, potentials, t)
  }

  /** No suite ends on a block whose predecessor is named like one of `names`. */
  ghost predicate RootsUnnamed(suites: seq<seq<Block>>, names: set<Stamp>) {
    forall s | s in suites && s != [] :: PreviousStamp(s[|s| - 1]) !in names
  }

  /** A walk through `suite` skips no lookup on block #0 of the main chain. */
  ghost predicate Unshadowed(chain: seq<Block>, known: set<Stamp>, suite: seq<Block>) {
    chain != [] ==> forall b | b in suite && b.number == 1 :: PreviousStamp(b) !in known
  }

  /** The fork window, and how far ahead a side chain must be, in blocks and in median time. */
  datatype ForkRule = ForkRule(window: nat, advance: nat, time: nat)

  /** The side blocks a search for a switch starts from. */
  predicate Potential(rule: ForkRule, current: Block, forks: Forks, b: Block) {
    && Listed(forks, b)
    && current.number + rule.advance <= b.number <= current.number + rule.advance + rule.window
    && current.medianTime + rule.time <= b.medianTime
  }

  /** What the search of a fork resolution establishes. It loses no side chain exactly when none is
      hidden. */
  ghost predicate SearchDone(rule: ForkRule, chain: seq<Block>, forks: Forks, marked: set<Stamp>,
                             potentials: seq<Block>, suites: seq<seq<Block>>)
    requires chain != []
  {
    && (forall b :: b in potentials <==> Potential(rule, chain[|chain| - 1], forks, b))
    && SoundSuites(chain, forks, marked, rule.window, potentials, suites)
    && (CompleteSuites(chain, forks, marked, rule.window, potentials, suites) <==>
        NoneHidden(chain, forks, marked, rule.window, potentials))
  }

  /** Nothing is hidden from a search that starts above block #0. */
  lemma NoneHiddenAbove(verdict: Verdict, rule: ForkRule, chain: seq<Block>, forks: Forks, marked: set<Stamp>,
                        potentials: seq<Block>)
    requires ValidStore(verdict, chain, forks) && chain != [] && |chain| + rule.advance > 1
    requires forall b :: b in potentials <==> Potential(rule, chain[|chain| - 1], forks, b)
    ensures NoneHidden(chain, forks, marked, rule.window, potentials)
  {
    AcceptedIsLinked(verdict, chain);
  }

  ghost predicate AllFit(chain: seq<Block>, forks: Forks, suites: seq<seq<Block>>) {
    AllHang(chain, suites) && forall s, b | s in suites && b in s :: Listed(forks, b)
  }

  /** What the loop over the suites remembers of the first `i` of them. */
  ghost predicate Remembered(verdict: Verdict, chain: seq<Block>, tried: seq<seq<Block>>, i: nat,
                             longestChain: Option<seq<Block>>, stamps: seq<Stamp>, stamps': seq<Stamp>)
    requires AllHang(chain, tried) && i <= |tried|
  {
    && (longestChain.Some? ==> longestChain.value != [])
    && longestChain == Best(Trial(verdict, chain, tried)[..i])
    && stamps' == stamps + AllMarks(verdict, chain, tried[..i])
  }

  lemma RememberedStep(verdict: Verdict, chain: seq<Block>, tried: seq<seq<Block>>, i: nat,
                       longestChain: Option<seq<Block>>, stamps: seq<Stamp>, stamps': seq<Stamp>)
    requires AllHang(chain, tried) && i < |tried|
    requires Remembered(verdict, chain, tried, i, longestChain, stamps, stamps')
    ensures Remembered(verdict, chain, tried, i + 1, Better(longestChain, Taken(verdict, chain, tried[i])),
                       stamps, stamps' + Marks(verdict, chain, tried[i]))
  {
    var outcomes := Trial(verdict, chain, tried);
    assert outcomes[i] == Taken(verdict, chain, tried[i]);
    BestOfOneMore(outcomes, i);
    MarksOfOneMore(verdict, chain, tried, i);
  }

  lemma AllRemembered(verdict: Verdict, chain: seq<Block>, tried: seq<seq<Block>>,
                      longestChain: Option<seq<Block>>, stamps: seq<Stamp>, stamps': seq<Stamp>)
    requires AllHang(chain, tried) && Remembered(verdict, chain, tried, |tried|, longestChain, stamps, stamps')
    ensures longestChain == Best(Trial(verdict, chain, tried)) && stamps' == stamps + AllMarks(verdict, chain, tried)
  {
    assert tried[..|tried|] == tried;
    assert Trial(verdict, chain, tried)[..|tried|] == Trial(verdict, chain, tried);
  }

  lemma BestOfOneMore(outcomes: seq<seq<Block>>, i: nat)
    requires i < |outcomes|
    ensures Best(outcomes[..i + 1]) == Better(Best(outcomes[..i]), outcomes[i])
  {
    assert outcomes[..i + 1][..i] == outcomes[..i];
  }

  lemma MarksOfOneMore(verdict: Verdict, chain: seq<Block>, tried: seq<seq<Block>>, i: nat)
    requires AllHang(chain, tried) && i < |tried|
    ensures AllHang(chain, tried[..i]) && AllHang(chain, tried[..i + 1])
    ensures AllMarks(verdict, chain, tried[..i + 1]) ==
            AllMarks(verdict, chain, tried[..i]) + Marks(verdict, chain, tried[i])
  {
    assert tried[..i + 1][..i] == tried[..i];
  }

  /** The 3-3 rule: enough blocks and enough median time ahead of the old head. */
  predicate FarEnough(rule: ForkRule, current: Block, head: Block) {
    && head.number >= current.number + rule.advance
    && head.medianTime >= current.medianTime + rule.time
  }

  /** The chain switched to the best outcome of `suites` if that one is far enough, and did not
      change otherwise. */
  ghost predicate ForkResolved(verdict: Verdict, rule: ForkRule, chain: seq<Block>, forks: Forks,
                               suites: seq<seq<Block>>, chain': seq<Block>, forks': Forks, switched: Option<Block>)
    requires chain != []
  {
    && AllFit(chain, forks, suites)
    && (forall s | s in suites :: |s| <= rule.window)
    && var best := Best(Trial(verdict, chain, suites));
       if best.Some? && FarEnough(rule, chain[|chain| - 1], best.value[|best.value| - 1]) then
         && Hangs(chain, best.value)
         && chain' == Base(chain, best.value) + best.value
         && forks' == SwitchedForks(chain, forks, best.value)
         && switched == Some(best.value[|best.value| - 1])
       else
         chain' == chain && forks' == forks && switched.None?
  }

  /** No block is lost; without a switch nothing changes; with a switch the reorganisation is bounded. */
  ghost predicate SafeSwitch(rule: ForkRule, chain: seq<Block>, forks: Forks,
                             chain': seq<Block>, forks': Forks, switched: Option<Block>)
  {
    && SameBlocks(chain, forks, chain', forks')
    && (switched.None? ==> chain' == chain && forks' == forks)
    && (switched.Some? ==> BoundedSwitch(rule, chain, chain') && switched.value == chain'[|chain'| - 1])
  }

  /** The sandbox after a switch: the dropped blocks came in, the new ones left. */
  function SwitchedForks(chain: seq<Block>, forks: Forks, taken: seq<Block>): Forks
    requires Hangs(chain, taken)
  {
    Without(SetAllAside(forks, chain[taken[0].number..]), taken)
  }

  /** The new chain shares a prefix with the old one; at most `window - advance` old blocks were
      dropped, and the head is `advance` blocks and `time` of median time ahead. */
  ghost predicate BoundedSwitch(rule: ForkRule, chain: seq<Block>, chain': seq<Block>) {
    && chain != [] && chain' != []
    && |chain'| >= |chain| + rule.advance
    && chain'[|chain'| - 1].medianTime >= chain[|chain| - 1].medianTime + rule.time
    && exists kept: nat | 0 < kept <= |chain| :: chain[..kept] <= chain' && |chain| - kept <= rule.window - rule.advance
  }

  lemma BranchFits(verdict: Verdict, chain: seq<Block>, forks: Forks, marked: set<Stamp>, s: seq<Block>)
    requires ValidStore(verdict, chain, forks) && Branch(chain, forks, marked, s)
    ensures Hangs(chain, Reversed(s)) && forall b | b in Reversed(s) :: Listed(forks, b)
  {
    BranchIsLinked(verdict, chain, forks, marked, s);
  }

  lemma SuitesFit(verdict: Verdict, chain: seq<Block>, forks: Forks, marked: set<Stamp>, window: nat,
                  potentials: seq<Block>, suites: seq<seq<Block>>)
    requires ValidStore(verdict, chain, forks)
    requires SoundSuites(chain, forks, marked, window, potentials, suites)
    ensures AllFit(chain, forks, Ascending(suites))
    ensures forall s | s in Ascending(suites) :: |s| <= window
  {
    forall s | s in Ascending(suites)
      ensures Hangs(chain, s) && |s| <= window && forall b | b in s :: Listed(forks, b)
    {
      var i :| 0 <= i < |suites| && s == Reversed(suites[i]);
      assert suites[i] in suites;
      BranchFits(verdict, chain, forks, marked, suites[i]);
    }
  }

  lemma BestFits(verdict: Verdict, chain: seq<Block>, forks: Forks, window: nat, suites: seq<seq<Block>>)
    requires AllFit(chain, forks, suites)
    requires forall s | s in suites :: |s| <= window
    requires Best(Trial(verdict, chain, suites)).Some?
    ensures var best := Best(Trial(verdict, chain, suites)).value;
            && Hangs(chain, best) && |best| <= window
            && (forall b | b in best :: Listed(forks, b))
            && AcceptedLength(verdict, Base(chain, best), best) == |best|
  {
    var k := BestIsFirstHighest(Trial(verdict, chain, suites));
    var s := suites[k];
    assert s in suites;
    assert Best(Trial(verdict, chain, suites)).value == Taken(verdict, chain, s);
    TakenFits(verdict, chain, forks, s);
  }

  lemma TakenFits(verdict: Verdict, chain: seq<Block>, forks: Forks, s: seq<Block>)
    requires Hangs(chain, s) && (forall b | b in s :: Listed(forks, b)) && Taken(verdict, chain, s) != []
    ensures var taken := Taken(verdict, chain, s);
            && Hangs(chain, taken) && |taken| <= |s|
            && (forall b | b in taken :: Listed(forks, b))
            && AcceptedLength(verdict, Base(chain, taken), taken) == |taken|
  {
    TakenIsTakenWhole(verdict, Base(chain, s), s);
  }

  lemma TakenIsTakenWhole(verdict: Verdict, base: seq<Block>, s: seq<Block>)
    ensures var n := AcceptedLength(verdict, base, s); AcceptedLength(verdict, base, s[..n]) == n
  {
    var n := AcceptedLength(verdict, base, s);
    AcceptedLengthMeans(verdict, base, s, n);
    forall i | 0 <= i < n ensures Acceptable(verdict, base + s[..n][..i], s[..n][i]) {
      assert s[..n][..i] == s[..i];
    }
    AcceptedLengthMeans(verdict, base, s[..n], n);
  }

  /** Fork resolution safety. */
  lemma ForkResolutionIsSafe(verdict: Verdict, rule: ForkRule, chain: seq<Block>, forks: Forks, suites: seq<seq<Block>>,
                             chain': seq<Block>, forks': Forks, switched: Option<Block>)
    requires ValidStore(verdict, chain, forks) && chain != []
    requires ForkResolved(verdict, rule, chain, forks, suites, chain', forks', switched)
    ensures SafeSwitch(rule, chain, forks, chain', forks', switched)
  {
    if switched.Some? {
      var best := Best(Trial(verdict, chain, suites)).value;
      BestFits(verdict, chain, forks, rule.window, suites);
      SwitchKeepsBlocks(verdict, chain, forks, best);
      SwitchIsBounded(verdict, rule, chain, best);
    }
  }

  /** What the rule says of a resolution, in numbers of blocks and median times. */
  lemma SwitchMeans(verdict: Verdict, rule: ForkRule, chain: seq<Block>, forks: Forks, suites: seq<seq<Block>>,
                    chain': seq<Block>, forks': Forks, switched: Option<Block>)
    requires chain != [] && ForkResolved(verdict, rule, chain, forks, suites, chain', forks', switched)
    ensures var head, best := chain[|chain| - 1], Best(Trial(verdict, chain, suites));
            && (switched.Some? ==>
                  switched.value.number >= head.number + rule.advance
                  && switched.value.medianTime >= head.medianTime + rule.time)
            && (best.None? ==> switched.None?)
            && (best.Some? ==>
                  var last := best.value[|best.value| - 1];
                  switched ==
                  if last.number >= head.number + rule.advance && last.medianTime >= head.medianTime + rule.time
                  then Some(last) else None)
  {}

  lemma SwitchKeepsBlocks(verdict: Verdict, chain: seq<Block>, forks: Forks, taken: seq<Block>)
    requires ValidStore(verdict, chain, forks)
    requires Hangs(chain, taken) && forall b | b in taken :: Listed(forks, b)
    ensures SameBlocks(chain, forks, Base(chain, taken) + taken, SwitchedForks(chain, forks, taken))
  {
    var n := taken[0].number;
    RevertAllKeepsBlocks(verdict, chain, forks, n);
    RevertedStore(verdict, chain, forks, n, taken);
    var aside := SetAllAside(forks, chain[n..]);
    forall b | b in taken ensures Listed(aside, b) {
    }
    TakingKeepsBlocks(chain[..n], aside, taken);
  }

  lemma TakingKeepsBlocks(base: seq<Block>, forks: Forks, taken: seq<Block>)
    requires forall b | b in taken :: Listed(forks, b)
    ensures SameBlocks(base, forks, base + taken, Without(forks, taken))
  {
  }

  lemma SwitchIsBounded(verdict: Verdict, rule: ForkRule, chain: seq<Block>, taken: seq<Block>)
    requires AcceptedChain(verdict, chain) && chain != []
    requires Hangs(chain, taken) && |taken| <= rule.window
    requires AcceptedLength(verdict, Base(chain, taken), taken) == |taken|
    requires FarEnough(rule, chain[|chain| - 1], taken[|taken| - 1])
    ensures BoundedSwitch(rule, chain, Base(chain, taken) + taken)
  {
    var base := Base(chain, taken);
    AcceptedIsLinked(verdict, chain);
    TakenIsAcceptable(verdict, base, taken, |taken| - 1);
    assert chain[..|base|] <= base + taken;
  }

  lemma NextIsAcceptable(verdict: Verdict, base: seq<Block>, blocks: seq<Block>, i: nat)
    requires AcceptedChain(verdict, base + blocks)
    requires i < |blocks|
    ensures Acceptable(verdict, base + blocks[..i], blocks[i])
  {
    assert AcceptedAt(verdict, base + blocks, |base| + i);
    assert (base + blocks)[..|base| + i] == base + blocks[..i];
  }

  /** What reverting to height `n` leaves: known side blocks stay, the dropped ones join them, and
      taking the dropped ones back restores the sandbox. */
  lemma RevertedStore(verdict: Verdict, chain: seq<Block>, forks: Forks, n: nat, s: seq<Block>)
    requires ValidStore(verdict, chain, forks)
    requires n <= |chain| && forall b | b in s :: Listed(forks, b)
    ensures var dropped := chain[n..];
            && (forall b | b in s || b in dropped :: Listed(SetAllAside(forks, dropped), b))
            && Without(SetAllAside(forks, dropped), dropped) == forks
  {
    var dropped := chain[n..];
    AcceptedIsLinked(verdict, chain);
    assert forall i | 0 <= i < |dropped| :: dropped[i] == chain[n + i];
    AsideThenBack(forks, dropped);
    forall b | b in s || b in dropped ensures Listed(SetAllAside(forks, dropped), b) {
      SetAllAsideLookup(forks, dropped, Blockstamp(b));
    }
  }

  /** Once the chain is popped down to its fork point, the side chain can be added as a whole. */
  lemma SwitchIsPossible(verdict: Verdict, chain: seq<Block>, forks: Forks, taken: seq<Block>)
    requires ValidStore(verdict, chain, forks)
    requires Hangs(chain, taken) && forall b | b in taken :: Listed(forks, b)
    requires AcceptedLength(verdict, Base(chain, taken), taken) == |taken|
    ensures var n := taken[0].number;
            && AcceptedChain(verdict, chain[..n] + taken)
            && forall b | b in taken :: Listed(SetAllAside(forks, chain[n..]), b)
  {
    var n := taken[0].number;
    RevertedStore(verdict, chain, forks, n, taken);
    AcceptedPrefix(verdict, chain, n);
    TakenIsAccepted(verdict, chain[..n], taken, |taken|);
    assert taken[..|taken|] == taken;
  }

  /** The store after `n` blocks of `s` were added on top of `base`. */
  ghost predicate Extended(verdict: Verdict, base: seq<Block>, forks: Forks, s: seq<Block>, n: nat,
                           chain: seq<Block>, forks': Forks)
    requires n <= |s|
  {
    && chain == base + s[..n]
    && forks' == Without(forks, s[..n])
    && forall j | 0 <= j < n :: Acceptable(verdict, base + s[..j], s[j])
  }

  lemma NextIsFit(verdict: Verdict, base: seq<Block>, forks: Forks, s: seq<Block>, n: nat)
    requires ValidStore(verdict, base, forks)
    requires forall b | b in s :: Listed(forks, b)
    requires n < |s|
    ensures HashFits(base + s[..n], Without(forks, s[..n]), s[n])
  {
    assert s[n] in s;
    forall a | Known(base + s[..n], Without(forks, s[..n]), a) ensures Known(base, forks, a) {
      if a in s[..n] {
        assert a in s;
      }
    }
  }

  lemma NextIsExtended(verdict: Verdict, base: seq<Block>, forks: Forks, s: seq<Block>, n: nat)
    requires n < |s|
    requires Extended(verdict, base, forks, s, n, base + s[..n], Without(forks, s[..n]))
    requires Acceptable(verdict, base + s[..n], s[n])
    ensures s[..n + 1] == s[..n] + [s[n]]
    ensures Extended(verdict, base, forks, s, n + 1, base + s[..n] + [s[n]],
                     Without(forks, s[..n]) - {Blockstamp(s[n])})
  {
    assert s[..n + 1] == s[..n] + [s[n]];
  }

  /** Accepted blocks are numbered one after the other. */
  lemma TakenNumbers(verdict: Verdict, base: seq<Block>, s: seq<Block>, n: nat)
    requires n <= |s|
    requires forall j | 0 <= j < n :: Acceptable(verdict, base + s[..j], s[j])
    ensures forall j | 0 <= j < n :: s[j].number == |base| + j
    ensures DistinctStamps(s[..n])
    ensures n < |s| && Acceptable(verdict, base + s[..n], s[n]) ==>
              forall j | 0 <= j < n :: Blockstamp(s[j]) != Blockstamp(s[n])
  {
  }

  /** What holds after the candidates of `seen` were visited, where `names` are the blockstamps of all;
      the caches lose nothing when the search is `clean`, that is, when no side chain is hidden. */
  ghost predicate Searched(chain: seq<Block>, forks: Forks, marked: set<Stamp>, window: nat, clean: bool,
                           names: set<Stamp>, seen: seq<Block>, suites: seq<seq<Block>>, known: set<Stamp>,
                           invalids: set<string>)
  {
    && KnownForkBlocks(forks, known) && names <= known
    && SoundSuites(chain, forks, marked, window, seen, suites) && RootsUnnamed(suites, names)
    && (clean ==>
          && Origins(known) == Origins(names)
          && CompleteSuites(chain, forks, marked, window, seen, suites)
          && NoneInvalid(chain, forks, marked, invalids))
  }

  /** No rooted chain starts at a block whose hash is cached as invalid. */
  ghost predicate NoneInvalid(chain: seq<Block>, forks: Forks, marked: set<Stamp>, invalids: set<string>) {
    forall t: seq<Block> | Branch(chain, forks, marked, t) :: t[0].hash !in invalids
  }

  lemma StillNoneInvalid(verdict: Verdict, chain: seq<Block>, forks: Forks, marked: set<Stamp>,
                         invalids: set<string>, suite: seq<Block>)
    requires ValidStore(verdict, chain, forks)
    requires NoneInvalid(chain, forks, marked, invalids)
    requires suite != [] && Trail(chain, forks, marked, suite) && DeadEnd(chain, forks, marked, suite)
    requires forall i | 0 <= i < |suite| :: !Rooted(chain, forks, suite[i])
    ensures NoneInvalid(chain, forks, marked, invalids + set b | b in suite :: b.hash)
  {
    forall t: seq<Block> | Branch(chain, forks, marked, t)
      ensures t[0].hash !in invalids + set b | b in suite :: b.hash
    {
      forall i | 0 <= i < |suite| ensures suite[i].hash != t[0].hash {
        DeadTrailHasNoBranch(chain, forks, marked, suite, i, t);
        TrailIsLinked(verdict, chain, forks, marked, suite, i);
      }
    }
  }

  lemma PrefixGrows(candidates: seq<Block>, i: nat)
    requires i < |candidates|
    ensures forall b :: b in candidates[..i + 1] <==> b in candidates[..i] || b == candidates[i]
  {
    assert candidates[..i + 1] == candidates[..i] + [candidates[i]];
  }

  lemma SuitesAreApart(verdict: Verdict, chain: seq<Block>, forks: Forks, marked: set<Stamp>, window: nat,
                       candidates: seq<Block>, i: nat, suites: seq<seq<Block>>, suite: seq<Block>, j: nat)
    requires ValidStore(verdict, chain, forks)
    requires i < |candidates| && DescendingNumbers(candidates)
    requires SoundSuites(chain, forks, marked, window, candidates[..i], suites)
    requires forall s, b | s in suites && b in s :: Blockstamp(b) != Blockstamp(candidates[i])
    requires Branch(chain, forks, marked, suite) && suite[0] == candidates[i]
    requires j < |suites| && suites[j] != []
    ensures suites[j][0] !in suite && candidates[i] !in suites[j]
  {
    assert suites[j] in suites && suites[j][0] in suites[j];
    assert suites[j][0] in candidates[..i];
    HigherIsNotBelow(verdict, chain, forks, marked, suite, suites[j][0]);
  }

  lemma SuiteIsApart(verdict: Verdict, chain: seq<Block>, forks: Forks, marked: set<Stamp>, window: nat,
                     candidates: seq<Block>, i: nat, suites: seq<seq<Block>>, suite: seq<Block>)
    requires ValidStore(verdict, chain, forks)
    requires i < |candidates| && DescendingNumbers(candidates)
    requires SoundSuites(chain, forks, marked, window, candidates[..i], suites)
    requires forall s, b | s in suites && b in s :: Blockstamp(b) != Blockstamp(candidates[i])
    requires Branch(chain, forks, marked, suite) && |suite| <= window && suite[0] == candidates[i]
    ensures SoundSuites(chain, forks, marked, window, candidates[..i + 1], suites + [suite])
  {
    PrefixGrows(candidates, i);
    forall j | 0 <= j < |suites| && suites[j] != []
      ensures suites[j][0] !in suite && suite[0] !in suites[j]
    {
      SuitesAreApart(verdict, chain, forks, marked, window, candidates, i, suites, suite, j);
    }
    NoHeadTwice(suites, suite);
  }

  lemma NoHeadTwice(suites: seq<seq<Block>>, suite: seq<Block>)
    requires suite != []
    requires forall j, k | 0 <= j < |suites| && 0 <= k < |suites| && j != k && suites[j] != [] ::
               suites[j][0] !in suites[k]
    requires forall j | 0 <= j < |suites| && suites[j] != [] :: suites[j][0] !in suite && suite[0] !in suites[j]
    ensures var all := suites + [suite];
            forall j, k | 0 <= j < |all| && 0 <= k < |all| && j != k && all[j] != [] :: all[j][0] !in all[k]
  {
  }

  lemma HigherIsNotBelow(verdict: Verdict, chain: seq<Block>, forks: Forks, marked: set<Stamp>, s: seq<Block>, h: Block)
    requires ValidStore(verdict, chain, forks)
    requires Trail(chain, forks, marked, s)
    requires h.number >= s[0].number && h != s[0]
    ensures h !in s
  {
    forall k | 0 <= k < |s| ensures s[k] != h {
      TrailIsLinked(verdict, chain, forks, marked, s, k);
    }
  }

  lemma CompleteWithRoot(chain: seq<Block>, forks: Forks, marked: set<Stamp>, window: nat,
                         potentials: seq<Block>, suites: seq<seq<Block>>, suite: seq<Block>)
    requires suite != []
    ensures CompleteSuites(chain, forks, marked, window, potentials, suites) ==>
              CompleteSuites(chain, forks, marked, window, potentials + [suite[0]], suites + [suite])
  {
    if CompleteSuites(chain, forks, marked, window, potentials, suites) {
      forall t: seq<Block> | Branch(chain, forks, marked, t) && |t| <= window && t[0] in potentials + [suite[0]]
        ensures Covers(suites + [suite], t)
      {
        if t[0] in potentials {
          assert Covers(suites, t);
          var s :| s in suites && t[0] in s;
          assert s in suites + [suite];
        } else {
          assert suite in suites + [suite];
        }
      }
    }
  }

  lemma CompleteWithoutRoot(chain: seq<Block>, forks: Forks, marked: set<Stamp>, window: nat,
                            potentials: seq<Block>, suites: seq<seq<Block>>, candidate: Block,
                            suite: seq<Block>, missing: bool)
    requires CompleteSuites(chain, forks, marked, window, potentials, suites)
    requires suite == [] ==> window == 0
    requires suite != [] ==> suite[0] == candidate && Trail(chain, forks, marked, suite)
    requires forall i | 0 <= i < |suite| :: !Rooted(chain, forks, suite[i])
    requires missing ==> suite != [] && DeadEnd(chain, forks, marked, suite)
    requires !missing ==> |suite| == window
    ensures CompleteSuites(chain, forks, marked, window, potentials + [candidate], suites)
  {
    forall t: seq<Block> | Branch(chain, forks, marked, t) && |t| <= window && t[0] in potentials + [candidate]
      ensures Covers(suites, t)
    {
      if t[0] in potentials {
        assert Covers(suites, t);
      } else if missing {
        DeadTrailHasNoBranch(chain, forks, marked, suite, 0, t);
      } else if suite != [] {
        LongTrailHasNoShortBranch(chain, forks, marked, suite, t);
      }
    }
  }

  lemma CompleteWhenSkipped(verdict: Verdict, chain: seq<Block>, forks: Forks, marked: set<Stamp>, window: nat,
                            potentials: seq<Block>, suites: seq<seq<Block>>, candidate: Block, invalids: set<string>)
    requires ValidStore(verdict, chain, forks)
    requires CompleteSuites(chain, forks, marked, window, potentials, suites)
    requires NoneInvalid(chain, forks, marked, invalids)
    requires forall s | s in suites :: Branch(chain, forks, marked, s)
    requires Listed(forks, candidate)
    requires candidate.hash in invalids || exists s, b | s in suites && b in s :: Blockstamp(b) == Blockstamp(candidate)
    ensures CompleteSuites(chain, forks, marked, window, potentials + [candidate], suites)
  {
    forall t: seq<Block> | Branch(chain, forks, marked, t) && |t| <= window && t[0] in potentials + [candidate]
      ensures Covers(suites, t)
    {
      if t[0] in potentials {
        assert Covers(suites, t);
      } else {
        assert t[0].hash !in invalids;
        var s, b :| s in suites && b in s && Blockstamp(b) == Blockstamp(candidate);
        var i :| 0 <= i < |s| && s[i] == b;
        TrailIsLinked(verdict, chain, forks, marked, s, i);
        assert b == candidate;
      }
    }
  }

  // ---- One candidate more ----

  lemma SearchedWhenSkipped(verdict: Verdict, chain: seq<Block>, forks: Forks, marked: set<Stamp>, window: nat,
                            clean: bool, names: set<Stamp>, candidates: seq<Block>, i: nat, suites: seq<seq<Block>>,
                            known: set<Stamp>, invalids: set<string>)
    requires ValidStore(verdict, chain, forks) && i < |candidates| && Listed(forks, candidates[i])
    requires Searched(chain, forks, marked, window, clean, names, candidates[..i], suites, known, invalids)
    requires || candidates[i].hash in invalids
             || exists s, b | s in suites && b in s :: Blockstamp(b) == Blockstamp(candidates[i])
    ensures Searched(chain, forks, marked, window, clean, names, candidates[..i + 1], suites, known, invalids)
  {
    var c := candidates[i];
    assert candidates[..i + 1] == candidates[..i] + [c];
    if clean {
      CompleteWhenSkipped(verdict, chain, forks, marked, window, candidates[..i], suites, c, invalids);
    }
  }

  lemma SearchedWithRoot(verdict: Verdict, chain: seq<Block>, forks: Forks, marked: set<Stamp>, window: nat,
                         clean: bool, names: set<Stamp>, candidates: seq<Block>, i: nat, suites: seq<seq<Block>>,
                         known: set<Stamp>, known': set<Stamp>, invalids: set<string>, suite: seq<Block>)
    requires ValidStore(verdict, chain, forks) && i < |candidates| && DescendingNumbers(candidates)
    requires Searched(chain, forks, marked, window, clean, names, candidates[..i], suites, known, invalids)
    requires KnownForkBlocks(forks, known') && known <= known' && (clean ==> Origins(known') == Origins(known))
    requires forall s, b | s in suites && b in s :: Blockstamp(b) != Blockstamp(candidates[i])
    requires Branch(chain, forks, marked, suite) && |suite| <= window && suite[0] == candidates[i]
    requires PreviousStamp(suite[|suite| - 1]) !in known
    ensures Searched(chain, forks, marked, window, clean, names, candidates[..i + 1], suites + [suite], known',
                     invalids)
  {
    assert candidates[..i + 1] == candidates[..i] + [candidates[i]];
    SuiteIsApart(verdict, chain, forks, marked, window, candidates, i, suites, suite);
    CompleteWithRoot(chain, forks, marked, window, candidates[..i], suites, suite);
  }

  lemma SearchedWithoutRoot(verdict: Verdict, chain: seq<Block>, forks: Forks, marked: set<Stamp>, window: nat,
                            clean: bool, names: set<Stamp>, candidates: seq<Block>, i: nat, suites: seq<seq<Block>>,
                            known: set<Stamp>, known': set<Stamp>, invalids: set<string>, suite: seq<Block>,
                            missing: bool)
    requires ValidStore(verdict, chain, forks) && i < |candidates|
    requires Searched(chain, forks, marked, window, clean, names, candidates[..i], suites, known, invalids)
    requires KnownForkBlocks(forks, known') && known <= known' && (clean ==> Origins(known') == Origins(known))
    requires suite == [] ==> window == 0 && !missing
    requires suite != [] ==> suite[0] == candidates[i] && Trail(chain, forks, marked, suite)
    requires clean ==> forall j | 0 <= j < |suite| :: !Rooted(chain, forks, suite[j])
    requires missing ==> suite != [] && DeadEnd(chain, forks, marked, suite)
    requires !missing ==> |suite| == window
    ensures Searched(chain, forks, marked, window, clean, names, candidates[..i + 1], suites, known',
                     if missing then invalids + set b | b in suite :: b.hash else invalids)
  {
    assert candidates[..i + 1] == candidates[..i] + [candidates[i]];
    if clean {
      CompleteWithoutRoot(chain, forks, marked, window, candidates[..i], suites, candidates[i], suite, missing);
      if missing {
        StillNoneInvalid(verdict, chain, forks, marked, invalids, suite);
      }
    }
  }

  /** While nothing is hidden, a walk skips no lookup on block #0. */
  lemma WalkIsUnshadowed(verdict: Verdict, chain: seq<Block>, forks: Forks, marked: set<Stamp>, window: nat,
                         candidates: seq<Block>, i: nat, known: set<Stamp>, suite: seq<Block>)
    requires ValidStore(verdict, chain, forks) && i < |candidates|
    requires NoneHidden(chain, forks, marked, window, candidates) && Origins(known) == Origins(Names(candidates))
    requires |suite| <= window
    requires suite != [] ==> suite[0] == candidates[i] && Trail(chain, forks, marked, suite)
    requires forall j | 0 <= j < |suite| - 1 && suite[j].number >= 2 :: !Rooted(chain, forks, suite[j])
    ensures Unshadowed(chain, known, suite)
  {
    if chain != [] {
      forall b | b in suite && b.number == 1 ensures PreviousStamp(b) !in known {
        var j :| 0 <= j < |suite| && suite[j] == b;
        WalkToFirst(verdict, chain, forks, marked, suite, j);
        assert !Hidden(chain, forks, marked, window, candidates, suite[..j + 1]);
        assert PreviousStamp(b) in known ==> PreviousStamp(b) in Origins(known);
      }
    }
  }

  /** Of the blocks of a walk none is rooted, as far as their lookups were not skipped on block #0. */
  ghost predicate NoRootMissed(chain: seq<Block>, forks: Forks, known: set<Stamp>, suite: seq<Block>) {
    forall i | 0 <= i < |suite| && (suite[i].number >= 2 || Unshadowed(chain, known, suite)) ::
      !Rooted(chain, forks, suite[i])
  }

  /** What a walk adds to the cache of fork blocks. */
  ghost predicate CacheGrows(chain: seq<Block>, forks: Forks, known: set<Stamp>, now: set<Stamp>, suite: seq<Block>) {
    && KnownForkBlocks(forks, now) && known <= now
    && (Unshadowed(chain, known, suite) ==> Origins(now) == Origins(known))
  }

  /** The lookup of the predecessor of `b` on the main chain is skipped for a side block only. */
  lemma LookupIsNotSkipped(verdict: Verdict, chain: seq<Block>, forks: Forks, known: set<Stamp>, now: set<Stamp>,
                           above: seq<Block>, b: Block)
    requires ValidStore(verdict, chain, forks) && CacheGrows(chain, forks, known, now, above)
    ensures Unshadowed(chain, known, above + [b]) ==> Unshadowed(chain, known, above)
    ensures Rooted(chain, forks, b) && (b.number >= 2 || Unshadowed(chain, known, above + [b])) ==>
              PreviousStamp(b) !in now
    ensures CacheGrows(chain, forks, known, now, above + [b])
  {
    RootedMeans(verdict, chain, forks, b);
    if Unshadowed(chain, known, above + [b]) && chain != [] {
      assert forall a | a in above :: a in above + [b];
      assert b in above + [b];
      assert PreviousStamp(b) in now && b.number == 1 ==> PreviousStamp(b) in Origins(now);
    }
  }

  /** One block more of a walk that does not end there. */
  lemma WalkOn(verdict: Verdict, chain: seq<Block>, forks: Forks, known: set<Stamp>, now: set<Stamp>,
               above: seq<Block>, b: Block)
    requires ValidStore(verdict, chain, forks)
    requires CacheGrows(chain, forks, known, now, above) && NoRootMissed(chain, forks, known, above)
    requires PreviousStamp(b) in now || !Rooted(chain, forks, b)
    ensures NoRootMissed(chain, forks, known, above + [b])
    ensures var p := Predecessor(chain, forks, b);
            p.Some? ==> CacheGrows(chain, forks, known, now + {Blockstamp(p.value)}, above + [b])
  {
    var suite := above + [b];
    LookupIsNotSkipped(verdict, chain, forks, known, now, above, b);
    PredecessorIsKnown(verdict, chain, forks, b);
    RootedMeans(verdict, chain, forks, b);
    forall i | 0 <= i < |suite| && (suite[i].number >= 2 || Unshadowed(chain, known, suite))
      ensures !Rooted(chain, forks, suite[i])
    {
      assert i < |above| ==> suite[i] == above[i];
    }
  }

  /** A walk that comes down to a block #1 is a rooted side chain up to there. */
  lemma WalkToFirst(verdict: Verdict, chain: seq<Block>, forks: Forks, marked: set<Stamp>, suite: seq<Block>, j: nat)
    requires ValidStore(verdict, chain, forks) && chain != []
    requires j < |suite| && suite[j].number == 1 && Trail(chain, forks, marked, suite)
    requires forall m | 0 <= m < |suite| - 1 && suite[m].number >= 2 :: !Rooted(chain, forks, suite[m])
    ensures Branch(chain, forks, marked, suite[..j + 1])
  {
    var t := suite[..j + 1];
    RootedMeans(verdict, chain, forks, suite[j]);
    TrailIsLinked(verdict, chain, forks, marked, suite, j);
    forall m | 0 <= m < |t| - 1 ensures Link(chain, forks, marked, t, m) && !Rooted(chain, forks, t[m]) {
      assert Link(chain, forks, marked, suite, m);
      TrailIsLinked(verdict, chain, forks, marked, suite, m);
    }
  }

  /** A search that loses nothing has nothing hidden from it. */
  lemma CompleteHidesNone(chain: seq<Block>, forks: Forks, marked: set<Stamp>, window: nat, potentials: seq<Block>,
                          suites: seq<seq<Block>>)
    requires SoundSuites(chain, forks, marked, window, potentials, suites) && RootsUnnamed(suites, Names(potentials))
    ensures CompleteSuites(chain, forks, marked, window, potentials, suites) ==>
              NoneHidden(chain, forks, marked, window, potentials)
  {
    if CompleteSuites(chain, forks, marked, window, potentials, suites) {
      forall t: seq<Block> ensures !Hidden(chain, forks, marked, window, potentials, t) {
        if Branch(chain, forks, marked, t) && |t| <= window && t[0] in potentials {
          assert Covers(suites, t);
          var s :| s in suites && t[0] in s;
          var i :| 0 <= i < |s| && s[i] == t[0];
          BranchesAgree(chain, forks, marked, s, i, t);
          assert t[|t| - 1] == s[|s| - 1];
        }
      }
    }
  }

  lemma ExtendTrail(chain: seq<Block>, forks: Forks, marked: set<Stamp>, s: seq<Block>, b: Block)
    requires s != [] ==> Trail(chain, forks, marked, s)
    requires s != [] ==> Predecessor(chain, forks, s[|s| - 1]) == Some(b) && Blockstamp(b) !in marked
    requires s == [] ==> Listed(forks, b)
    ensures Trail(chain, forks, marked, s + [b])
  {
    forall i | 0 <= i < |s| ensures Link(chain, forks, marked, s + [b], i) {
      assert i < |s| - 1 ==> Link(chain, forks, marked, s, i);
    }
  }

  /** The blocks of a trail above its last one are numbered from 2 on, if the last one is
      numbered from 1 on. */
  lemma TrailIsHigh(verdict: Verdict, chain: seq<Block>, forks: Forks, marked: set<Stamp>, s: seq<Block>)
    requires ValidStore(verdict, chain, forks)
    requires Trail(chain, forks, marked, s)
    requires s[|s| - 1].number >= 1
    ensures forall i | 0 <= i < |s| - 1 :: s[i].number >= 2
  {
    TrailIsLinked(verdict, chain, forks, marked, s, |s| - 1);
    forall i | 0 <= i < |s| - 1 ensures s[i].number >= 2 {
      TrailIsLinked(verdict, chain, forks, marked, s, i);
    }
  }

  class Switcher {
    const dao: Dao
    const invalidForks: InvalidForks
    const avgGenTime: nat
    const forkWindowSize: nat
    const switchOnHeadAdvance: nat

    constructor (dao: Dao, invalidForks: InvalidForks, avgGenTime: nat, forkWindowSize: nat, switchOnHeadAdvance: nat)
      ensures this.dao == dao && this.invalidForks == invalidForks
      ensures this.avgGenTime == avgGenTime && this.forkWindowSize == forkWindowSize
      ensures this.switchOnHeadAdvance == switchOnHeadAdvance
    {
      this.dao, this.invalidForks := dao, invalidForks;
      this.avgGenTime, this.forkWindowSize := avgGenTime, forkWindowSize;
      this.switchOnHeadAdvance := switchOnHeadAdvance;
    }

    /** The inner loop of `findPotentialSuites`: walks down from `candidate` to the main chain. */
    method FollowSuite(candidate: Block, known: set<Stamp>)
      returns (suite: seq<Block>, commonRootFound: bool, missing: bool, known': set<Stamp>)
      requires dao.Valid()
      requires Listed(dao.forks, candidate) && KnownForkBlocks(dao.forks, known)
      ensures CacheGrows(dao.chain, dao.forks, known, known', suite)
      ensures |suite| <= forkWindowSize
      ensures suite == [] ==> forkWindowSize == 0 && !missing && !commonRootFound
      ensures suite != [] ==> suite[0] == candidate && Trail(dao.chain, dao.forks, invalidForks.Marked(), suite)
      ensures commonRootFound ==> suite != [] && Branch(dao.chain, dao.forks, invalidForks.Marked(), suite)
      ensures commonRootFound ==> PreviousStamp(suite[|suite| - 1]) !in known
      ensures !commonRootFound ==> NoRootMissed(dao.chain, dao.forks, known, suite)
      ensures forall i | 0 <= i < |suite| - 1 && suite[i].number >= 2 :: !Rooted(dao.chain, dao.forks, suite[i])
      ensures !commonRootFound && missing ==> suite != [] && DeadEnd(dao.chain, dao.forks, invalidForks.Marked(), suite)
      ensures !commonRootFound && !missing ==> |suite| == forkWindowSize
    {
      ghost var chain, forks, marked := dao.chain, dao.forks, invalidForks.Marked();
      suite, commonRootFound, known' := [], false, known;
      var previous := Some(candidate);
      while previous.Some? && previous.value.number > candidate.number - forkWindowSize
        invariant |suite| <= forkWindowSize
        invariant previous.Some? ==> previous.value.number == candidate.number - |suite|
        invariant previous.Some? && suite == [] ==> previous.value == candidate
        invariant previous.Some? && suite != [] ==>
                    && Predecessor(chain, forks, suite[|suite| - 1]) == previous
                    && Blockstamp(previous.value) !in marked
        invariant previous.None? ==> suite != []
        invariant suite != [] ==> suite[0] == candidate && Trail(chain, forks, marked, suite)
        invariant !commonRootFound ==> NoRootMissed(chain, forks, known, suite)
        invariant commonRootFound ==> previous.None? && Branch(chain, forks, marked, suite)
        invariant commonRootFound ==> PreviousStamp(suite[|suite| - 1]) !in known
        invariant !commonRootFound && previous.None? ==> DeadEnd(chain, forks, marked, suite)
        invariant CacheGrows(chain, forks, known, known', suite)
        decreases forkWindowSize - |suite|
      {
        ghost var above := suite;
        var b := previous.value;
        suite := suite + [b];
        ExtendTrail(chain, forks, marked, above, b);
        PredecessorIsKnown(dao.verdict, chain, forks, b);
        RootedMeans(dao.verdict, chain, forks, b);
        LookupIsNotSkipped(dao.verdict, chain, forks, known, known', above, b);
        previous := None;
        if PreviousStamp(b) !in known' {
          previous := ValidBlock(dao.chain, dao.forks, b.number - 1, b.previousHash);
        }
        if previous.Some? {
          previous := None;
          commonRootFound := true;
          TrailIsHigh(dao.verdict, chain, forks, marked, suite);
        } else {
          WalkOn(dao.verdict, chain, forks, known, known', above, b);
          previous := AbsoluteBlock(dao.chain, dao.forks, b.number - 1, b.previousHash);
          if previous.Some? {
            known' := known' + {Blockstamp(previous.value)};
            if Blockstamp(previous.value) in invalidForks.stamps {
              previous := None;
            }
          }
        }
      }
      missing := previous.None?;
    }

    /** What holds when `i` of the candidates were visited. */
    ghost predicate Searching(candidates: seq<Block>, i: nat, suites: seq<seq<Block>>, known: set<Stamp>,
                              invalids: set<string>)
      requires i <= |candidates|
      reads dao, invalidForks
    {
      var marked := invalidForks.Marked();
      Searched(dao.chain, dao.forks, marked, forkWindowSize,
               NoneHidden(dao.chain, dao.forks, marked, forkWindowSize, candidates), Names(candidates),
               candidates[..i], suites, known, invalids)
    }

    /** The body of the loop of `findPotentialSuites`. */
    method VisitCandidate(candidates: seq<Block>, i: nat, suites: seq<seq<Block>>, known: set<Stamp>,
                          invalids: set<string>)
      returns (suites': seq<seq<Block>>, known': set<Stamp>, invalids': set<string>)
      requires dao.Valid()
      requires i < |candidates| && DescendingNumbers(candidates) && Listed(dao.forks, candidates[i])
      requires Searching(candidates, i, suites, known, invalids)
      ensures Searching(candidates, i + 1, suites', known', invalids')
    {
      ghost var chain, forks, marked := dao.chain, dao.forks, invalidForks.Marked();
      ghost var names, clean := Names(candidates), NoneHidden(chain, forks, marked, forkWindowSize, candidates);
      var candidate := candidates[i];
      assert candidates[..i + 1] == candidates[..i] + [candidate];
      suites', known', invalids' := suites, known, invalids;
      var contained := SuitesContains(suites, candidate);
      if candidate.hash in invalids || contained {
        SearchedWhenSkipped(dao.verdict, chain, forks, marked, forkWindowSize, clean, names, candidates, i, suites,
                            known, invalids);
        return;
      }
      var suite, commonRootFound, missing, cached := FollowSuite(candidate, known);
      known' := cached;
      if clean {
        WalkIsUnshadowed(dao.verdict, chain, forks, marked, forkWindowSize, candidates, i, known, suite);
      }
      if commonRootFound {
        SearchedWithRoot(dao.verdict, chain, forks, marked, forkWindowSize, clean, names, candidates, i, suites, known,
                         known', invalids, suite);
        suites' := suites + [suite];
        return;
      }
      SearchedWithoutRoot(dao.verdict, chain, forks, marked, forkWindowSize, clean, names, candidates, i, suites,
                          known, known', invalids, suite, missing);
      if missing {
        invalids' := invalids + set b | b in suite :: b.hash;
      }
    }

    /** Phase 1: the side chains to try, each starting at a potential block. */
    method FindPotentialSuites(numberStart: int, timeStart: int)
      returns (suites: seq<seq<Block>>, ghost potentials: seq<Block>)
      requires dao.Valid()
      ensures forall b :: b in potentials <==>
                          && Listed(dao.forks, b)
                          && numberStart <= b.number <= numberStart + forkWindowSize
                          && timeStart <= b.medianTime
      ensures SoundSuites(dao.chain, dao.forks, invalidForks.Marked(), forkWindowSize, potentials, suites)
      ensures CompleteSuites(dao.chain, dao.forks, invalidForks.Marked(), forkWindowSize, potentials, suites) <==>
              NoneHidden(dao.chain, dao.forks, invalidForks.Marked(), forkWindowSize, potentials)
    {
      suites := [];
      var found := dao.Potentials(numberStart, timeStart, numberStart + forkWindowSize);
      var candidates := SortByNumber(found);
      SameElements(candidates, found);
      potentials := candidates;
      var known: set<Stamp> := set b | b in candidates :: Blockstamp(b);
      var invalids: set<string> := {};
      var i := 0;
      while i < |candidates|
        invariant 0 <= i <= |candidates|
        invariant Searching(candidates, i, suites, known, invalids)
      {
        suites, known, invalids := VisitCandidate(candidates, i, suites, known, invalids);
        i := i + 1;
      }
      assert candidates[..i] == candidates;
      CompleteHidesNone(dao.chain, dao.forks, invalidForks.Marked(), forkWindowSize, candidates, suites);
    }

    /** Phase 1, for the head `current`. */
    method Search(current: Block) returns (suites: seq<seq<Block>>, ghost potentials: seq<Block>)
      requires dao.Valid() && dao.Current() == Some(current)
      ensures SearchDone(Rule(), dao.chain, dao.forks, invalidForks.Marked(), potentials, suites)
      ensures AllFit(dao.chain, dao.forks, Ascending(suites))
      ensures forall s | s in Ascending(suites) :: |s| <= forkWindowSize
      ensures forall b :: b in potentials <==>
                && Listed(dao.forks, b)
                && b.number >= current.number + switchOnHeadAdvance
                && b.number <= current.number + switchOnHeadAdvance + forkWindowSize
                && b.medianTime >= current.medianTime + switchOnHeadAdvance * avgGenTime
    {
      var numberStart := current.number + switchOnHeadAdvance;
      var timeStart := current.medianTime + switchOnHeadAdvance * avgGenTime;
      suites, potentials := FindPotentialSuites(numberStart, timeStart);
      SuitesFit(dao.verdict, dao.chain, dao.forks, invalidForks.Marked(), forkWindowSize, potentials, suites);
    }

    /** Phases 2 and 3, with what the 3-3 rule says of them. */
    method SelectSafely(current: Block, suites: seq<seq<Block>>) returns (switched: Option<Block>)
      requires dao.Valid() && dao.Current() == Some(current)
      requires AllFit(dao.chain, dao.forks, Ascending(suites))
      requires forall s | s in Ascending(suites) :: |s| <= forkWindowSize
      modifies dao`chain, dao`forks, invalidForks
      ensures dao.Valid()
      ensures ForkResolved(dao.verdict, Rule(), old(dao.chain), old(dao.forks), Ascending(suites),
                           dao.chain, dao.forks, switched)
      ensures invalidForks.stamps == old(invalidForks.stamps) + AllMarks(dao.verdict, old(dao.chain), Ascending(suites))
      ensures SafeSwitch(Rule(), old(dao.chain), old(dao.forks), dao.chain, dao.forks, switched)
      ensures switched.Some? ==>
                && switched.value.number >= current.number + switchOnHeadAdvance
                && switched.value.medianTime >= current.medianTime + switchOnHeadAdvance * avgGenTime
      ensures AllHang(old(dao.chain), Ascending(suites)) ==>
                var best := Best(Trial(dao.verdict, old(dao.chain), Ascending(suites)));
                && (best.None? ==> switched.None?)
                && (best.Some? ==>
                      var last := best.value[|best.value| - 1];
                      switched ==
                      if && last.number >= current.number + switchOnHeadAdvance
                         && last.medianTime >= current.medianTime + switchOnHeadAdvance * avgGenTime
                      then Some(last) else None)
    {
      ghost var before, forks := dao.chain, dao.forks;
      switched := SelectChain(current, suites);
      ForkResolutionIsSafe(dao.verdict, Rule(), before, forks, Ascending(suites), dao.chain, dao.forks, switched);
      SwitchMeans(dao.verdict, Rule(), before, forks, Ascending(suites), dao.chain, dao.forks, switched);
    }

    /** One attempt of that loop: a refused block is marked as incorrect. */
    method AddOrMark(s: seq<Block>, i: nat, ghost base: seq<Block>, ghost forks: Forks) returns (added: bool)
      requires dao.Valid()
      requires ValidStore(dao.verdict, base, forks) && forall b | b in s :: Listed(forks, b)
      requires i < |s| && Extended(dao.verdict, base, forks, s, i, dao.chain, dao.forks)
      modifies dao`chain, dao`forks, invalidForks
      ensures dao.Valid()
      ensures added <==> Acceptable(dao.verdict, base + s[..i], s[i])
      ensures added ==> s[..i + 1] == s[..i] + [s[i]] && invalidForks.stamps == old(invalidForks.stamps)
      ensures !added ==> invalidForks.stamps == old(invalidForks.stamps) + [Blockstamp(s[i])]
      ensures Extended(dao.verdict, base, forks, s, if added then i + 1 else i, dao.chain, dao.forks)
    {
      NextIsFit(dao.verdict, base, forks, s, i);
      var result := dao.AddBlock(s[i]);
      added := result.Success?;
      if added {
        NextIsExtended(dao.verdict, base, forks, s, i);
      } else {
        invalidForks.stamps := invalidForks.stamps + [Blockstamp(s[i])];
      }
    }

    /** Tries to add a maximum of blocks of `s` on the chain, which stands at its fork point. */
    method AddMaximum(s: seq<Block>) returns (successfulBlocks: seq<Block>)
      requires dao.Valid()
      requires forall b | b in s :: Listed(dao.forks, b)
      modifies dao`chain, dao`forks, invalidForks
      ensures dao.Valid()
      ensures successfulBlocks == s[..AcceptedLength(dao.verdict, old(dao.chain), s)]
      ensures dao.chain == old(dao.chain) + successfulBlocks
      ensures dao.forks == Without(old(dao.forks), successfulBlocks)
      ensures DistinctStamps(successfulBlocks)
      ensures invalidForks.stamps == old(invalidForks.stamps) +
                (var n := |successfulBlocks|; if n < |s| then [Blockstamp(s[n])] else [])
    {
      ghost var base, forks, stamps := dao.chain, dao.forks, invalidForks.stamps;
      var added, i := true, 0;
      successfulBlocks := [];
      ghost var n := 0;
      assert base + s[..0] == base && Without(forks, s[..0]) == forks;
      while added && i < |s|
        invariant 0 <= n <= i <= |s|
        invariant n == if added then i else i - 1
        invariant dao.Valid()
        invariant successfulBlocks == s[..n]
        invariant Extended(dao.verdict, base, forks, s, n, dao.chain, dao.forks)
        invariant added ==> invalidForks.stamps == stamps
        invariant !added ==>
                    && !Acceptable(dao.verdict, base + s[..n], s[n])
                    && invalidForks.stamps == stamps + [Blockstamp(s[n])]
      {
        added := AddOrMark(s, i, base, forks);
        if added {
          successfulBlocks := successfulBlocks + [s[i]];
          n := n + 1;
        }
        i := i + 1;
      }
      AcceptedLengthMeans(dao.verdict, base, s, n);
      TakenNumbers(dao.verdict, base, s, n);
    }

    /** Adds blocks that the chain is known to take, one after the other; none is refused. */
    method AddAll(blocks: seq<Block>)
      requires dao.Valid()
      requires AcceptedChain(dao.verdict, dao.chain + blocks)
      requires forall b | b in blocks :: Listed(dao.forks, b)
      modifies dao`chain, dao`forks
      ensures dao.Valid()
      ensures dao.chain == old(dao.chain) + blocks
      ensures dao.forks == Without(old(dao.forks), blocks)
    {
      ghost var base, forks := dao.chain, dao.forks;
      var i := 0;
      assert base + blocks[..0] == base && Without(forks, blocks[..0]) == forks;
      while i < |blocks|
        invariant 0 <= i <= |blocks|
        invariant dao.Valid()
        invariant Extended(dao.verdict, base, forks, blocks, i, dao.chain, dao.forks)
      {
        NextIsFit(dao.verdict, base, forks, blocks, i);
        NextIsAcceptable(dao.verdict, base, blocks, i);
        NextIsExtended(dao.verdict, base, forks, blocks, i);
        var added := dao.AddBlock(blocks[i]);
        assert added.Success?;
        i := i + 1;
      }
      assert blocks[..i] == blocks;
    }

    /** Pops the successfully added blocks, marking them. */
    method PopSuccessful(successfulBlocks: seq<Block>, forkPoint: nat, ghost base: seq<Block>, ghost aside: Forks)
      requires dao.Valid()
      requires |base| == forkPoint + 1 && dao.chain == base + successfulBlocks
      requires dao.forks == Without(aside, successfulBlocks)
      requires DistinctStamps(successfulBlocks) && forall b | b in successfulBlocks :: Listed(aside, b)
      modifies dao`chain, dao`forks, invalidForks
      ensures dao.Valid() && dao.chain == base && dao.forks == aside
      ensures invalidForks.stamps == old(invalidForks.stamps) + Stamps(successfulBlocks)
    {
      if successfulBlocks != [] {
        invalidForks.stamps := invalidForks.stamps + Stamps(successfulBlocks);
        assert dao.chain[..forkPoint + 1] == base;
        assert dao.chain[forkPoint + 1..] == successfulBlocks;
        TakenThenAside(aside, successfulBlocks);
        var rolledBack := dao.RevertTo(forkPoint);
        assert rolledBack.Success?;
      } else {
        assert base + successfulBlocks == base && Without(aside, successfulBlocks) == aside;
      }
    }

    /** Adds a maximum of blocks at the fork point, then pops them. */
    method AddThenPop(s: seq<Block>, forkPoint: nat) returns (successfulBlocks: seq<Block>)
      requires dao.Valid()
      requires |dao.chain| == forkPoint + 1 && forall b | b in s :: Listed(dao.forks, b)
      modifies dao`chain, dao`forks, invalidForks
      ensures dao.Valid() && dao.chain == old(dao.chain) && dao.forks == old(dao.forks)
      ensures successfulBlocks == s[..AcceptedLength(dao.verdict, dao.chain, s)]
      ensures invalidForks.stamps == old(invalidForks.stamps) + MarksAt(s, |successfulBlocks|)
    {
      ghost var base, aside := dao.chain, dao.forks;
      successfulBlocks := AddMaximum(s);
      PopSuccessful(successfulBlocks, forkPoint, base, aside);
    }

    /** One round of `findLongestChain`: tries a suite and puts the chain back as it was. */
    method TrySuite(s: seq<Block>) returns (successfulBlocks: seq<Block>)
      requires dao.Valid()
      requires Hangs(dao.chain, s) && forall b | b in s :: Listed(dao.forks, b)
      modifies dao`chain, dao`forks, invalidForks
      ensures dao.Valid()
      ensures dao.chain == old(dao.chain) && dao.forks == old(dao.forks)
      ensures successfulBlocks == Taken(dao.verdict, dao.chain, s)
      ensures invalidForks.stamps == old(invalidForks.stamps) + Marks(dao.verdict, dao.chain, s)
    {
      ghost var chain, forks := dao.chain, dao.forks;
      var forkPoint := s[0].number - 1;
      RevertedStore(dao.verdict, chain, forks, forkPoint + 1, s);
      var reverted := dao.RevertTo(forkPoint);
      assert dao.chain == Base(chain, s);
      assert forall b | b in s :: Listed(dao.forks, b);
      successfulBlocks := AddThenPop(s, forkPoint);
      PutBack(Reversed(reverted.value), chain, forks, forkPoint + 1);
    }

    /** The better of the longest chain so far and of what was just added. */
    method KeepLongest(longest: Option<seq<Block>>, successfulBlocks: seq<Block>)
      returns (longestChain: Option<seq<Block>>)
      requires longest.Some? ==> longest.value != []
      ensures longestChain == Better(longest, successfulBlocks)
    {
      longestChain := longest;
      if successfulBlocks != [] {
        var successHEAD := successfulBlocks[|successfulBlocks| - 1];
        if longestChain.None? || longestChain.value[|longestChain.value| - 1].number < successHEAD.number {
          longestChain := Some(successfulBlocks);
        }
      }
    }

    /** Re-adds the reverted blocks, lowest first: the store is as it was. */
    method PutBack(initial: seq<Block>, ghost chain: seq<Block>, ghost forks: Forks, ghost n: nat)
      requires dao.Valid() && ValidStore(dao.verdict, chain, forks)
      requires n <= |chain| && initial == chain[n..]
      requires dao.chain == chain[..n] && dao.forks == SetAllAside(forks, chain[n..])
      modifies dao`chain, dao`forks
      ensures dao.Valid() && dao.chain == chain && dao.forks == forks
    {
      RevertedStore(dao.verdict, chain, forks, n, []);
      assert chain[..n] + initial == chain;
      AddAll(initial);
    }

    /** Phase 2: tries every suite on the live chain and remembers the best outcome. */
    method FindLongestChain(suites: seq<seq<Block>>) returns (longestChain: Option<seq<Block>>)
      requires dao.Valid()
      requires AllFit(dao.chain, dao.forks, Ascending(suites))
      modifies dao`chain, dao`forks, invalidForks
      ensures dao.Valid()
      ensures dao.chain == old(dao.chain) && dao.forks == old(dao.forks)
      ensures longestChain == Best(Trial(dao.verdict, dao.chain, Ascending(suites)))
      ensures invalidForks.stamps == old(invalidForks.stamps) + AllMarks(dao.verdict, dao.chain, Ascending(suites))
    {
      ghost var chain, forks, stamps := dao.chain, dao.forks, invalidForks.stamps;
      ghost var tried := Ascending(suites);
      longestChain := None;
      var i := 0;
      while i < |suites|
        invariant 0 <= i <= |suites|
        invariant dao.Valid() && dao.chain == chain && dao.forks == forks
        invariant Remembered(dao.verdict, chain, tried, i, longestChain, stamps, invalidForks.stamps)
      {
        var s := Reversed(suites[i]);
        assert s == tried[i] && s in tried;
        ghost var marked := invalidForks.stamps;
        var successfulBlocks := TrySuite(s);
        RememberedStep(dao.verdict, chain, tried, i, longestChain, stamps, marked);
        longestChain := KeepLongest(longestChain, successfulBlocks);
        i := i + 1;
      }
      AllRemembered(dao.verdict, chain, tried, longestChain, stamps, invalidForks.stamps);
    }

    /** Pops the top of the chain and puts `chain` in its place. */
    method SwitchOnChain(chain: seq<Block>)
      requires dao.Valid()
      requires Hangs(dao.chain, chain) && forall b | b in chain :: Listed(dao.forks, b)
      requires AcceptedLength(dao.verdict, Base(dao.chain, chain), chain) == |chain|
      modifies dao`chain, dao`forks
      ensures dao.Valid()
      ensures dao.chain == Base(old(dao.chain), chain) + chain
      ensures dao.forks == SwitchedForks(old(dao.chain), old(dao.forks), chain)
    {
      var forkPoint := chain[0].number - 1;
      SwitchIsPossible(dao.verdict, dao.chain, dao.forks, chain);
      var reverted := dao.RevertTo(forkPoint);
      assert reverted.Success?;
      AddAll(chain);
    }

    /** Phase 3: switches to the longest chain if it respects the 3-3 rule. */
    method SwitchIfFar(current: Block, longestChain: seq<Block>) returns (switched: Option<Block>)
      requires dao.Valid()
      requires Hangs(dao.chain, longestChain) && forall b | b in longestChain :: Listed(dao.forks, b)
      requires AcceptedLength(dao.verdict, Base(dao.chain, longestChain), longestChain) == |longestChain|
      modifies dao`chain, dao`forks
      ensures dao.Valid()
      ensures var chainHEAD := longestChain[|longestChain| - 1];
              if FarEnough(Rule(), current, chainHEAD) then
                && dao.chain == Base(old(dao.chain), longestChain) + longestChain
                && dao.forks == SwitchedForks(old(dao.chain), old(dao.forks), longestChain)
                && switched == Some(chainHEAD)
              else
                dao.chain == old(dao.chain) && dao.forks == old(dao.forks) && switched.None?
    {
      switched := None;
      var chainHEAD := longestChain[|longestChain| - 1];
      if FarEnough(Rule(), current, chainHEAD) {
        SwitchOnChain(longestChain);
        switched := dao.Current();
      }
    }

    /** Phases 2 and 3: selects the best of the suites and switches to it if it is far enough. */
    method SelectChain(current: Block, suites: seq<seq<Block>>) returns (switched: Option<Block>)
      requires dao.Valid() && dao.Current() == Some(current)
      requires AllFit(dao.chain, dao.forks, Ascending(suites))
      requires forall s | s in Ascending(suites) :: |s| <= forkWindowSize
      modifies dao`chain, dao`forks, invalidForks
      ensures dao.Valid()
      ensures ForkResolved(dao.verdict, Rule(), old(dao.chain), old(dao.forks), Ascending(suites),
                           dao.chain, dao.forks, switched)
      ensures invalidForks.stamps == old(invalidForks.stamps) + AllMarks(dao.verdict, old(dao.chain), Ascending(suites))
    {
      ghost var before, forks := dao.chain, dao.forks;
      switched := None;
      var longestChain := FindLongestChain(suites);
      if longestChain.Some? {
        BestFits(dao.verdict, before, forks, forkWindowSize, Ascending(suites));
        switched := SwitchIfFar(current, longestChain.value);
      }
    }

    /** Switches to the best side chain when the 3-3 rule holds; otherwise the chain and the
        sandbox end as they were. */
    method TryToFork() returns (switched: Option<Block>, ghost suites: seq<seq<Block>>, ghost potentials: seq<Block>)
      requires dao.Valid()
      modifies dao`chain, dao`forks, invalidForks
      ensures dao.Valid()
      ensures old(dao.chain) == [] ==>
                && switched.None? && dao.chain == [] && dao.forks == old(dao.forks)
                && invalidForks.stamps == old(invalidForks.stamps)
      ensures old(dao.chain) != [] ==>
                && SearchDone(Rule(), old(dao.chain), old(dao.forks), old(invalidForks.Marked()), potentials, suites)
                && ForkResolved(dao.verdict, Rule(), old(dao.chain), old(dao.forks), Ascending(suites),
                                dao.chain, dao.forks, switched)
                && invalidForks.stamps ==
                   old(invalidForks.stamps) + AllMarks(dao.verdict, old(dao.chain), Ascending(suites))
      ensures SafeSwitch(Rule(), old(dao.chain), old(dao.forks), dao.chain, dao.forks, switched)
      ensures old(dao.chain) != [] ==>
                var head := old(dao.chain)[|old(dao.chain)| - 1];
                forall b :: b in potentials <==>
                  && Listed(old(dao.forks), b)
                  && b.number >= head.number + switchOnHeadAdvance
                  && b.number <= head.number + switchOnHeadAdvance + forkWindowSize
                  && b.medianTime >= head.medianTime + switchOnHeadAdvance * avgGenTime
      ensures switched.Some? ==>
                && old(dao.chain) != []
                && var head := old(dao.chain)[|old(dao.chain)| - 1];
                   && switched.value.number >= head.number + switchOnHeadAdvance
                   && switched.value.medianTime >= head.medianTime + switchOnHeadAdvance * avgGenTime
      ensures old(dao.chain) != [] && AllHang(old(dao.chain), Ascending(suites)) ==>
                var head := old(dao.chain)[|old(dao.chain)| - 1];
                var best := Best(Trial(dao.verdict, old(dao.chain), Ascending(suites)));
                && (best.None? ==> switched.None?)
                && (best.Some? ==>
                      var last := best.value[|best.value| - 1];
                      switched ==
                      if && last.number >= head.number + switchOnHeadAdvance
                         && last.medianTime >= head.medianTime + switchOnHeadAdvance * avgGenTime
                      then Some(last) else None)
    {
      switched, suites, potentials := None, [], [];
      var current := dao.Current();
      if current.None? {
        return;
      }
      var found;
      found, potentials := Search(current.value);
      suites := found;
      switched := SelectSafely(current.value, found);
    }

    function Rule(): ForkRule {
      ForkRule(forkWindowSize, switchOnHeadAdvance, switchOnHeadAdvance * avgGenTime)
    }
  }
}
