/** Which side chains a fork resolution tries: exactly those that no earlier resolution marked
    below the head. Among these, the caches and the walk down to the main chain lose none, and
    trying suites one by one finds an outcome at least as high. */
module ForkCompleteness {
  import opened Outcomes
  import opened ForkStore
  import opened Suites
  import opened Trials
  import opened Switcher

  /** The chain, reverted below the side chain `t`, takes all of it. */
  predicate WhollyAcceptable(verdict: Verdict, chain: seq<Block>, t: seq<Block>) {
    && t != []
    && t[|t| - 1].number <= |chain|
    && AcceptedLength(verdict, chain[..t[|t| - 1].number], Reversed(t)) == |t|
  }

  /** What the chain takes of a longer side chain covers what it takes of its lower part. */
  lemma {:induction false} LongerTakesAsMuch(verdict: Verdict, base: seq<Block>, low: seq<Block>, high: seq<Block>)
    requires AcceptedLength(verdict, base, low) == |low|
    ensures AcceptedLength(verdict, base, low + high) >= |low|
    decreases |low|
  {
    if low != [] {
      LongerTakesAsMuch(verdict, base + [low[0]], low[1..], high);
      assert (low + high)[1..] == low[1..] + high;
    }
  }

  /** A suite of a complete search that covers the side chain `t`. */
  lemma CoveringSuite(chain: seq<Block>, forks: Forks, marked: set<Stamp>, window: nat,
                      potentials: seq<Block>, suites: seq<seq<Block>>, t: seq<Block>)
    returns (k: nat, i: nat)
    requires SoundSuites(chain, forks, marked, window, potentials, suites)
    requires CompleteSuites(chain, forks, marked, window, potentials, suites)
    requires Branch(chain, forks, marked, t) && |t| <= window && t[0] in potentials
    ensures k < |suites| && i < |suites[k]| && t == suites[k][i..]
  {
    assert Covers(suites, t);
    var s :| s in suites && t[0] in s;
    k :| 0 <= k < |suites| && suites[k] == s;
    i :| 0 <= i < |s| && s[i] == t[0];
    BranchesAgree(chain, forks, marked, s, i, t);
  }

  /** When a suite covers a wholly acceptable side chain `t`, the best outcome is at least as high. */
  lemma CoveredIsNotMissed(verdict: Verdict, chain: seq<Block>, suites: seq<seq<Block>>, k: nat, i: nat, t: seq<Block>)
    requires AllHang(chain, Ascending(suites))
    requires k < |suites| && i < |suites[k]| && t == suites[k][i..]
    requires WhollyAcceptable(verdict, chain, t)
    ensures var best := Best(Trial(verdict, chain, Ascending(suites)));
            best.Some? && Height(best.value) >= t[0].number
  {
    var low, high := Reversed(t), Reversed(suites[k][..i]);
    var tried := Ascending(suites);
    assert tried[k] == Reversed(suites[k]) == low + high;
    var base := chain[..low[0].number];
    assert tried[k] in tried && base == Base(chain, tried[k]);
    LongerTakesAsMuch(verdict, base, low, high);
    TallIsHigh(verdict, base, tried[k], |t|);
    assert Trial(verdict, chain, tried)[k] == tried[k][..AcceptedLength(verdict, base, tried[k])];
    OutcomeIsNotHigher(Trial(verdict, chain, tried), k);
  }

  lemma OutcomeIsNotHigher(outcomes: seq<seq<Block>>, k: nat)
    requires k < |outcomes| && outcomes[k] != []
    ensures Best(outcomes).Some? && Height(outcomes[k]) <= Height(Best(outcomes).value)
  {
    NothingIsEmpty(outcomes);
    var best := BestIsFirstHighest(outcomes);
  }

  lemma TallIsHigh(verdict: Verdict, base: seq<Block>, s: seq<Block>, n: nat)
    requires 0 < n <= AcceptedLength(verdict, base, s)
    ensures var m := AcceptedLength(verdict, base, s);
            Height(s[..m]) == |base| + m - 1 && s[n - 1].number == |base| + n - 1
  {
    var m := AcceptedLength(verdict, base, s);
    TakenIsAcceptable(verdict, base, s, m - 1);
    TakenIsAcceptable(verdict, base, s, n - 1);
  }

  /** The chain ends at least at `height`, or the highest outcome, at least as high, lacks median time. */
  ghost predicate NotPassedOver(verdict: Verdict, rule: ForkRule, chain: seq<Block>, suites: seq<seq<Block>>,
                                switched: Option<Block>, height: int)
    requires chain != [] && AllHang(chain, suites)
  {
    match switched
    case Some(head) => head.number >= height
    case None =>
      var best := Best(Trial(verdict, chain, suites));
      && best.Some? && Height(best.value) >= height
      && best.value[|best.value| - 1].medianTime < chain[|chain| - 1].medianTime + rule.time
  }

  /** No block of `t` is marked, its head aside. */
  predicate Unmarked(marked: set<Stamp>, t: seq<Block>) {
    forall i | 1 <= i < |t| :: Blockstamp(t[i]) !in marked
  }

  /** A side chain as it is, whatever the marks: rooted, within the window, and far enough. */
  ghost predicate FarBranch(rule: ForkRule, chain: seq<Block>, forks: Forks, t: seq<Block>)
    requires chain != []
  {
    Branch(chain, forks, {}, t) && |t| <= rule.window && FarEnough(rule, chain[|chain| - 1], t[0])
  }

  lemma BranchIgnoringMarks(chain: seq<Block>, forks: Forks, marked: set<Stamp>, t: seq<Block>)
    ensures Branch(chain, forks, marked, t) <==> Branch(chain, forks, {}, t) && Unmarked(marked, t)
  {
    if Branch(chain, forks, marked, t) {
      forall i | 0 <= i < |t| - 1 ensures Link(chain, forks, {}, t, i) {
        assert Link(chain, forks, marked, t, i);
      }
      forall i | 1 <= i < |t| ensures Blockstamp(t[i]) !in marked {
        assert Link(chain, forks, marked, t, i - 1);
      }
    } else if Branch(chain, forks, {}, t) && Unmarked(marked, t) {
      forall i | 0 <= i < |t| - 1 ensures Link(chain, forks, marked, t, i) {
        assert Link(chain, forks, {}, t, i);
      }
    }
  }

  lemma BranchIsPotential(verdict: Verdict, rule: ForkRule, chain: seq<Block>, forks: Forks, t: seq<Block>)
    requires ValidStore(verdict, chain, forks) && chain != []
    requires FarBranch(rule, chain, forks, t)
    ensures Potential(rule, chain[|chain| - 1], forks, t[0])
  {
    AcceptedIsLinked(verdict, chain);
    BranchIsLinked(verdict, chain, forks, {}, t);
  }

  lemma BelowASuiteIsUnmarked(chain: seq<Block>, forks: Forks, marked: set<Stamp>,
                              s: seq<Block>, i: nat, t: seq<Block>)
    requires Branch(chain, forks, marked, s) && Branch(chain, forks, {}, t)
    requires i < |s| && t[0] == s[i]
    ensures Unmarked(marked, t)
  {
    BranchIgnoringMarks(chain, forks, marked, s);
    BranchesAgree(chain, forks, {}, s, i, t);
    forall j | 1 <= j < |t| ensures Blockstamp(t[j]) !in marked {
      assert t[j] == s[i + j];
    }
  }

  /** A side chain of the window that is far enough is tried exactly when no block below its head
      is marked. Marks are left by earlier resolutions: on the refused block of a suite, and on
      the blocks of it that were accepted as well. */
  lemma TriedIffUnmarked(verdict: Verdict, rule: ForkRule, chain: seq<Block>, forks: Forks, marked: set<Stamp>,
                         potentials: seq<Block>, suites: seq<seq<Block>>, t: seq<Block>)
    requires ValidStore(verdict, chain, forks) && chain != []
    requires SearchDone(rule, chain, forks, marked, potentials, suites)
    requires NoneHidden(chain, forks, marked, rule.window, potentials)
    requires FarBranch(rule, chain, forks, t)
    ensures Covers(suites, t) <==> Unmarked(marked, t)
  {
    BranchIgnoringMarks(chain, forks, marked, t);
    if Unmarked(marked, t) {
      BranchIsPotential(verdict, rule, chain, forks, t);
    } else if Covers(suites, t) {
      var s :| s in suites && t[0] in s;
      var i :| 0 <= i < |s| && s[i] == t[0];
      BelowASuiteIsUnmarked(chain, forks, marked, s, i, t);
    }
  }

  const AT_ONCE := ForkRule(1, 0, 0)

  /** With no advance asked for, on head #0, a side block #0 hides the side block #1 that names it,
      although the latter is rooted and far enough. */
  lemma SideGenesisHides(verdict: Verdict, genesis: Block, other: Block, b: Block,
                         potentials: seq<Block>, suites: seq<seq<Block>>)
    requires Acceptable(verdict, [], genesis) && other.number == 0 && b.number == 1 && b.previousHash == other.hash
    requires genesis.hash != other.hash && genesis.hash != b.hash && other.hash != b.hash
    requires genesis.medianTime <= other.medianTime && genesis.medianTime <= b.medianTime
    requires var forks := map[Blockstamp(other) := other, Blockstamp(b) := b];
             SearchDone(AT_ONCE, [genesis], forks, {}, potentials, suites)
    ensures var forks := map[Blockstamp(other) := other, Blockstamp(b) := b];
            && ValidStore(verdict, [genesis], forks) && FarBranch(AT_ONCE, [genesis], forks, [b])
            && !Covers(suites, [b])
  {
    var chain, forks := [genesis], map[Blockstamp(other) := other, Blockstamp(b) := b];
    assert chain[..0] == [];
    assert forall c | Known(chain, forks, c) :: c == genesis || c == other || c == b;
    assert Potential(AT_ONCE, genesis, forks, other) && Potential(AT_ONCE, genesis, forks, b);
    assert Blockstamp(other) in Names(potentials);
    assert Hidden(chain, forks, {}, 1, potentials, [b]);
    assert !CompleteSuites(chain, forks, {}, 1, potentials, suites);
    var t: seq<Block> :| Branch(chain, forks, {}, t) && |t| <= 1 && t[0] in potentials && !Covers(suites, t);
    assert t == [t[0]] && Potential(AT_ONCE, genesis, forks, t[0]);
  }

  lemma HighIsYoung(verdict: Verdict, rule: ForkRule, chain: seq<Block>, forks: Forks, suites: seq<seq<Block>>,
                    chain': seq<Block>, forks': Forks, switched: Option<Block>, height: int)
    requires chain != [] && ForkResolved(verdict, rule, chain, forks, suites, chain', forks', switched)
    requires height >= chain[|chain| - 1].number + rule.advance
    requires Best(Trial(verdict, chain, suites)).Some?
    requires Height(Best(Trial(verdict, chain, suites)).value) >= height
    ensures NotPassedOver(verdict, rule, chain, suites, switched, height)
  {
    var best := Best(Trial(verdict, chain, suites)).value;
    assert Height(best) == best[|best| - 1].number;
  }

  lemma CoveringFarBranch(verdict: Verdict, rule: ForkRule, chain: seq<Block>, forks: Forks, marked: set<Stamp>,
                          potentials: seq<Block>, suites: seq<seq<Block>>, t: seq<Block>)
    returns (k: nat, i: nat)
    requires ValidStore(verdict, chain, forks) && chain != []
    requires SearchDone(rule, chain, forks, marked, potentials, suites)
    requires NoneHidden(chain, forks, marked, rule.window, potentials)
    requires FarBranch(rule, chain, forks, t) && Unmarked(marked, t)
    ensures k < |suites| && i < |suites[k]| && t == suites[k][i..]
  {
    BranchIsPotential(verdict, rule, chain, forks, t);
    BranchIgnoringMarks(chain, forks, marked, t);
    k, i := CoveringSuite(chain, forks, marked, rule.window, potentials, suites, t);
  }

  /** Completeness of a fork resolution: a wholly acceptable side chain of the window that is far
      enough, and that no earlier resolution marked below its head, is not passed over. Either the
      chain ends at least as high, or the highest acceptable outcome lacks median time. */
  lemma FarEnoughIsNotPassedOver(verdict: Verdict, rule: ForkRule, chain: seq<Block>, forks: Forks,
                                 marked: set<Stamp>, potentials: seq<Block>, suites: seq<seq<Block>>,
                                 t: seq<Block>, chain': seq<Block>, forks': Forks, switched: Option<Block>)
    requires ValidStore(verdict, chain, forks) && chain != []
    requires SearchDone(rule, chain, forks, marked, potentials, suites)
    requires NoneHidden(chain, forks, marked, rule.window, potentials)
    requires ForkResolved(verdict, rule, chain, forks, Ascending(suites), chain', forks', switched)
    requires FarBranch(rule, chain, forks, t) && Unmarked(marked, t)
    requires WhollyAcceptable(verdict, chain, t)
    ensures NotPassedOver(verdict, rule, chain, Ascending(suites), switched, t[0].number)
  {
    var k, i := CoveringFarBranch(verdict, rule, chain, forks, marked, potentials, suites, t);
    CoveredIsNotMissed(verdict, chain, suites, k, i, t);
    HighIsYoung(verdict, rule, chain, forks, Ascending(suites), chain', forks', switched, t[0].number);
  }
}
