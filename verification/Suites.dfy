/** Side chains: what the fork resolution looks for, independently of its caches. */
module Suites {
  import opened Outcomes
  import opened ForkStore
  import opened ForkDao

  /** The predecessor of `b` is found in the main chain. */
  predicate Rooted(chain: seq<Block>, forks: Forks, b: Block) {
    ValidBlock(chain, forks, b.number - 1, b.previousHash).Some?
  }

  /** The predecessor of `b`, wherever it is. */
  function Predecessor(chain: seq<Block>, forks: Forks, b: Block): Option<Block> {
    AbsoluteBlock(chain, forks, b.number - 1, b.previousHash)
  }

  /** One step of the walk: the predecessor of `s[i]` is `s[i + 1]`, not marked as incorrect. */
  ghost predicate Link(chain: seq<Block>, forks: Forks, marked: set<Stamp>, s: seq<Block>, i: nat)
    requires i < |s| - 1
  {
    Predecessor(chain, forks, s[i]) == Some(s[i + 1]) && Blockstamp(s[i + 1]) !in marked
  }

  /** `s` walks down from a side block, never through a block marked as incorrect. */
  ghost predicate Trail(chain: seq<Block>, forks: Forks, marked: set<Stamp>, s: seq<Block>) {
    && s != []
    && Listed(forks, s[0])
    && forall i | 0 <= i < |s| - 1 :: Link(chain, forks, marked, s, i)
  }

  /** A side chain, head first, that stops at the first block rooted in the main chain. */
  ghost predicate Branch(chain: seq<Block>, forks: Forks, marked: set<Stamp>, s: seq<Block>) {
    && Trail(chain, forks, marked, s)
    && (forall i | 0 <= i < |s| - 1 :: !Rooted(chain, forks, s[i]))
    && Rooted(chain, forks, s[|s| - 1])
  }

  /** The walk cannot go on below the last block of `s`. */
  ghost predicate DeadEnd(chain: seq<Block>, forks: Forks, marked: set<Stamp>, s: seq<Block>)
    requires s != []
  {
    var p := Predecessor(chain, forks, s[|s| - 1]);
    p.None? || Blockstamp(p.value) in marked
  }

  lemma PredecessorIsKnown(verdict: Verdict, chain: seq<Block>, forks: Forks, b: Block)
    requires ValidStore(verdict, chain, forks)
    ensures var p := Predecessor(chain, forks, b);
            p.Some? ==> p.value.number == b.number - 1 && Known(chain, forks, p.value)
    ensures Rooted(chain, forks, b) ==> 1 <= b.number <= |chain| && Predecessor(chain, forks, b).Some?
  {
    AcceptedIsLinked(verdict, chain);
  }

  /** A block is rooted exactly when it names the main block one number below it; the
      name is not looked at when that block is #0. */
  lemma RootedMeans(verdict: Verdict, chain: seq<Block>, forks: Forks, b: Block)
    requires ValidStore(verdict, chain, forks)
    ensures Rooted(chain, forks, b) <==>
            1 <= b.number <= |chain| && (b.number == 1 || chain[b.number - 1].hash == b.previousHash)
  {
  }

  /** The predecessor of a block is the known block one number below it that carries the hash it
      names, wherever it is; for a block #1 it is the main block #0, whatever its hash. */
  lemma PredecessorMeans(verdict: Verdict, chain: seq<Block>, forks: Forks, b: Block, p: Block)
    requires ValidStore(verdict, chain, forks)
    ensures Predecessor(chain, forks, b) == Some(p) <==>
            && p.number == b.number - 1
            && if b.number == 1 then p in chain else Known(chain, forks, p) && p.hash == b.previousHash
  {
    AcceptedIsLinked(verdict, chain);
    PredecessorIsKnown(verdict, chain, forks, b);
    if p in chain {
      var i :| 0 <= i < |chain| && chain[i] == p;
    }
    if p.number == b.number - 1 && b.number != 1 && Known(chain, forks, p) && p.hash == b.previousHash {
      assert Predecessor(chain, forks, b).Some?;
    }
  }

  /** Every block of a trail is one number below the previous one, is known and, when
      numbered from 1 on, is named by its successor. */
  lemma {:induction false} TrailIsLinked(verdict: Verdict, chain: seq<Block>, forks: Forks, marked: set<Stamp>,
                                         s: seq<Block>, i: nat)
    requires ValidStore(verdict, chain, forks)
    requires Trail(chain, forks, marked, s)
    requires i < |s|
    ensures s[i].number == s[0].number - i && Known(chain, forks, s[i])
    ensures i > 0 && s[i].number > 0 ==> s[i - 1].previousHash == s[i].hash
  {
    if i > 0 {
      TrailIsLinked(verdict, chain, forks, marked, s, i - 1);
      PredecessorIsKnown(verdict, chain, forks, s[i - 1]);
      assert Link(chain, forks, marked, s, i - 1);
    }
  }

  /** A rooted side chain is linked by hashes block after block, lies in the sandbox, and hangs
      on the main chain; only a link to the main block #0 may carry another hash. */
  lemma BranchIsLinked(verdict: Verdict, chain: seq<Block>, forks: Forks, marked: set<Stamp>, s: seq<Block>)
    requires ValidStore(verdict, chain, forks)
    requires Branch(chain, forks, marked, s)
    ensures forall i | 0 <= i < |s| :: s[i].number == s[0].number - i && Listed(forks, s[i])
    ensures forall i | 0 < i < |s| :: s[i - 1].previousHash == s[i].hash
    ensures var root := s[|s| - 1].number - 1;
            && 0 <= root < |chain|
            && (root > 0 ==> s[|s| - 1].previousHash == chain[root].hash)
  {
    RootedMeans(verdict, chain, forks, s[|s| - 1]);
    TrailIsLinked(verdict, chain, forks, marked, s, |s| - 1);
    forall i | 0 <= i < |s|
      ensures s[i].number == s[0].number - i && Listed(forks, s[i])
      ensures i > 0 ==> s[i - 1].previousHash == s[i].hash
    {
      TrailIsLinked(verdict, chain, forks, marked, s, i);
      if i > 0 {
        BranchStaysAside(verdict, chain, forks, marked, s, i);
      }
    }
  }

  lemma BranchStaysAside(verdict: Verdict, chain: seq<Block>, forks: Forks, marked: set<Stamp>, s: seq<Block>, i: nat)
    requires ValidStore(verdict, chain, forks)
    requires Branch(chain, forks, marked, s)
    requires 0 < i < |s|
    ensures Listed(forks, s[i])
  {
    TrailIsLinked(verdict, chain, forks, marked, s, i);
    TrailIsLinked(verdict, chain, forks, marked, s, |s| - 1);
    RootedMeans(verdict, chain, forks, s[|s| - 1]);
    assert Link(chain, forks, marked, s, i - 1);
    assert !Rooted(chain, forks, s[i - 1]);
  }

  /** A side block #1 may name a block #0 that is not ours and still be taken as rooted. */
  lemma RootNameIgnoredAtGenesis(verdict: Verdict, genesis: Block, b: Block)
    requires Acceptable(verdict, [], genesis)
    requires b.number == 1 && b.hash != genesis.hash && b.previousHash != genesis.hash
    ensures var forks := map[Blockstamp(b) := b];
            && ValidStore(verdict, [genesis], forks)
            && Branch([genesis], forks, {}, [b])
            && !Acceptable(verdict, [genesis], b)
  {
    var chain, forks := [genesis], map[Blockstamp(b) := b];
    assert chain[..0] == [];
    assert forall c | Known(chain, forks, c) :: c == genesis || c == b;
  }

  /** The walk is deterministic. */
  lemma {:induction false} TrailsAgree(chain: seq<Block>, forks: Forks, marked: set<Stamp>,
                                       s: seq<Block>, i: nat, t: seq<Block>, k: nat)
    requires Trail(chain, forks, marked, s) && Trail(chain, forks, marked, t)
    requires i + k < |s| && k < |t| && t[0] == s[i]
    ensures t[k] == s[i + k]
  {
    if k > 0 {
      TrailsAgree(chain, forks, marked, s, i, t, k - 1);
      assert Link(chain, forks, marked, t, k - 1);
      assert Link(chain, forks, marked, s, i + k - 1);
    }
  }

  /** Two rooted chains that share a block are the same below it. */
  lemma {:induction false} BranchesAgree(chain: seq<Block>, forks: Forks, marked: set<Stamp>,
                                         s: seq<Block>, i: nat, t: seq<Block>)
    requires Branch(chain, forks, marked, s) && Branch(chain, forks, marked, t)
    requires i < |s| && t[0] == s[i]
    ensures t == s[i..]
  {
    var n := if |t| <= |s| - i then |t| else |s| - i;
    forall k | 0 <= k < n ensures t[k] == s[i + k] {
      TrailsAgree(chain, forks, marked, s, i, t, k);
    }
    assert t[n - 1] == s[i + n - 1];
  }

  /** No rooted chain starts in a trail that met no root and cannot go on. */
  lemma DeadTrailHasNoBranch(chain: seq<Block>, forks: Forks, marked: set<Stamp>,
                             s: seq<Block>, i: nat, t: seq<Block>)
    requires Trail(chain, forks, marked, s) && DeadEnd(chain, forks, marked, s)
    requires forall j | 0 <= j < |s| :: !Rooted(chain, forks, s[j])
    requires i < |s| && Branch(chain, forks, marked, t)
    ensures t[0] != s[i]
  {
    if t[0] == s[i] {
      if i + |t| <= |s| {
        TrailsAgree(chain, forks, marked, s, i, t, |t| - 1);
      } else {
        var k := |s| - 1 - i;
        assert Link(chain, forks, marked, t, k);
        TrailsAgree(chain, forks, marked, s, i, t, k);
      }
    }
  }

  /** No rooted chain of at most |s| blocks starts where a trail of |s| blocks met no root. */
  lemma LongTrailHasNoShortBranch(chain: seq<Block>, forks: Forks, marked: set<Stamp>, s: seq<Block>, t: seq<Block>)
    requires Trail(chain, forks, marked, s)
    requires forall j | 0 <= j < |s| :: !Rooted(chain, forks, s[j])
    requires Branch(chain, forks, marked, t) && |t| <= |s|
    ensures t[0] != s[0]
  {
    if t[0] == s[0] {
      TrailsAgree(chain, forks, marked, s, 0, t, |t| - 1);
    }
  }
}
