/** Blocks and the two tables that hold them: the main chain, addressed by number,
    and the forks table, addressed by number and hash. */
module ForkStore {
  import opened Outcomes

  datatype Block = Block(number: nat, hash: string, previousHash: string, medianTime: nat)

  /** A blockstamp: the number and the hash of a block. */
  type Stamp = (int, string)

  function Blockstamp(b: Block): Stamp {
    (b.number, b.hash)
  }

  /** The part of `checkBlock` that is neither the number nor the link to the head:
      a deterministic verdict on a block put after a chain. */
  type Verdict = (seq<Block>, Block) -> bool

  type Forks = map<Stamp, Block>

  /** BR_G51, BR_G52 and the remaining rules: `checkAndAddBlock` takes `b` after `chain`. */
  predicate Acceptable(verdict: Verdict, chain: seq<Block>, b: Block) {
    && b.number == |chain|
    && b.previousHash == (if chain == [] then "" else chain[|chain| - 1].hash)
    && verdict(chain, b)
  }

  /** The block at height `i` was acceptable when it was added. */
  ghost predicate AcceptedAt(verdict: Verdict, chain: seq<Block>, i: nat)
    requires i < |chain|
  {
    Acceptable(verdict, chain[..i], chain[i])
  }

  ghost predicate AcceptedChain(verdict: Verdict, chain: seq<Block>) {
    forall i | 0 <= i < |chain| :: AcceptedAt(verdict, chain, i)
  }

  /** `b` is on the main chain or in the sandbox. */
  ghost predicate Known(chain: seq<Block>, forks: Forks, b: Block) {
    b in chain || (Blockstamp(b) in forks && forks[Blockstamp(b)] == b)
  }

  /** Hashes identify the blocks of a store. */
  ghost predicate HashesIdentify(chain: seq<Block>, forks: Forks) {
    forall a, b | Known(chain, forks, a) && Known(chain, forks, b) && a.hash == b.hash :: a == b
  }

  /** Two stores hold the same blocks: none was lost, none was invented. */
  ghost predicate SameBlocks(chain: seq<Block>, forks: Forks, chain': seq<Block>, forks': Forks) {
    forall b :: Known(chain, forks, b) <==> Known(chain', forks', b)
  }

  ghost predicate ValidStore(verdict: Verdict, chain: seq<Block>, forks: Forks) {
    && AcceptedChain(verdict, chain)
    && (forall k | k in forks :: Blockstamp(forks[k]) == k)
    && (forall i | 0 <= i < |chain| :: Blockstamp(chain[i]) !in forks)
    && HashesIdentify(chain, forks)
  }

  /** `getAbsoluteBlockByNumberAndHash`: the hash is not looked at for block #0. */
  function AbsoluteBlock(chain: seq<Block>, forks: Forks, number: int, hash: string): Option<Block> {
    if number <= 0 then
      if number == 0 && chain != [] then Some(chain[0]) else None
    else if number < |chain| && chain[number].hash == hash then
      Some(chain[number])
    else if (number, hash) in forks then
      Some(forks[(number, hash)])
    else
      None
  }

  /** `getAbsoluteValidBlockInForkWindow`: the same lookup, without the side blocks. */
  function ValidBlock(chain: seq<Block>, forks: Forks, number: int, hash: string): Option<Block> {
    if number <= 0 then
      if number == 0 && chain != [] then Some(chain[0]) else None
    else if number < |chain| && chain[number].hash == hash then
      Some(chain[number])
    else
      None
  }

  /** The store after the head went back to the sandbox. */
  function SetAside(forks: Forks, b: Block): Forks {
    forks[Blockstamp(b) := b]
  }

  /** The sandbox after the blocks of `dropped` went back to it, the highest first. */
  function SetAllAside(forks: Forks, dropped: seq<Block>): Forks
    decreases |dropped|
  {
    if dropped == [] then forks
    else SetAllAside(SetAside(forks, dropped[|dropped| - 1]), dropped[..|dropped| - 1])
  }

  function Reversed<T>(s: seq<T>): (r: seq<T>)
    ensures |r| == |s|
    ensures forall i | 0 <= i < |s| :: r[i] == s[|s| - 1 - i]
  {
    seq(|s|, i requires 0 <= i < |s| => s[|s| - 1 - i])
  }

  lemma AcceptedPrefix(verdict: Verdict, chain: seq<Block>, n: nat)
    requires AcceptedChain(verdict, chain)
    requires n <= |chain|
    ensures AcceptedChain(verdict, chain[..n])
  {
    forall i | 0 <= i < n ensures AcceptedAt(verdict, chain[..n], i) {
      assert AcceptedAt(verdict, chain, i);
      assert chain[..n][..i] == chain[..i];
    }
  }

  lemma AcceptedExtension(verdict: Verdict, chain: seq<Block>, b: Block)
    requires AcceptedChain(verdict, chain)
    requires Acceptable(verdict, chain, b)
    ensures AcceptedChain(verdict, chain + [b])
  {
    forall i | 0 <= i <= |chain| ensures AcceptedAt(verdict, chain + [b], i) {
      assert (chain + [b])[..i] == chain[..i];
      if i < |chain| {
        assert AcceptedAt(verdict, chain, i);
      } else {
        assert chain[..i] == chain;
      }
    }
  }

  /** An accepted chain is numbered from 0 and linked by hashes. */
  lemma AcceptedIsLinked(verdict: Verdict, chain: seq<Block>)
    requires AcceptedChain(verdict, chain)
    ensures forall i | 0 <= i < |chain| :: chain[i].number == i
    ensures forall i | 0 < i < |chain| :: chain[i].previousHash == chain[i - 1].hash
  {
    forall i | 0 <= i < |chain|
      ensures chain[i].number == i
      ensures i > 0 ==> chain[i].previousHash == chain[i - 1].hash
    {
      assert AcceptedAt(verdict, chain, i);
    }
  }

  lemma SameBlocksKeepHashes(chain: seq<Block>, forks: Forks, chain': seq<Block>, forks': Forks)
    requires HashesIdentify(chain, forks)
    requires SameBlocks(chain, forks, chain', forks')
    ensures HashesIdentify(chain', forks')
  {
  }

  lemma RevertKeepsBlocks(chain: seq<Block>, forks: Forks)
    requires chain != []
    requires Blockstamp(chain[|chain| - 1]) !in forks
    ensures SameBlocks(chain, forks, chain[..|chain| - 1], SetAside(forks, chain[|chain| - 1]))
  {
    var n, head := |chain| - 1, chain[|chain| - 1];
    assert chain == chain[..n] + [head];
  }

  /** Moving the head to the sandbox keeps the store valid and loses no block. */
  lemma RevertKeepsStore(verdict: Verdict, chain: seq<Block>, forks: Forks)
    requires ValidStore(verdict, chain, forks)
    requires chain != []
    ensures var n, head := |chain| - 1, chain[|chain| - 1];
            && ValidStore(verdict, chain[..n], SetAside(forks, head))
            && SameBlocks(chain, forks, chain[..n], SetAside(forks, head))
  {
    var n, head := |chain| - 1, chain[|chain| - 1];
    AcceptedIsLinked(verdict, chain);
    AcceptedPrefix(verdict, chain, n);
    RevertKeepsBlocks(chain, forks);
    SameBlocksKeepHashes(chain, forks, chain[..n], SetAside(forks, head));
  }

  predicate DistinctStamps(s: seq<Block>) {
    forall i, j | 0 <= i < j < |s| :: Blockstamp(s[i]) != Blockstamp(s[j])
  }

  /** The sandbox without the blocks of `s`. */
  function Without(forks: Forks, s: seq<Block>): Forks {
    forks - set b | b in s :: Blockstamp(b)
  }

  lemma {:induction false} SetAllAsideLookup(forks: Forks, s: seq<Block>, k: Stamp)
    requires DistinctStamps(s)
    ensures (forall b | b in s :: Blockstamp(b) != k) ==>
              (k in SetAllAside(forks, s) <==> k in forks) && (k in forks ==> SetAllAside(forks, s)[k] == forks[k])
    ensures forall b | b in s && Blockstamp(b) == k :: k in SetAllAside(forks, s) && SetAllAside(forks, s)[k] == b
    decreases |s|
  {
    if s != [] {
      var n := |s| - 1;
      SetAllAsideLookup(SetAside(forks, s[n]), s[..n], k);
      assert s == s[..n] + [s[n]];
      if Blockstamp(s[n]) == k {
        assert forall b | b in s[..n] :: Blockstamp(b) != k;
      }
    }
  }

  /** Setting blocks aside and taking them back restores the sandbox. */
  lemma AsideThenBack(forks: Forks, s: seq<Block>)
    requires DistinctStamps(s)
    requires forall b | b in s :: Blockstamp(b) !in forks
    ensures Without(SetAllAside(forks, s), s) == forks
  {
    forall k: Stamp
      ensures k in Without(SetAllAside(forks, s), s) <==> k in forks
      ensures k in forks ==> Without(SetAllAside(forks, s), s)[k] == forks[k]
    {
      SetAllAsideLookup(forks, s, k);
    }
  }

  /** Taking side blocks and setting them aside again restores the sandbox. */
  lemma TakenThenAside(forks: Forks, s: seq<Block>)
    requires DistinctStamps(s)
    requires forall b | b in s :: Blockstamp(b) in forks && forks[Blockstamp(b)] == b
    ensures SetAllAside(Without(forks, s), s) == forks
  {
    var forks' := SetAllAside(Without(forks, s), s);
    forall k: Stamp
      ensures k in forks' <==> k in forks
      ensures k in forks ==> forks'[k] == forks[k]
    {
      SetAllAsideLookup(Without(forks, s), s, k);
    }
  }

  /** Adding an acceptable block keeps the store valid; if it came from the sandbox, no block
      is lost. */
  lemma AddKeepsStore(verdict: Verdict, chain: seq<Block>, forks: Forks, b: Block)
    requires ValidStore(verdict, chain, forks)
    requires Acceptable(verdict, chain, b)
    requires forall a | Known(chain, forks, a) && a.hash == b.hash :: a == b
    ensures ValidStore(verdict, chain + [b], forks - {Blockstamp(b)})
    ensures Blockstamp(b) in forks && forks[Blockstamp(b)] == b ==>
              SameBlocks(chain, forks, chain + [b], forks - {Blockstamp(b)})
  {
    AcceptedExtension(verdict, chain, b);
    var chain', forks' := chain + [b], forks - {Blockstamp(b)};
    assert forall c | Known(chain', forks', c) :: c == b || Known(chain, forks, c);
    AcceptedIsLinked(verdict, chain);
  }
}
