/** The data access the fork resolution runs on: a live chain that can be reverted
    and extended, and a sandbox of side blocks. */
module ForkDao {
  import opened Outcomes
  import opened ForkStore

  datatype DataError =
    | CannotRevertNoCurrentBlock
    | AlreadyBelowThisNumber
    | BlockToRevertNotFound
    | Refused

  predicate Listed(forks: Forks, b: Block) {
    Blockstamp(b) in forks && forks[Blockstamp(b)] == b
  }

  /** The hash of `b` belongs to no other known block. */
  ghost predicate HashFits(chain: seq<Block>, forks: Forks, b: Block) {
    forall a | Known(chain, forks, a) && a.hash == b.hash :: a == b
  }

  predicate NoDuplicate<T(==)>(s: seq<T>) {
    forall i, j | 0 <= i < j < |s| :: s[i] != s[j]
  }

  lemma SideBlockKeepsStore(verdict: Verdict, chain: seq<Block>, forks: Forks, b: Block)
    requires ValidStore(verdict, chain, forks)
    requires HashFits(chain, forks, b)
    requires !Known(chain, forks, b)
    ensures ValidStore(verdict, chain, SetAside(forks, b))
  {
    assert forall c | Known(chain, SetAside(forks, b), c) :: c == b || Known(chain, forks, c);
    forall i | 0 <= i < |chain| ensures Blockstamp(chain[i]) !in SetAside(forks, b) {
      assert Known(chain, forks, chain[i]);
    }
  }

  lemma ReversedOneMore(chain: seq<Block>, n: nat)
    requires n < |chain|
    ensures Reversed(chain[n + 1..]) + [chain[n]] == Reversed(chain[n..])
  {
  }

  lemma RevertAllKeepsBlocks(verdict: Verdict, chain: seq<Block>, forks: Forks, n: nat)
    requires ValidStore(verdict, chain, forks)
    requires n <= |chain|
    ensures SameBlocks(chain, forks, chain[..n], SetAllAside(forks, chain[n..]))
    decreases |chain|
  {
    if n < |chain| {
      var last := |chain| - 1;
      RevertKeepsStore(verdict, chain, forks);
      RevertAllKeepsBlocks(verdict, chain[..last], SetAside(forks, chain[last]), n);
      assert chain[..last][..n] == chain[..n];
      assert chain[n..][..last - n] == chain[..last][n..];
      assert chain[n..][last - n] == chain[last];
    } else {
      assert chain[..n] == chain;
    }
  }

  lemma SetAsideOneMore(forks: Forks, chain: seq<Block>, n: nat)
    requires n < |chain|
    ensures SetAside(SetAllAside(forks, chain[n + 1..]), chain[n]) == SetAllAside(forks, chain[n..])
    decreases |chain|
  {
    var dropped := chain[n..];
    assert dropped[0] == chain[n];
    if n + 1 < |chain| {
      var last := |chain| - 1;
      assert chain[n + 1..][..last - n - 1] == chain[..last][n + 1..];
      assert dropped[..last - n] == chain[..last][n..];
      SetAsideOneMore(SetAside(forks, chain[last]), chain[..last], n);
    } else {
      assert dropped == [chain[n]];
      assert SetAllAside(SetAside(forks, chain[n]), []) == SetAside(forks, chain[n]);
    }
  }

  class Dao {
    const verdict: Verdict
    var chain: seq<Block>
    var forks: Forks

    constructor (verdict: Verdict)
      ensures this.verdict == verdict && chain == [] && forks == map[]
      ensures Valid()
    {
      this.verdict := verdict;
      chain, forks := [], map[];
    }

    ghost predicate Valid()
      reads this
    {
      ValidStore(verdict, chain, forks)
    }

    function Current(): Option<Block>
      reads this
    {
      if chain == [] then None else Some(chain[|chain| - 1])
    }

    /** The side blocks that pass a filter, in the order of the table. */
    method SideBlocks(keep: Block -> bool) returns (found: seq<Block>)
      requires Valid()
      ensures NoDuplicate(found)
      ensures forall b :: b in found <==> Listed(forks, b) && keep(b)
    {
      found := [];
      var keys := forks.Keys;
      while keys != {}
        invariant keys <= forks.Keys
        invariant NoDuplicate(found)
        invariant forall b :: b in found <==> Listed(forks, b) && Blockstamp(b) !in keys && keep(b)
      {
        var k :| k in keys;
        keys := keys - {k};
        assert Blockstamp(forks[k]) == k;
        if keep(forks[k]) {
          found := found + [forks[k]];
        }
      }
    }

    method Potentials(numberStart: int, timeStart: int, maxNumber: int) returns (found: seq<Block>)
      requires Valid()
      ensures NoDuplicate(found)
      ensures forall b :: b in found <==>
                          Listed(forks, b) && numberStart <= b.number <= maxNumber && timeStart <= b.medianTime
    {
      found := SideBlocks((b: Block) => numberStart <= b.number <= maxNumber && timeStart <= b.medianTime);
    }

    /** Puts a block in the sandbox, unless it is already known. */
    method AddSideBlock(b: Block) returns (saved: bool)
      requires Valid()
      requires HashFits(chain, forks, b)
      modifies this`forks
      ensures Valid()
      ensures saved == !old(Known(chain, forks, b))
      ensures forks == if saved then SetAside(old(forks), b) else old(forks)
    {
      AcceptedIsLinked(verdict, chain);
      var onChain := b.number < |chain| && chain[b.number].hash == b.hash;
      saved := !onChain && Blockstamp(b) !in forks;
      if onChain {
        assert Known(chain, forks, chain[b.number]);
      } else if Blockstamp(b) in forks {
        assert Known(chain, forks, forks[Blockstamp(b)]);
      } else {
        forks := SetAside(forks, b);
        SideBlockKeepsStore(verdict, chain, old(forks), b);
      }
    }

    /** Pops the head; the block becomes a side block. */
    method RevertCurrentBlock() returns (reverted: Result<Block, DataError>)
      requires Valid()
      modifies this`chain, this`forks
      ensures Valid()
      ensures reverted.Success? <==> old(chain) != []
      ensures reverted.Failure? ==> chain == old(chain) && forks == old(forks)
      ensures reverted.Success? ==>
                var n := |old(chain)| - 1;
                && reverted.value == old(chain)[n]
                && chain == old(chain)[..n]
                && forks == SetAside(old(forks), old(chain)[n])
    {
      if chain == [] {
        return Failure(BlockToRevertNotFound);
      }
      RevertKeepsStore(verdict, chain, forks);
      var head := chain[|chain| - 1];
      chain := chain[..|chain| - 1];
      forks := SetAside(forks, head);
      reverted := Success(head);
    }

    /** Pops the `count` highest blocks, or all of them and fails when there are fewer. */
    method RevertBlocks(count: nat) returns (reverted: Result<seq<Block>, DataError>)
      requires Valid()
      modifies this`chain, this`forks
      ensures Valid()
      ensures reverted.Success? <==> count <= |old(chain)|
      ensures var n := if count <= |old(chain)| then |old(chain)| - count else 0;
              && chain == old(chain)[..n]
              && forks == SetAllAside(old(forks), old(chain)[n..])
              && (reverted.Success? ==> reverted.value == Reversed(old(chain)[n..]))
    {
      var blocks := [];
      var i := 0;
      while i < count
        invariant 0 <= i <= |old(chain)| && i <= count
        invariant Valid()
        invariant chain == old(chain)[..|old(chain)| - i]
        invariant forks == SetAllAside(old(forks), old(chain)[|old(chain)| - i..])
        invariant blocks == Reversed(old(chain)[|old(chain)| - i..])
      {
        ghost var n := |chain| - 1;
        var popped := RevertCurrentBlock();
        if popped.Failure? {
          return Failure(popped.error);
        }
        blocks := blocks + [popped.value];
        i := i + 1;
        SetAsideOneMore(old(forks), old(chain), n);
        ReversedOneMore(old(chain), n);
      }
      reverted := Success(blocks);
    }

    /** Reverts the chain down to the block `number`; the popped blocks come highest first. */
    method RevertTo(number: int) returns (reverted: Result<seq<Block>, DataError>)
      requires Valid()
      modifies this`chain, this`forks
      ensures Valid()
      ensures reverted.Success? <==> old(chain) != [] && -1 <= number < |old(chain)|
      ensures reverted.Success? ==>
                && chain == old(chain)[..number + 1]
                && forks == SetAllAside(old(forks), old(chain)[number + 1..])
                && reverted.value == Reversed(old(chain)[number + 1..])
      ensures old(chain) == [] || |old(chain)| <= number ==> chain == old(chain) && forks == old(forks)
    {
      var current := Current();
      if current.None? {
        return Failure(CannotRevertNoCurrentBlock);
      }
      AcceptedIsLinked(verdict, chain);
      if current.value.number < number {
        return Failure(AlreadyBelowThisNumber);
      }
      var count := current.value.number - number;
      reverted := RevertBlocks(count);
    }

    /** `checkAndAddBlock`: extends the chain with an acceptable block, or throws and changes nothing. */
    method AddBlock(b: Block) returns (added: Result<Block, DataError>)
      requires Valid()
      requires HashFits(chain, forks, b)
      modifies this`chain, this`forks
      ensures Valid()
      ensures added.Success? <==> Acceptable(verdict, old(chain), b)
      ensures added.Success? <==>
              && b.number == |old(chain)|
              && (if old(chain) == [] then b.previousHash == ""
                  else b.previousHash == old(chain)[|old(chain)| - 1].hash)
              && verdict(old(chain), b)
      ensures added.Success? ==>
                && added.value == b
                && chain == old(chain) + [b]
                && forks == old(forks) - {Blockstamp(b)}
      ensures added.Failure? ==> chain == old(chain) && forks == old(forks)
    {
      if !Acceptable(verdict, chain, b) {
        return Failure(Refused);
      }
      AddKeepsStore(verdict, chain, forks, b);
      chain := chain + [b];
      forks := forks - {Blockstamp(b)};
      added := Success(b);
    }
  }
}
