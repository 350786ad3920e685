/** The service that resolves what the sandbox offers: first direct successors of the head,
    then forks. */
module BlockchainService {
  import opened Outcomes
  import opened ForkStore
  import opened ForkDao
  import opened Switcher
  import opened Trials

  /** `b` is a side block that follows the head, or a root block when there is no head. */
  predicate Follows(chain: seq<Block>, forks: Forks, b: Block) {
    && Listed(forks, b)
    && b.number == |chain|
    && (chain != [] ==> b.previousHash == chain[|chain| - 1].hash)
  }

  ghost predicate NoneTaken(verdict: Verdict, chain: seq<Block>, potentials: seq<Block>, n: nat)
    requires n <= |potentials|
  {
    forall j | 0 <= j < n :: !Acceptable(verdict, chain, potentials[j])
  }

  /** Only followers of the head can be acceptable. */
  lemma NoneIsAcceptable(verdict: Verdict, chain: seq<Block>, forks: Forks, potentials: seq<Block>)
    requires forall b :: b in potentials <==> Follows(chain, forks, b)
    requires NoneTaken(verdict, chain, potentials, |potentials|)
    ensures forall b | Listed(forks, b) :: !Acceptable(verdict, chain, b)
  {
    forall b | Listed(forks, b) ensures !Acceptable(verdict, chain, b) {
      assert Acceptable(verdict, chain, b) ==> b in potentials;
      if b in potentials {
        var j :| 0 <= j < |potentials| && potentials[j] == b;
      }
    }
  }

  ghost predicate OneTaken(chain: seq<Block>, forks: Forks, b: Block, chain': seq<Block>, forks': Forks) {
    chain' == chain + [b] && forks' == forks - {Blockstamp(b)} && |forks'| < |forks|
  }

  /** The chain took the side blocks `news`, which pass the filter. */
  ghost predicate Took(chain: seq<Block>, forks: Forks, news: seq<Block>,
                       chain': seq<Block>, forks': Forks)
  {
    && chain' == chain + news
    && forks' == Without(forks, news)
    && forall b | b in news :: Listed(forks, b)
  }

  function LastOf(news: seq<Block>): Option<Block> {
    if news == [] then None else Some(news[|news| - 1])
  }

  lemma OneFewer(forks: Forks, k: Stamp)
    requires k in forks
    ensures |forks - {k}| < |forks|
  {
    assert (forks - {k}).Keys == forks.Keys - {k};
  }

  lemma OneMoreTaken(chain: seq<Block>, forks: Forks, news: seq<Block>, b: Block)
    requires Took(chain, forks, news, chain + news, Without(forks, news))
    requires Listed(Without(forks, news), b)
    ensures LastOf(news + [b]) == Some(b) && news + [b] != []
    ensures Took(chain, forks, news + [b], chain + news + [b], Without(forks, news) - {Blockstamp(b)})
  {
  }

  class Service {
    const dao: Dao
    const invalidForks: InvalidForks
    const avgGenTime: nat
    const forkWindowSize: nat
    const switchOnHeadAdvance: nat

    constructor (dao: Dao, avgGenTime: nat, forkWindowSize: nat, switchOnHeadAdvance: nat)
      ensures this.dao == dao && fresh(invalidForks) && invalidForks.stamps == []
      ensures this.avgGenTime == avgGenTime && this.forkWindowSize == forkWindowSize
      ensures this.switchOnHeadAdvance == switchOnHeadAdvance
    {
      this.dao := dao;
      this.avgGenTime, this.forkWindowSize := avgGenTime, forkWindowSize;
      this.switchOnHeadAdvance := switchOnHeadAdvance;
      invalidForks := new InvalidForks();
    }

    /** The side blocks that follow the head. */
    method FollowersOfHead() returns (potentials: seq<Block>)
      requires dao.Valid()
      ensures forall b :: b in potentials <==> Follows(dao.chain, dao.forks, b)
    {
      var chain := dao.chain;
      potentials := dao.SideBlocks((b: Block) =>
        b.number == |chain| && (chain != [] ==> b.previousHash == chain[|chain| - 1].hash));
    }

    /** Tries one follower; a block that is taken clears the marks. */
    method TryFollower(b: Block) returns (taken: bool)
      requires dao.Valid() && Listed(dao.forks, b)
      modifies dao`chain, dao`forks, invalidForks
      ensures dao.Valid()
      ensures taken <==> Acceptable(dao.verdict, old(dao.chain), b)
      ensures taken ==> OneTaken(old(dao.chain), old(dao.forks), b, dao.chain, dao.forks) && invalidForks.stamps == []
      ensures !taken ==>
                && dao.chain == old(dao.chain) && dao.forks == old(dao.forks)
                && invalidForks.stamps == old(invalidForks.stamps)
    {
      assert Known(dao.chain, dao.forks, b);
      var result := dao.AddBlock(b);
      taken := result.Success?;
      if taken {
        OneFewer(old(dao.forks), Blockstamp(b));
        invalidForks.stamps := [];
      }
    }

    /** The loop over the followers, which stops at the first that is accepted. */
    method TryFollowers(potentials: seq<Block>) returns (added: Option<Block>)
      requires dao.Valid() && forall b | b in potentials :: Listed(dao.forks, b)
      modifies dao`chain, dao`forks, invalidForks
      ensures dao.Valid()
      ensures added.None? ==>
                && dao.chain == old(dao.chain) && dao.forks == old(dao.forks)
                && invalidForks.stamps == old(invalidForks.stamps)
                && NoneTaken(dao.verdict, dao.chain, potentials, |potentials|)
      ensures added.Some? ==>
                && added.value in potentials && Acceptable(dao.verdict, old(dao.chain), added.value)
                && OneTaken(old(dao.chain), old(dao.forks), added.value, dao.chain, dao.forks)
                && invalidForks.stamps == []
    {
      ghost var chain, forks := dao.chain, dao.forks;
      added := None;
      var i := 0;
      while added.None? && i < |potentials|
        invariant 0 <= i <= |potentials|
        invariant dao.Valid()
        invariant added.None? ==>
                    && dao.chain == chain && dao.forks == forks
                    && invalidForks.stamps == old(invalidForks.stamps)
                    && NoneTaken(dao.verdict, chain, potentials, i)
        invariant added.Some? ==>
                    && added.value in potentials && Acceptable(dao.verdict, chain, added.value)
                    && OneTaken(chain, forks, added.value, dao.chain, dao.forks)
                    && invalidForks.stamps == []
      {
        var b := potentials[i];
        var taken := TryFollower(b);
        if taken {
          added := Some(b);
        }
        i := i + 1;
      }
    }

    /** One round of `blockResolution`: tries the followers of the head until one is accepted. */
    method AddOneFollower() returns (added: Option<Block>)
      requires dao.Valid()
      modifies dao`chain, dao`forks, invalidForks
      ensures dao.Valid()
      ensures added.None? ==>
                && dao.chain == old(dao.chain) && dao.forks == old(dao.forks)
                && invalidForks.stamps == old(invalidForks.stamps)
                && forall b | Listed(dao.forks, b) :: !Acceptable(dao.verdict, dao.chain, b)
      ensures added.Some? ==>
                && Listed(old(dao.forks), added.value) && Acceptable(dao.verdict, old(dao.chain), added.value)
                && dao.chain == old(dao.chain) + [added.value]
                && dao.forks == old(dao.forks) - {Blockstamp(added.value)}
                && |dao.forks| < |old(dao.forks)|
                && invalidForks.stamps == []
    {
      var potentials := FollowersOfHead();
      added := TryFollowers(potentials);
      if added.None? {
        NoneIsAcceptable(dao.verdict, dao.chain, dao.forks, potentials);
      }
    }

    /** `blockResolution`: adds followers of the head as long as one is accepted. */
    method BlockResolution() returns (lastAdded: Option<Block>, ghost news: seq<Block>)
      requires dao.Valid()
      modifies dao`chain, dao`forks, invalidForks
      ensures dao.Valid()
      ensures Took(old(dao.chain), old(dao.forks), news, dao.chain, dao.forks)
      ensures forall b | Listed(dao.forks, b) :: !Acceptable(dao.verdict, dao.chain, b)
      ensures lastAdded == LastOf(news)
      ensures invalidForks.stamps == if news == [] then old(invalidForks.stamps) else []
    {
      ghost var before, forks, stamps := dao.chain, dao.forks, invalidForks.stamps;
      lastAdded, news := None, [];
      assert Without(forks, []) == forks && before + [] == before;
      var going := true;
      while going
        invariant dao.Valid()
        invariant Took(before, forks, news, dao.chain, dao.forks)
        invariant lastAdded == LastOf(news)
        invariant invalidForks.stamps == if news == [] then stamps else []
        invariant going || forall b | Listed(dao.forks, b) :: !Acceptable(dao.verdict, dao.chain, b)
        decreases going, |dao.forks|
      {
        var added := AddOneFollower();
        going := added.Some?;
        if going {
          lastAdded := added;
          OneMoreTaken(before, forks, news, added.value);
          news := news + [added.value];
        }
      }
    }

    /** `forkResolution`: a switcher that shares the marks of this service. */
    method ForkResolution()
      returns (newCurrent: Option<Block>, ghost suites: seq<seq<Block>>, ghost potentials: seq<Block>)
      requires dao.Valid()
      modifies dao`chain, dao`forks, invalidForks
      ensures dao.Valid()
      ensures old(dao.chain) == [] ==>
                && newCurrent.None? && dao.chain == [] && dao.forks == old(dao.forks)
                && invalidForks.stamps == old(invalidForks.stamps)
      ensures old(dao.chain) != [] ==>
                && SearchDone(Rule(), old(dao.chain), old(dao.forks), old(invalidForks.Marked()), potentials, suites)
                && ForkResolved(dao.verdict, Rule(), old(dao.chain), old(dao.forks), Ascending(suites),
                                dao.chain, dao.forks, newCurrent)
                && invalidForks.stamps ==
                   old(invalidForks.stamps) + AllMarks(dao.verdict, old(dao.chain), Ascending(suites))
      ensures SafeSwitch(Rule(), old(dao.chain), old(dao.forks), dao.chain, dao.forks, newCurrent)
      ensures old(dao.chain) != [] ==>
                var head := old(dao.chain)[|old(dao.chain)| - 1];
                forall b :: b in potentials <==>
                  && Listed(old(dao.forks), b)
                  && b.number >= head.number + switchOnHeadAdvance
                  && b.number <= head.number + switchOnHeadAdvance + forkWindowSize
                  && b.medianTime >= head.medianTime + switchOnHeadAdvance * avgGenTime
      ensures newCurrent.Some? ==>
                && old(dao.chain) != []
                && var head := old(dao.chain)[|old(dao.chain)| - 1];
                   && newCurrent.value.number >= head.number + switchOnHeadAdvance
                   && newCurrent.value.medianTime >= head.medianTime + switchOnHeadAdvance * avgGenTime
      ensures old(dao.chain) != [] && AllHang(old(dao.chain), Ascending(suites)) ==>
                var head := old(dao.chain)[|old(dao.chain)| - 1];
                var best := Best(Trial(dao.verdict, old(dao.chain), Ascending(suites)));
                && (best.None? ==> newCurrent.None?)
                && (best.Some? ==>
                      var last := best.value[|best.value| - 1];
                      newCurrent ==
                      if && last.number >= head.number + switchOnHeadAdvance
                         && last.medianTime >= head.medianTime + switchOnHeadAdvance * avgGenTime
                      then Some(last) else None)
    {
      var switcher := new Switcher(dao, invalidForks, avgGenTime, forkWindowSize, switchOnHeadAdvance);
      newCurrent, suites, potentials := switcher.TryToFork();
    }

    function Rule(): ForkRule {
      ForkRule(forkWindowSize, switchOnHeadAdvance, switchOnHeadAdvance * avgGenTime)
    }
  }
}
