/** A side chain that is passed over for its marks: two fork resolutions of one service, the
    second after a block arrived that makes an acceptable chain far enough. */
module ForkMarks {
  import opened Outcomes
  import opened ForkStore
  import opened ForkDao
  import opened Suites
  import opened Trials
  import opened Switcher
  import opened ForkCompleteness
  import opened BlockchainService

  /** The main chain. */
  const G := Block(0, "G", "", 0)
  const M1 := Block(1, "M1", "G", 1)

  /** The side chain, with a refused and a good third block. */
  const A1 := Block(1, "A1", "G", 1)
  const A2 := Block(2, "A2", "A1", 2)
  const B3 := Block(3, "B3", "A2", 3)
  const C3 := Block(3, "C3", "A2", 3)

  /** Every block but B3 obeys the rules. */
  predicate Obeys(chain: seq<Block>, b: Block) {
    b.hash != "B3"
  }

  const RULE := ForkRule(3, 2, 2)

  function Sandbox(): Forks {
    map[(1, "A1") := A1, (2, "A2") := A2, (3, "B3") := B3]
  }

  function FullSandbox(): Forks {
    SetAside(Sandbox(), C3)
  }

  /** The side chain that ends on `b` is a branch of the window, far enough. */
  lemma SideChainIsFar(forks: Forks, b: Block)
    requires (forks == Sandbox() && b == B3) || (forks == FullSandbox() && b in [B3, C3])
    ensures FarBranch(RULE, [G, M1], forks, [b, A2, A1])
  {
    var chain, t := [G, M1], [b, A2, A1];
    assert Link(chain, forks, {}, t, 0) && Link(chain, forks, {}, t, 1);
  }

  lemma GoodChainIsAcceptable()
    ensures WhollyAcceptable(Obeys, [G, M1], [C3, A2, A1])
  {
    var t := [C3, A2, A1];
    assert [G, M1][..1] == [G];
    assert Reversed(t) == [A1, A2, C3];
    assert Acceptable(Obeys, [G], A1) && Acceptable(Obeys, [G] + [A1], A2) && Acceptable(Obeys, [G] + [A1] + [A2], C3);
    TakesThree([G], A1, A2, C3);
  }

  lemma TakesThree(base: seq<Block>, a: Block, b: Block, c: Block)
    requires Acceptable(Obeys, base, a) && Acceptable(Obeys, base + [a], b)
    ensures AcceptedLength(Obeys, base, [a, b, c]) == if Acceptable(Obeys, base + [a] + [b], c) then 3 else 2
  {
    assert [a, b, c][1..] == [b, c] && [b, c][1..] == [c] && [c][1..] == [];
    assert AcceptedLength(Obeys, base + [a] + [b], [c]) == if Acceptable(Obeys, base + [a] + [b], c) then 1 else 0;
  }

  lemma TwoShareAHead(suites: seq<seq<Block>>, t: seq<Block>)
    requires |suites| > 1 && t != [] && forall s | s in suites :: s == t
    ensures exists j, k | 0 <= j < |suites| && 0 <= k < |suites| && j != k ::
              suites[j] != [] && suites[j][0] in suites[k]
  {
    assert suites[0] in suites && suites[1] in suites;
    assert suites[0] != [] && suites[0][0] in suites[1];
  }

  /** The first search finds one suite, the one that ends on B3. */
  lemma OneSuite(potentials: seq<Block>, suites: seq<seq<Block>>)
    requires SearchDone(RULE, [G, M1], Sandbox(), {}, potentials, suites)
    ensures suites == [[B3, A2, A1]]
  {
    var chain, forks, t := [G, M1], Sandbox(), [B3, A2, A1];
    forall s | s in suites ensures s == t {
      assert Potential(RULE, M1, forks, s[0]);
      SideChainIsFar(forks, B3);
      BranchesAgree(chain, forks, {}, s, 0, t);
      assert s[0..] == s;
    }
    SideChainIsFar(forks, B3);
    assert Potential(RULE, M1, forks, B3);
    assert Covers(suites, t);
    if |suites| > 1 {
      TwoShareAHead(suites, t);
    }
  }

  /** Trying it leaves the chain where it is and marks all its blocks, the accepted ones too. */
  lemma AllIsMarked()
    ensures AllHang([G, M1], Ascending([[B3, A2, A1]]))
    ensures Trial(Obeys, [G, M1], Ascending([[B3, A2, A1]])) == [[A1, A2]]
    ensures Best([[A1, A2]]) == Some([A1, A2])
    ensures AllMarks(Obeys, [G, M1], Ascending([[B3, A2, A1]])) == [(3, "B3"), (1, "A1"), (2, "A2")]
  {
    var tried := Ascending([[B3, A2, A1]]);
    var s := [A1, A2, B3];
    assert Reversed([B3, A2, A1]) == s;
    assert tried == [s];
    assert Base([G, M1], s) == [G];
    TakesThree([G], A1, A2, B3);
    assert s[..2] == [A1, A2];
    assert tried[..0] == [] && Best([]) == None;
    assert [[A1, A2]][..0] == [];
    assert Stamps([A1, A2]) == [(1, "A1"), (2, "A2")];
  }

  lemma FirstIsIn<T>(s: seq<T>)
    ensures s == [] || s[0] in s
  {
  }

  lemma NoBranch(marked: set<Stamp>, s: seq<Block>)
    requires (2, "A2") in marked
    requires s != [] && s[0] in [B3, C3]
    ensures !Branch([G, M1], FullSandbox(), marked, s)
  {
    var chain, forks := [G, M1], FullSandbox();
    assert !Rooted(chain, forks, s[0]);
    assert Predecessor(chain, forks, s[0]) == Some(A2);
    assert |s| >= 2 ==> !Link(chain, forks, marked, s, 0);
  }

  /** The second search finds nothing: A2 counts as missing. */
  lemma NoSuite(marked: set<Stamp>, potentials: seq<Block>, suites: seq<seq<Block>>)
    requires (2, "A2") in marked
    requires SearchDone(RULE, [G, M1], FullSandbox(), marked, potentials, suites)
    ensures suites == []
  {
    forall s: seq<Block> | s != [] && s[0] in [B3, C3] ensures !Branch([G, M1], FullSandbox(), marked, s) {
      NoBranch(marked, s);
    }
    assert forall b | Potential(RULE, M1, FullSandbox(), b) :: b in [B3, C3];
    FirstIsIn(suites);
  }

  /** What a resolution of the service does, as its contract states it. */
  ghost predicate Resolved(forks: Forks, marked: set<Stamp>, potentials: seq<Block>, suites: seq<seq<Block>>,
                           chain': seq<Block>, forks': Forks, switched: Option<Block>)
  {
    && SearchDone(RULE, [G, M1], forks, marked, potentials, suites)
    && ForkResolved(Obeys, RULE, [G, M1], forks, Ascending(suites), chain', forks', switched)
  }

  lemma FirstStays(potentials: seq<Block>, suites: seq<seq<Block>>,
                   chain': seq<Block>, forks': Forks, switched: Option<Block>)
    requires Resolved(Sandbox(), {}, potentials, suites, chain', forks', switched)
    ensures switched.None? && chain' == [G, M1] && forks' == Sandbox()
    ensures (2, "A2") in AllMarks(Obeys, [G, M1], Ascending(suites))
  {
    OneSuite(potentials, suites);
    AllIsMarked();
    assert AllMarks(Obeys, [G, M1], Ascending(suites))[2] == (2, "A2");
  }

  lemma SecondStays(marked: set<Stamp>, potentials: seq<Block>, suites: seq<seq<Block>>,
                    chain': seq<Block>, forks': Forks, switched: Option<Block>)
    requires (2, "A2") in marked
    requires Resolved(FullSandbox(), marked, potentials, suites, chain', forks', switched)
    ensures switched.None? && chain' == [G, M1] && forks' == FullSandbox()
  {
    NoSuite(marked, potentials, suites);
    assert Best(Trial(Obeys, [G, M1], Ascending(suites))) == None;
  }

  lemma C3Fits()
    ensures HashFits([G, M1], Sandbox(), C3) && !Known([G, M1], Sandbox(), C3)
  {
  }

  lemma NextIsLinked(news: seq<Block>)
    requires AcceptedChain(Obeys, [G, M1] + news)
    ensures news == [] || (news[0].number == 2 && news[0].previousHash == M1.hash)
  {
    if news != [] {
      assert AcceptedAt(Obeys, [G, M1] + news, 2);
      assert ([G, M1] + news)[..2] == [G, M1];
    }
  }

  /** No side block follows the head: block resolution adds none, and the marks stay. */
  lemma NothingFollows(forks: Forks, news: seq<Block>, chain': seq<Block>, forks': Forks)
    requires forks == Sandbox() || forks == FullSandbox()
    requires Took([G, M1], forks, news, chain', forks') && AcceptedChain(Obeys, chain')
    ensures news == [] && chain' == [G, M1] && forks' == forks
  {
    NextIsLinked(news);
    FirstIsIn(news);
    assert forall b | Listed(forks, b) :: b.number != 2 || b.previousHash != M1.hash;
    assert Without(forks, []) == forks;
  }

  /** One round after a block arrived: block resolution, which finds no follower, then fork resolution. */
  method Resolve(service: Service, ghost forks: Forks)
    returns (switched: Option<Block>, ghost suites: seq<seq<Block>>, ghost potentials: seq<Block>)
    requires service.dao.Valid() && service.dao.verdict == Obeys
    requires service.forkWindowSize == 3 && service.switchOnHeadAdvance == 2 && service.avgGenTime == 1
    requires service.dao.chain == [G, M1] && service.dao.forks == forks
    requires forks == Sandbox() || forks == FullSandbox()
    modifies service.dao, service.invalidForks
    ensures service.dao.Valid()
    ensures Resolved(forks, old(service.invalidForks.Marked()), potentials, suites,
                     service.dao.chain, service.dao.forks, switched)
    ensures service.invalidForks.stamps == old(service.invalidForks.stamps)
                                           + AllMarks(Obeys, [G, M1], Ascending(suites))
  {
    var lastAdded;
    ghost var news;
    lastAdded, news := service.BlockResolution();
    NothingFollows(forks, news, service.dao.chain, service.dao.forks);
    switched, suites, potentials := service.ForkResolution();
  }

  method MainChain() returns (dao: Dao)
    ensures fresh(dao) && dao.Valid() && dao.verdict == Obeys
    ensures dao.chain == [G, M1] && dao.forks == map[]
  {
    dao := new Dao(Obeys);
    var added := dao.AddBlock(G);
    added := dao.AddBlock(M1);
  }

  lemma NewFits(forks: Forks, b: Block)
    requires b.hash != G.hash && b.hash != M1.hash && forall k | k in forks :: forks[k].hash != b.hash
    ensures HashFits([G, M1], forks, b) && !Known([G, M1], forks, b)
  {
  }

  method TwoSideBlocks() returns (dao: Dao)
    ensures fresh(dao) && dao.Valid() && dao.verdict == Obeys
    ensures dao.chain == [G, M1] && dao.forks == map[(1, "A1") := A1, (2, "A2") := A2]
  {
    dao := MainChain();
    NewFits(map[], A1);
    var saved := dao.AddSideBlock(A1);
    NewFits(map[(1, "A1") := A1], A2);
    saved := dao.AddSideBlock(A2);
  }

  /** The store after the blocks of both chains but C3 arrived. */
  method FilledDao() returns (dao: Dao)
    ensures fresh(dao) && dao.Valid() && dao.verdict == Obeys
    ensures dao.chain == [G, M1] && dao.forks == Sandbox()
  {
    dao := TwoSideBlocks();
    NewFits(map[(1, "A1") := A1, (2, "A2") := A2], B3);
    var saved := dao.AddSideBlock(B3);
  }

  /** Everything a switch needs is there, and the second resolution does not switch: the blocks A1
      and A2, which the chain took when it tried B3, keep C3 from being reached. Without the marks
      the chain of A1, A2 and C3 is a branch of the window, far enough, and wholly acceptable. */
  method AcceptedBlocksHideTheirChain() returns (dao: Dao, first: Option<Block>, second: Option<Block>)
    ensures first.None? && second.None?
    ensures dao.Valid() && dao.verdict == Obeys && dao.chain == [G, M1] && dao.forks == FullSandbox()
    ensures FarBranch(RULE, dao.chain, dao.forks, [C3, A2, A1])
    ensures WhollyAcceptable(dao.verdict, dao.chain, [C3, A2, A1])
  {
    dao := FilledDao();
    var service := new Service(dao, 1, 3, 2);
    assert service.invalidForks.Marked() == {};
    ghost var suites, potentials;
    first, suites, potentials := Resolve(service, Sandbox());
    FirstStays(potentials, suites, dao.chain, dao.forks, first);
    assert (2, "A2") in service.invalidForks.Marked();
    C3Fits();
    var saved := dao.AddSideBlock(C3);
    ghost var marked := service.invalidForks.Marked();
    second, suites, potentials := Resolve(service, FullSandbox());
    SecondStays(marked, potentials, suites, dao.chain, dao.forks, second);
    SideChainIsFar(dao.forks, C3);
    GoodChainIsAcceptable();
  }
}
